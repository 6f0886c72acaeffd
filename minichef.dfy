/** The accumulator-per-share reward ledger (the "MiniChef").

    Pool configuration events maintain each pool's allocation weight and the
    singleton's total; pool update events store the pool's reward accumulator
    `accEnergyFiPerShare`, a fixed-point number with denominator
    `AccSushiPrecision`.  Per account and pool, deposits and withdrawals move
    the principal `amount` together with the `rewardDebt`, the part of
    `amount * acc / precision` that has already been paid or was never earned.

    Every quantity is a BigInt, modelled as `int`.  The entity getters are
    load-or-create accessors returning zero-initialised records; a rewarder is
    identified by its address. */
module MiniChefMapping {
  import Sums

  /** A 20-byte address, read as a number. */
  type Address = nat
  const AddressZero: Address := 0

  /** `ACC_SUSHI_PRECISION`: the denominator of `accEnergyFiPerShare` (1e12). */
  const AccSushiPrecision: int := 1_000_000_000_000

  function Abs(x: int): nat
  {
    if x < 0 then -x else x
  }

  /** `BigInt.div`: integer division truncating toward zero. */
  function Div(a: int, b: int): int
    requires b > 0
  {
    if a < 0 then -(Abs(a) / b) else a / b
  }

  /** Truncating division: the quotient has the sign of `a`, and its magnitude is the number of
      whole multiples of `b` in the magnitude of `a`. */
  lemma DivTruncates(a: int, b: int)
    requires b > 0
    ensures a >= 0 ==> 0 <= Div(a, b) && Div(a, b) * b <= a < Div(a, b) * b + b
    ensures a < 0 ==> Div(a, b) <= 0 && -Div(a, b) * b <= -a < -Div(a, b) * b + b
  {
    DivBounds(Abs(a), b);
  }

  /** Euclidean division of a non-negative number brackets it between consecutive multiples. */
  lemma DivBounds(n: nat, b: int)
    requires b > 0
    ensures 0 <= n / b && (n / b) * b <= n < (n / b) * b + b
  {
  }

  // ---------------------------------------------------------------------------
  // Entities

  /** The MiniChef singleton. */
  datatype MiniChef = MiniChef(totalAllocPoint: int, poolCount: int, energyFiPerSecond: int)

  /** One pool; `rewarder` and `pair` are addresses, zero until set. */
  datatype Pool = Pool(
    rewarder: Address,
    pair: Address,
    allocPoint: int,
    accEnergyFiPerShare: int,
    lastRewardTime: int,
    slpBalance: int)

  /** One account's position in one pool. */
  datatype User = User(amount: int, rewardDebt: int, energyFiHarvested: int)

  /** Users are stored per pool and account. */
  datatype UserKey = UserKey(pid: nat, account: Address)

  const NewMiniChef: MiniChef := MiniChef(0, 0, 0)
  const NewPool: Pool := Pool(AddressZero, AddressZero, 0, 0, 0, 0)
  const NewUser: User := User(0, 0, 0)

  /** `getPool`. */
  function PoolOf(pools: map<nat, Pool>, pid: nat): (p: Pool)
    ensures pid in pools ==> p == pools[pid]
    ensures pid !in pools ==> && p.rewarder == AddressZero && p.pair == AddressZero
                              && p.allocPoint == 0 && p.accEnergyFiPerShare == 0
                              && p.lastRewardTime == 0 && p.slpBalance == 0
  {
    if pid in pools then pools[pid] else NewPool
  }

  /** `getUser`. */
  function UserOf(users: map<UserKey, User>, account: Address, pid: nat): (u: User)
    ensures UserKey(pid, account) in users ==> u == users[UserKey(pid, account)]
    ensures UserKey(pid, account) !in users ==> u.amount == 0 && u.rewardDebt == 0 && u.energyFiHarvested == 0
  {
    var key := UserKey(pid, account);
    if key in users then users[key] else NewUser
  }

  // ---------------------------------------------------------------------------
  // Reward arithmetic

  /** `amount * acc / ACC_SUSHI_PRECISION`: the reward an amount has accumulated at `acc`. */
  function Accumulated(amount: int, acc: int): (r: int)
    ensures amount >= 0 && acc >= 0 ==> r >= 0
    ensures amount == 0 || acc == 0 ==> r == 0
  {
    Div(amount * acc, AccSushiPrecision)
  }

  /** For non-negative operands the accumulated reward is the largest `r` with
      `r * ACC_SUSHI_PRECISION <= amount * acc`. */
  lemma AccumulatedBounds(amount: int, acc: int)
    requires amount >= 0 && acc >= 0
    ensures var r := Accumulated(amount, acc);
            0 <= r && r * AccSushiPrecision <= amount * acc < (r + 1) * AccSushiPrecision
  {
    DivTruncates(amount * acc, AccSushiPrecision);
  }

  /** The reward an account may still harvest at `acc`. */
  function Pending(u: User, acc: int): (r: int)
    ensures u.rewardDebt == Accumulated(u.amount, acc) ==> r == 0
    ensures u.amount == 0 ==> r == -u.rewardDebt
  {
    Accumulated(u.amount, acc) - u.rewardDebt
  }

  /** Deposit, account side. */
  function DepositUser(u: User, amount: int, acc: int): (r: User)
    ensures r.amount == u.amount + amount
    ensures r.rewardDebt == u.rewardDebt + Accumulated(amount, acc)
    ensures r.energyFiHarvested == u.energyFiHarvested
  {
    u.(amount := u.amount + amount, rewardDebt := u.rewardDebt + Accumulated(amount, acc))
  }

  /** Withdraw, account side: the mirror image of a deposit. */
  function WithdrawUser(u: User, amount: int, acc: int): (r: User)
    ensures r.amount == u.amount - amount
    ensures r.rewardDebt == u.rewardDebt - Accumulated(amount, acc)
    ensures r.energyFiHarvested == u.energyFiHarvested
  {
    u.(amount := u.amount - amount, rewardDebt := u.rewardDebt - Accumulated(amount, acc))
  }

  /** Emergency withdraw, account side: principal and debt are cleared whatever the amount. */
  function EmergencyWithdrawUser(u: User): (r: User)
    ensures r.amount == 0 && r.rewardDebt == 0
    ensures r.energyFiHarvested == u.energyFiHarvested
  {
    u.(amount := 0, rewardDebt := 0)
  }

  /** Harvest, account side: the debt is brought up to what the principal has accumulated,
      which leaves nothing pending; the reported amount is added to the harvested total. */
  function HarvestUser(u: User, acc: int, harvested: int): (r: User)
    ensures r.amount == u.amount
    ensures Pending(r, acc) == 0
    ensures r.energyFiHarvested == u.energyFiHarvested + harvested
  {
    u.(rewardDebt := Accumulated(u.amount, acc), energyFiHarvested := u.energyFiHarvested + harvested)
  }

  /** A non-zero multiple of a positive number is at least that number in magnitude. */
  lemma MultipleBounds(p: int, k: int)
    requires p > 0
    ensures k >= 1 ==> p * k >= p
    ensures k <= -1 ==> p * k <= -p
  {
    if k >= 1 {
      assert p * k == p * (k - 1) + p;
    } else if k <= -1 {
      assert p * k == p * (k + 1) - p;
    }
  }

  /** Integer division by a positive divisor is determined by quotient and remainder. */
  lemma DivUnique(a: int, p: int, q: int, r: int)
    requires p > 0 && a == p * q + r && 0 <= r < p
    ensures a / p == q
  {
    var k := q - a / p;
    assert p * k == a % p - r;
    MultipleBounds(p, k);
  }

  /** Dividing a difference rounds at most one unit below the difference of the quotients. */
  lemma DivOfDifference(x: int, y: int, p: int)
    requires p > 0
    ensures x / p - y / p - 1 <= (x - y) / p <= x / p - y / p
  {
    var qx, rx, qy, ry := x / p, x % p, y / p, y % p;
    assert x - y == p * (qx - qy) + (rx - ry);
    if rx >= ry {
      DivUnique(x - y, p, qx - qy, rx - ry);
    } else {
      assert x - y == p * (qx - qy - 1) + (rx - ry + p);
      DivUnique(x - y, p, qx - qy - 1, rx - ry + p);
    }
  }

  /** A deposit followed by a withdrawal of the same amount at the same accumulator restores
      the account. */
  lemma DepositThenWithdraw(u: User, amount: int, acc: int)
    ensures WithdrawUser(DepositUser(u, amount, acc), amount, acc) == u
  {
  }

  /** Harvesting twice at the same accumulator leaves the debt where the first harvest put it. */
  lemma HarvestIsIdempotent(u: User, acc: int, first: int, second: int)
    ensures HarvestUser(HarvestUser(u, acc, first), acc, second).rewardDebt == HarvestUser(u, acc, first).rewardDebt
  {
  }

  /** After an emergency withdrawal nothing is pending, whatever the accumulator reaches: the
      reward accumulated so far is forfeited. */
  lemma EmergencyWithdrawForfeits(u: User, acc: int)
    ensures Pending(EmergencyWithdrawUser(u), acc) == 0
  {
  }

  /** A deposit neither pays out nor forfeits pending reward, up to one unit of rounding in the
      account's favour. */
  lemma DepositKeepsPending(u: User, amount: int, acc: int)
    requires u.amount >= 0 && amount >= 0 && acc >= 0
    ensures Pending(u, acc) <= Pending(DepositUser(u, amount, acc), acc) <= Pending(u, acc) + 1
  {
    var p := AccSushiPrecision;
    var x, y := (u.amount + amount) * acc, u.amount * acc;
    assert x - y == amount * acc;
    DivOfDifference(x, y, p);
  }

  /** A withdrawal of at most the principal neither pays out nor forfeits pending reward, up to
      one unit of rounding against the account. */
  lemma WithdrawKeepsPending(u: User, amount: int, acc: int)
    requires 0 <= amount <= u.amount && acc >= 0
    ensures Pending(u, acc) - 1 <= Pending(WithdrawUser(u, amount, acc), acc) <= Pending(u, acc)
  {
    var p := AccSushiPrecision;
    var x, y := u.amount * acc, (u.amount - amount) * acc;
    assert x - y == amount * acc;
    DivOfDifference(x, y, p);
  }

  /** An account that deposits `d` into a fresh position at accumulator `a0` has, once the
      accumulator reaches `a1`, exactly `d * a1 / P - d * a0 / P` pending: the reward on
      `d * (a1 - a0) / P` or one unit more, because each product is truncated on its own. */
  lemma PendingAfterAdvance(d: int, a0: int, a1: int)
    requires d >= 0 && 0 <= a0 <= a1
    ensures var u := DepositUser(NewUser, d, a0);
            && Pending(u, a1) == Accumulated(d, a1) - Accumulated(d, a0)
            && Accumulated(d, a1 - a0) <= Pending(u, a1) <= Accumulated(d, a1 - a0) + 1
  {
    var x, y := d * a1, d * a0;
    assert x - y == d * (a1 - a0);
    DivOfDifference(x, y, AccSushiPrecision);
  }

  /** Depositing 50 at accumulator 0 and harvesting at 1e6 leaves a debt of 50e6 / 1e12,
      which truncates to 0. */
  lemma HarvestScenario()
    ensures HarvestUser(DepositUser(NewUser, 50, 0), 1_000_000, 0).rewardDebt == 0
  {
  }

  // ---------------------------------------------------------------------------
  // Allocation points

  function AllocOf(p: Pool): real
  {
    p.allocPoint as real
  }

  /** The singleton's total matches the pools' allocation points. */
  ghost predicate AllocBalanced(total: int, pools: map<nat, Pool>)
  {
    total as real == Sums.SumOver(pools, AllocOf)
  }

  /** `logSetPool` moves the total by new − old and then stores the new weight, so a balanced
      total stays balanced. */
  lemma SetPoolKeepsAllocBalanced(total: int, pools: map<nat, Pool>, pid: nat, allocPoint: int, p: Pool)
    requires AllocBalanced(total, pools)
    requires p.allocPoint == allocPoint
    ensures AllocBalanced(total + (allocPoint - PoolOf(pools, pid).allocPoint), pools[pid := p])
  {
    Sums.SumOverUpdate(pools, AllocOf, pid, p);
  }

  /** `logPoolAddition` adds the new weight to the total; the total stays balanced when the
      pool id had no weight before (a pool is added once). */
  lemma AddPoolKeepsAllocBalanced(total: int, pools: map<nat, Pool>, pid: nat, allocPoint: int, p: Pool)
    requires AllocBalanced(total, pools)
    requires p.allocPoint == allocPoint && PoolOf(pools, pid).allocPoint == 0
    ensures AllocBalanced(total + allocPoint, pools[pid := p])
  {
    Sums.SumOverUpdate(pools, AllocOf, pid, p);
  }

  /** Rewriting a pool without changing its weight keeps the total balanced. */
  lemma KeepWeightKeepsAllocBalanced(total: int, pools: map<nat, Pool>, pid: nat, p: Pool)
    requires AllocBalanced(total, pools)
    requires p.allocPoint == PoolOf(pools, pid).allocPoint
    ensures AllocBalanced(total, pools[pid := p])
  {
    Sums.SumOverUpdate(pools, AllocOf, pid, p);
  }

  // ---------------------------------------------------------------------------
  // The handlers over mutable records

  class MiniChefLedger {
    var miniChef: MiniChef
    var pools: map<nat, Pool>
    var users: map<UserKey, User>

    ghost predicate Balanced()
      reads this
    {
      AllocBalanced(miniChef.totalAllocPoint, pools)
    }

    constructor ()
      ensures miniChef == NewMiniChef && pools == map[] && users == map[]
      ensures Balanced()
    {
      miniChef, pools, users := NewMiniChef, map[], map[];
    }

    /** `logPoolAddition`. */
    method LogPoolAddition(pid: nat, allocPoint: nat, lpToken: Address, rewarder: Address)
      modifies this
      ensures pools == old(pools)[pid := old(PoolOf(pools, pid)).(rewarder := rewarder, pair := lpToken, allocPoint := allocPoint)]
      ensures miniChef == old(miniChef).(totalAllocPoint := old(miniChef.totalAllocPoint) + allocPoint,
                                         poolCount := old(miniChef.poolCount) + 1)
      ensures users == old(users)
      ensures old(Balanced()) && old(PoolOf(pools, pid)).allocPoint == 0 ==> Balanced()
    {
      var chef := miniChef;
      var pool := PoolOf(pools, pid);
      ghost var before := pools;
      pool := pool.(rewarder := rewarder);
      pool := pool.(pair := lpToken);
      pool := pool.(allocPoint := allocPoint);
      pools := pools[pid := pool];
      chef := chef.(totalAllocPoint := chef.totalAllocPoint + pool.allocPoint);
      chef := chef.(poolCount := chef.poolCount + 1);
      miniChef := chef;
      if old(Balanced()) && PoolOf(before, pid).allocPoint == 0 {
        AddPoolKeepsAllocBalanced(old(miniChef.totalAllocPoint), before, pid, allocPoint, pool);
      }
    }

    /** `logSetPool`: the old weight is read before it is overwritten. */
    method LogSetPool(pid: nat, allocPoint: nat, rewarder: Address, overwrite: bool)
      modifies this
      ensures var was := old(PoolOf(pools, pid));
              && pools == old(pools)[pid := was.(rewarder := if overwrite then rewarder else was.rewarder,
                                                 allocPoint := allocPoint)]
              && miniChef == old(miniChef).(totalAllocPoint := old(miniChef.totalAllocPoint) + (allocPoint - was.allocPoint))
      ensures users == old(users)
      ensures old(Balanced()) ==> Balanced()
    {
      var chef := miniChef;
      var pool := PoolOf(pools, pid);
      ghost var before := pools;
      if overwrite {
        pool := pool.(rewarder := rewarder);
      }
      chef := chef.(totalAllocPoint := chef.totalAllocPoint + (allocPoint - pool.allocPoint));
      miniChef := chef;
      pool := pool.(allocPoint := allocPoint);
      pools := pools[pid := pool];
      if old(Balanced()) {
        SetPoolKeepsAllocBalanced(old(miniChef.totalAllocPoint), before, pid, allocPoint, pool);
      }
    }

    /** `logUpdatePool`: only the pool's accumulator and reward time are written. */
    method LogUpdatePool(pid: nat, lastRewardTime: nat, accEnergyFiPerShare: nat)
      modifies this
      ensures pools == old(pools)[pid := old(PoolOf(pools, pid)).(accEnergyFiPerShare := accEnergyFiPerShare,
                                                                    lastRewardTime := lastRewardTime)]
      ensures miniChef == old(miniChef) && users == old(users)
      ensures old(Balanced()) ==> Balanced()
    {
      var pool := PoolOf(pools, pid);
      ghost var before := pools;
      pool := pool.(accEnergyFiPerShare := accEnergyFiPerShare);
      pool := pool.(lastRewardTime := lastRewardTime);
      pools := pools[pid := pool];
      if old(Balanced()) {
        KeepWeightKeepsAllocBalanced(miniChef.totalAllocPoint, before, pid, pool);
      }
    }

    /** `logEnergyFiPerSecond`: only the emission rate is written. */
    method LogEnergyFiPerSecond(energyFiPerSecond: nat)
      modifies this
      ensures miniChef == old(miniChef).(energyFiPerSecond := energyFiPerSecond)
      ensures pools == old(pools) && users == old(users)
      ensures old(Balanced()) ==> Balanced()
    {
      var chef := miniChef;
      chef := chef.(energyFiPerSecond := energyFiPerSecond);
      miniChef := chef;
    }

    /** `deposit`: the pool's liquidity grows and the `to` account is credited. */
    method Deposit(user: Address, pid: nat, amount: nat, to: Address)
      modifies this
      ensures var pool := old(PoolOf(pools, pid));
              && pools == old(pools)[pid := pool.(slpBalance := pool.slpBalance + amount)]
              && users == old(users)[UserKey(pid, to) := DepositUser(old(UserOf(users, to, pid)), amount, pool.accEnergyFiPerShare)]
      ensures miniChef == old(miniChef)
      ensures old(Balanced()) ==> Balanced()
    {
      var pool := PoolOf(pools, pid);
      var account := UserOf(users, to, pid);
      ghost var before := pools;
      pool := pool.(slpBalance := pool.slpBalance + amount);
      pools := pools[pid := pool];
      account := account.(amount := account.amount + amount);
      account := account.(rewardDebt := account.rewardDebt + Accumulated(amount, pool.accEnergyFiPerShare));
      assert account == DepositUser(UserOf(users, to, pid), amount, pool.accEnergyFiPerShare);
      users := users[UserKey(pid, to) := account];
      if old(Balanced()) {
        KeepWeightKeepsAllocBalanced(miniChef.totalAllocPoint, before, pid, pool);
      }
    }

    /** `withdraw`: the pool's liquidity shrinks and the `user` account is debited. */
    method Withdraw(user: Address, pid: nat, amount: nat, to: Address)
      modifies this
      ensures var pool := old(PoolOf(pools, pid));
              && pools == old(pools)[pid := pool.(slpBalance := pool.slpBalance - amount)]
              && users == old(users)[UserKey(pid, user) := WithdrawUser(old(UserOf(users, user, pid)), amount, pool.accEnergyFiPerShare)]
      ensures miniChef == old(miniChef)
      ensures old(Balanced()) ==> Balanced()
    {
      var pool := PoolOf(pools, pid);
      var account := UserOf(users, user, pid);
      ghost var before := pools;
      pool := pool.(slpBalance := pool.slpBalance - amount);
      pools := pools[pid := pool];
      account := account.(amount := account.amount - amount);
      account := account.(rewardDebt := account.rewardDebt - Accumulated(amount, pool.accEnergyFiPerShare));
      assert account == WithdrawUser(UserOf(users, user, pid), amount, pool.accEnergyFiPerShare);
      users := users[UserKey(pid, user) := account];
      if old(Balanced()) {
        KeepWeightKeepsAllocBalanced(miniChef.totalAllocPoint, before, pid, pool);
      }
    }

    /** `emergencyWithdraw`: the pool's liquidity shrinks by the event amount while the `user`
        account is cleared whatever that amount is. */
    method EmergencyWithdraw(user: Address, pid: nat, amount: nat, to: Address)
      modifies this
      ensures var pool := old(PoolOf(pools, pid));
              && pools == old(pools)[pid := pool.(slpBalance := pool.slpBalance - amount)]
              && users == old(users)[UserKey(pid, user) := EmergencyWithdrawUser(old(UserOf(users, user, pid)))]
      ensures miniChef == old(miniChef)
      ensures old(Balanced()) ==> Balanced()
    {
      var pool := PoolOf(pools, pid);
      var account := UserOf(users, user, pid);
      ghost var before := pools;
      pool := pool.(slpBalance := pool.slpBalance - amount);
      pools := pools[pid := pool];
      ghost var loaded := account;
      account := account.(amount := 0);
      account := account.(rewardDebt := 0);
      assert account == EmergencyWithdrawUser(loaded);
      users := users[UserKey(pid, user) := account];
      if old(Balanced()) {
        KeepWeightKeepsAllocBalanced(miniChef.totalAllocPoint, before, pid, pool);
      }
    }

    /** `harvest`: the `user` account's debt is settled at the pool's accumulator; the pool
        record is loaded but not written. */
    method Harvest(user: Address, pid: nat, amount: nat)
      modifies this
      ensures users == old(users)[UserKey(pid, user) := HarvestUser(old(UserOf(users, user, pid)),
                                                                   old(PoolOf(pools, pid)).accEnergyFiPerShare, amount)]
      ensures pools == old(pools) && miniChef == old(miniChef)
      ensures old(Balanced()) ==> Balanced()
    {
      var pool := PoolOf(pools, pid);
      var account := UserOf(users, user, pid);
      var accumulatedEnergyFi := Accumulated(account.amount, pool.accEnergyFiPerShare);
      account := account.(rewardDebt := accumulatedEnergyFi);
      account := account.(energyFiHarvested := account.energyFiHarvested + amount);
      users := users[UserKey(pid, user) := account];
    }
  }
}
