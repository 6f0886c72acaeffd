# EnergyFi subgraph ledgers in Dafny

This project models two event handlers of the EnergyFi subgraphs. Each one folds
blockchain events into stored entities.

- **The bar** (`subgraphs/bar/src/bar.ts`, module `BarMapping` in `bar.dfy`).
  Every `Transfer` of the xEnergyFi share token updates three kinds of record:
  the `Bar` singleton, one `User` per account, and one `History` per day.
  - A transfer from the zero address is a mint: energyFi is staked.
  - A transfer to the zero address is a burn: energyFi is harvested.
  - Any other transfer moves shares, and their age, between two accounts.
  - An account's age is the time integral of its shares, counted in share-days.

  `BarLedger` is the store, with its `Transfer` handler written step by step. It
  is proved equal to the pure function `ApplyTransfer`.
- **The MiniChef** (`subgraphs/minichef/src/mappings/minichef.ts`, module
  `MiniChefMapping` in `minichef.dfy`).
  - Pool events keep each pool's allocation weight and the chef's total, and
    store the pool's reward accumulator `accEnergyFiPerShare`. This is a
    fixed-point number with denominator 1e12.
  - Deposit, withdraw, emergency-withdraw and harvest events update the
    account's principal `amount` and its `rewardDebt`.
  - `MiniChefLedger` is the store. Its eight handlers are methods, and each
    one's new state is tied to pure functions of the pool and account records.

`sums.dfy` (module `Sums`) defines the sum of one field over a map of records.
Both ledgers use it.

The main results:

- **Bar.** Each transfer keeps this invariant: the sum of all account balances
  equals the bar's minted-minus-burned supply. Every history is dated at the
  start of its day. No account's transfer offset (`xEnergyFiIn − xEnergyFiOut −
  xEnergyFiOffset`) is positive. The bar's age equals the sum of the accounts'
  ages, each brought up from the account's own last update to the bar's last
  update.
- **Non-negative ages.** Consider an event whose timestamp is not before the
  bar's last update, and which burns or sends at most what the sender holds.
  Such an event keeps three things non-negative for every account: its
  balance, its stored age, and its age brought up to the bar's last update.
  Through the age law this keeps the bar's age non-negative after every such
  event.
- **Ageing.** Burns and transfers keep the average age per share. A transfer
  moves age from sender to receiver without creating or losing any. Sending
  shares away and receiving them back does not raise the staked amount. In the
  other order, the first inflow an account receives is credited to its staked
  amount once. Sending the shares back leaves that credit in place, and
  receiving and sending them again credits nothing more.
- **MiniChef pools.** `totalAllocPoint` stays equal to the sum of the pools'
  `allocPoint` under pool reconfiguration and every other handler. Pool
  addition keeps it only when the added pool id had no weight before; adding
  over a weighted id, the total keeps the replaced weight.
- **MiniChef accounts.**
  - A deposit followed by an equal withdrawal restores the account.
  - Harvesting leaves nothing pending and is idempotent.
  - Deposits and withdrawals change the pending reward by at most one unit of
    rounding.
  - The reward accrued between two accumulator values is the truncated
    difference, with one unit of slack.

BigDecimal quantities are exact rationals (`real`). BigInt quantities are
unbounded integers (`int`), and `BigInt.div` truncates toward zero.

## Model

| member | source | states |
|---|---|---|
| BarMapping.ToDecimal | subgraphs/bar/src/bar.ts:133 | a raw 18-decimal amount becomes a non-negative decimal that is zero exactly when the raw amount is zero (the zero check at line 136 therefore tests the raw value) |
| BarMapping.BarOf | subgraphs/bar/src/bar.ts:48-56 | `getBar` returns the stored bar, or a new one with every total zero and `updatedAt` at the block time |
| BarMapping.NewBar | subgraphs/bar/src/bar.ts:25-46 | a new bar has every total, both ages and the ratio at zero, and `updatedAt` at the block time |
| BarMapping.UserOf | subgraphs/bar/src/bar.ts:58-102 | loading an account returns the stored record; a missing one is created related to the bar, with every amount, counter, age and offset at zero and `updatedAt` at the block time |
| BarMapping.ToI32 | subgraphs/bar/src/bar.ts:105 | `toI32` lands in the signed 32-bit range, is the identity inside it, and differs from its input by a multiple of 2^32 |
| BarMapping.DayOf | subgraphs/bar/src/bar.ts:105 | for a non-negative timestamp below 2^31, the bucket `day` satisfies `day*86400 <= timestamp < (day+1)*86400`; otherwise the same holds for the 32-bit wrapped timestamp when it is non-negative, and `(day-1)*86400 < wrapped <= day*86400` (truncation toward zero) when it is negative |
| BarMapping.HistoryOf | subgraphs/bar/src/bar.ts:104-129 | the stored history of the timestamp's day is returned; a missing one is created dated at the start of its day (`day * 86400`) with every counter, age, supply and ratio at zero |
| BarMapping.MintUser | subgraphs/bar/src/bar.ts:169-192 | minting `value` shares worth `what` adds `value` to balance and minted, `what` to staked and `what*price` to staked USD, brings the age up to the block time on the old balance, enters the bar when the old balance was zero, and changes nothing else |
| BarMapping.BurnUser | subgraphs/bar/src/bar.ts:216-248 | burning moves the age share `age/balance*value` from age to destroyed age (their sum is the accrued age), zeroes the age on a full burn, adds `what` and `what*price` to the harvested totals, and the account leaves the bar exactly when its balance reaches zero |
| BarMapping.SendUser | subgraphs/bar/src/bar.ts:277-299 | the sender loses `value` shares and the age share of `value`, its out-counters grow by `value`, `what` and `what*price`, its transfer offset drops by `value`, and it leaves the bar exactly when its balance reaches zero |
| BarMapping.ReceiveUser | subgraphs/bar/src/bar.ts:301-342 | the receiver gains `value` shares and the moved age, its in-counters grow, it is in the bar, and a positive transfer offset is credited to staked amounts and cleared, so the offset ends non-positive |
| BarMapping.SyncBar | subgraphs/bar/src/bar.ts:149-155 | supply and staked are refreshed from the contracts and the ratio satisfies `ratio * totalSupply == energyFiStaked`, `ratio >= 0` |
| BarMapping.MintBar | subgraphs/bar/src/bar.ts:194-200 | the bar's outstanding shares grow by `value`, its age accrues the elapsed days times the outstanding shares before the mint, staked totals grow by `what` and `what*price`, and nothing else changes |
| BarMapping.BurnBar | subgraphs/bar/src/bar.ts:250-257 | outstanding shares drop by `value`, the destroyed age moves from the bar's age to its destroyed age after the same accrual, harvested totals grow, and nothing else changes |
| BarMapping.MintHistory | subgraphs/bar/src/bar.ts:202-209 | the day's history copies the bar's age, supply and ratio and adds the minted shares, staked energyFi and staked USD, keeping its date |
| BarMapping.BurnHistory | subgraphs/bar/src/bar.ts:259-266 | the day's history copies the bar's age, supply and ratio and adds the burned shares, destroyed age and harvested USD, keeping its date |
| BarMapping.MintStep | subgraphs/bar/src/bar.ts:158-210 | the mint branch grows the bar's outstanding shares and the receiving account's balance by `value`, stamps the bar with the block time, and rewrites no other account |
| BarMapping.BurnStep | subgraphs/bar/src/bar.ts:213-267 | the burn branch shrinks the bar's outstanding shares and the sending account's balance by `value`, stamps the bar with the block time, and rewrites no other account |
| BarMapping.MoveUsers | subgraphs/bar/src/bar.ts:270-343 | the transfer branch writes only the sender and the receiver; between distinct accounts `value` shares move from one to the other, and a self-transfer keeps the balance |
| BarMapping.Branches | subgraphs/bar/src/bar.ts:157-343 | the three sequential branches keep the synced supply and ratio; a mint or burn stamps the bar with the block time, and an account-to-account transfer leaves the bar and the histories untouched |
| BarMapping.ApplyTransfer | subgraphs/bar/src/bar.ts:131-346 | a zero-value event changes nothing; any other event leaves a bar whose supply is the token's `totalSupply` and whose ratio times supply is the bar's staked balance |
| BarMapping.MintUserAge | subgraphs/bar/src/bar.ts:181-185 | a mint leaves the account's age, brought up to the mint, unchanged: the new shares start with no age |
| BarMapping.BurnUserAge | subgraphs/bar/src/bar.ts:226-237 | a burn takes exactly the destroyed share off the account's accrued age |
| BarMapping.SendUserAge | subgraphs/bar/src/bar.ts:279-286 | seen from any later time, sending takes the moved age and the future accrual of the sent shares off the sender |
| BarMapping.ReceiveUserAge | subgraphs/bar/src/bar.ts:307-312 | seen from any later time, receiving adds the moved age and the future accrual of the received shares |
| BarMapping.TotalAgeShift | subgraphs/bar/src/bar.ts:181-197 | when the accounts hold the bar's outstanding shares, moving the reference time moves the accounts' total age by the elapsed days times those shares, which is what the bar accrues |
| BarMapping.MintStepAge | subgraphs/bar/src/bar.ts:181-197 | after a mint the bar's age still equals the accounts' total age at the mint's time |
| BarMapping.BurnStepAge | subgraphs/bar/src/bar.ts:226-254 | after a burn the bar's age still equals the accounts' total age: the age the bar destroys is the age the account loses |
| BarMapping.MoveUsersAge | subgraphs/bar/src/bar.ts:279-311 | an account-to-account transfer leaves the accounts' total age at any time unchanged, also when sender and receiver are the same account |
| BarMapping.MintStepConsistent | subgraphs/bar/src/bar.ts:158-210 | the mint branch keeps "sum of balances = outstanding supply", "bar age = accounts' total age", history dating and non-positive offsets |
| BarMapping.BurnStepConsistent | subgraphs/bar/src/bar.ts:213-267 | the burn branch keeps the same invariant |
| BarMapping.MoveUsersConsistent | subgraphs/bar/src/bar.ts:270-343 | an account-to-account transfer keeps the same invariant, also when sender and receiver are the same account |
| BarMapping.BranchesConsistent | subgraphs/bar/src/bar.ts:157-343 | the three branches run in sequence keep the invariant, including a transfer from zero to zero that both mints and burns |
| BarMapping.TransferKeepsConsistent | subgraphs/bar/src/bar.ts:131-346 | a whole `transfer` event, zero-value or not, keeps the ledger invariant |
| BarMapping.AgeShareKeepsAverage | subgraphs/bar/src/bar.ts:232-237 | after a partial burn or send, the remaining age per remaining share equals the accrued age per share before it |
| BarMapping.SenderStaysNonNegative | subgraphs/bar/src/bar.ts:226-237 | when at most the held balance leaves an account with non-negative age and no time runs backwards, the age removed is between zero and the accrued age |
| BarMapping.ShareWithinAccrued | subgraphs/bar/src/bar.ts:232 | the age share leaving with at most the held balance lies between zero and the accrued age |
| BarMapping.SentAccruedAt | subgraphs/bar/src/bar.ts:279-286 | seen from any time, the sender keeps exactly its accrued age minus the share of the sent shares |
| BarMapping.ReceivedAccruedAt | subgraphs/bar/src/bar.ts:307-311 | seen from any time, the receiver gains exactly the age share the sender lost |
| BarMapping.MintKeepsAgesOk | subgraphs/bar/src/bar.ts:181-190 | a mint keeps the account's balance and ages non-negative |
| BarMapping.BurnKeepsAgesOk | subgraphs/bar/src/bar.ts:226-246 | a burn of at most the held balance keeps the account's balance and ages non-negative |
| BarMapping.SendKeepsAgesOk | subgraphs/bar/src/bar.ts:279-297 | sending at most the held balance, no earlier than the bar's last update, keeps the sender's balance and ages non-negative |
| BarMapping.ReceiveKeepsAgesOk | subgraphs/bar/src/bar.ts:307-312 | receiving the age share of such a sender keeps the receiver's balance and ages non-negative |
| BarMapping.MintStepAgesOk | subgraphs/bar/src/bar.ts:158-210 | the mint branch keeps every account's balance and ages non-negative at the new bar time |
| BarMapping.BurnStepAgesOk | subgraphs/bar/src/bar.ts:213-267 | the burn branch of at most the held balance keeps every account's balance and ages non-negative |
| BarMapping.MoveUsersAgesOk | subgraphs/bar/src/bar.ts:270-343 | an account-to-account transfer of at most the held balance keeps every account's balance and ages non-negative, seen from the bar's last update |
| BarMapping.BranchesAgesOk | subgraphs/bar/src/bar.ts:157-343 | the three branches in sequence, including the zero-to-zero mint and burn, keep every account's balance and ages non-negative |
| BarMapping.TransferKeepsAgesOk | subgraphs/bar/src/bar.ts:131-346 | a whole event in timestamp order that moves at most the sender's balance keeps every account's balance and ages non-negative |
| BarMapping.BarAgeNonNegative | subgraphs/bar/src/bar.ts:197-253 | in a consistent ledger where every account's balance, stored age and age brought up to the bar's last update are non-negative (`AgesOk`), the bar's age is non-negative |
| BarMapping.TransferKeepsLedgerAgeNonNegative | subgraphs/bar/src/bar.ts:131-346 | after such an event the ledger is consistent, the bar's age and every stored account age and balance are non-negative, and both invariants hold for the next event |
| BarMapping.MintThenBurnAtOnce | subgraphs/bar/src/bar.ts:181-188 | a mint then a burn of the same shares at the same timestamp restores the balance, keeps age + destroyed age, and leaves the age at `accrued * x/(x+v)` |
| BarMapping.RoundTripDoesNotInflateStaked | subgraphs/bar/src/bar.ts:289-340 | sending shares away and receiving the same number back leaves staked energyFi, staked USD, the offset and the balance unchanged |
| BarMapping.ReceiveThenSendCreditsOnce | subgraphs/bar/src/bar.ts:289-340 | for an account with no uncredited inflow, receiving shares then sending them back credits their energyFi and USD value to the staked amounts exactly once and leaves the offset `value` ahead of the inflow |
| BarMapping.RepeatedRoundTripCreditsNothing | subgraphs/bar/src/bar.ts:289-340 | once the offset is at least `value` ahead of the inflow, receiving and sending `value` again leaves staked amounts, offset and balance unchanged |
| BarMapping.TransferMovesAge | subgraphs/bar/src/bar.ts:282-317 | between two accounts, the age and shares leaving the sender are exactly those reaching the receiver, and the energyFi and USD values out equal those in |
| BarMapping.BarLedger.Transfer | subgraphs/bar/src/bar.ts:131-346 | the handler's new store equals `ApplyTransfer` of the old store, a zero value changes nothing, and the ledger invariant is preserved |
| BarMapping.BarLedger.Mint | subgraphs/bar/src/bar.ts:158-210 | the mint branch over the stored records equals `MintStep` and leaves the stored bar alone until the final save |
| BarMapping.BarLedger.Burn | subgraphs/bar/src/bar.ts:213-267 | the burn branch equals `BurnStep` |
| BarMapping.BarLedger.Move | subgraphs/bar/src/bar.ts:270-343 | the transfer branch saves the sender before loading the receiver and equals `MoveUsers` |
| MiniChefMapping.DivTruncates | subgraphs/minichef/src/mappings/minichef.ts:96 | `BigInt.div` by a positive divisor gives a quotient with the dividend's sign whose magnitude is the number of whole divisors in the dividend's magnitude (truncation toward zero) |
| MiniChefMapping.PoolOf | subgraphs/minichef/src/mappings/minichef.ts:145 | `getPool` returns the stored pool, or a zero pool with no rewarder, pair, weight, accumulator or liquidity |
| MiniChefMapping.UserOf | subgraphs/minichef/src/mappings/minichef.ts:146 | `getUser` returns the stored position, or one with zero principal, debt and harvested total |
| MiniChefMapping.Accumulated | subgraphs/minichef/src/mappings/minichef.ts:148 | the reward `amount * acc / 1e12` accumulated by a principal is non-negative for non-negative operands and zero with no principal or a zero accumulator |
| MiniChefMapping.Pending | subgraphs/minichef/src/mappings/minichef.ts:148-150 | the reward still to harvest is zero when the debt equals the accumulated reward, and with no principal it is minus the debt |
| MiniChefMapping.AccumulatedBounds | subgraphs/minichef/src/mappings/minichef.ts:148 | `amount * acc / 1e12` is the largest `r` with `r * 1e12 <= amount * acc` for non-negative operands |
| MiniChefMapping.DepositUser | subgraphs/minichef/src/mappings/minichef.ts:95-96 | a deposit adds the amount to the principal and its accumulated reward to the debt, keeping the harvested total |
| MiniChefMapping.WithdrawUser | subgraphs/minichef/src/mappings/minichef.ts:114-115 | a withdrawal subtracts the amount and its accumulated reward, keeping the harvested total |
| MiniChefMapping.EmergencyWithdrawUser | subgraphs/minichef/src/mappings/minichef.ts:133-134 | an emergency withdrawal zeroes principal and debt whatever the event amount, keeping the harvested total |
| MiniChefMapping.HarvestUser | subgraphs/minichef/src/mappings/minichef.ts:148-151 | a harvest keeps the principal, leaves nothing pending at the pool's accumulator and adds the reported amount to the harvested total |
| MiniChefMapping.DepositThenWithdraw | subgraphs/minichef/src/mappings/minichef.ts:95-115 | depositing then withdrawing the same amount at the same accumulator restores the account exactly |
| MiniChefMapping.HarvestIsIdempotent | subgraphs/minichef/src/mappings/minichef.ts:148-150 | a second harvest at the same accumulator leaves the debt where the first put it |
| MiniChefMapping.EmergencyWithdrawForfeits | subgraphs/minichef/src/mappings/minichef.ts:133-134 | after an emergency withdrawal nothing is pending at any accumulator |
| MiniChefMapping.DepositKeepsPending | subgraphs/minichef/src/mappings/minichef.ts:95-96 | a deposit changes the pending reward by 0 or +1 (rounding in the account's favour) |
| MiniChefMapping.WithdrawKeepsPending | subgraphs/minichef/src/mappings/minichef.ts:114-115 | a withdrawal of at most the principal changes the pending reward by 0 or −1 |
| MiniChefMapping.PendingAfterAdvance | subgraphs/minichef/src/mappings/minichef.ts:96 | a fresh deposit `d` at accumulator `a0` has `d*a1/P − d*a0/P` pending at `a1`, which is `d*(a1−a0)/P` or one more |
| MiniChefMapping.HarvestScenario | subgraphs/minichef/src/mappings/minichef.ts:148-150 | depositing 50 at accumulator 0 and harvesting at 1e6 leaves a debt of 0 (truncation of 50e6/1e12) |
| MiniChefMapping.AddPoolKeepsAllocBalanced | subgraphs/minichef/src/mappings/minichef.ts:30-34 | adding a pool whose id had no weight keeps `totalAllocPoint` equal to the sum of pool weights |
| MiniChefMapping.SetPoolKeepsAllocBalanced | subgraphs/minichef/src/mappings/minichef.ts:54-56 | moving the total by new − old weight and then storing the new weight keeps the total balanced |
| MiniChefMapping.KeepWeightKeepsAllocBalanced | subgraphs/minichef/src/mappings/minichef.ts:67-70 | rewriting a pool without touching its weight keeps the total balanced |
| MiniChefMapping.MiniChefLedger.LogPoolAddition | subgraphs/minichef/src/mappings/minichef.ts:16-36 | sets the pool's rewarder, pair and weight, adds the weight to the total and one to the pool count, and keeps the total balanced when the pool id was unweighted |
| MiniChefMapping.MiniChefLedger.LogSetPool | subgraphs/minichef/src/mappings/minichef.ts:38-58 | overwrites the rewarder only when asked, moves the total by new − old weight, stores the new weight and keeps the total balanced |
| MiniChefMapping.MiniChefLedger.LogUpdatePool | subgraphs/minichef/src/mappings/minichef.ts:60-71 | writes only the pool's accumulator and reward time |
| MiniChefMapping.MiniChefLedger.LogEnergyFiPerSecond | subgraphs/minichef/src/mappings/minichef.ts:73-80 | writes only the emission rate |
| MiniChefMapping.MiniChefLedger.Deposit | subgraphs/minichef/src/mappings/minichef.ts:82-98 | grows the pool's liquidity and applies `DepositUser` to the `to` account |
| MiniChefMapping.MiniChefLedger.Withdraw | subgraphs/minichef/src/mappings/minichef.ts:100-117 | shrinks the pool's liquidity and applies `WithdrawUser` to the `user` account |
| MiniChefMapping.MiniChefLedger.EmergencyWithdraw | subgraphs/minichef/src/mappings/minichef.ts:119-136 | shrinks the pool's liquidity by the event amount and applies `EmergencyWithdrawUser` to the `user` account |
| MiniChefMapping.MiniChefLedger.Harvest | subgraphs/minichef/src/mappings/minichef.ts:138-153 | applies `HarvestUser` at the pool's accumulator to the `user` account and writes no pool |

## Left out

- Reads from other contracts are parameters of `Transfer`: the price oracle (`getEnergyFiPrice`, bar.ts:19-23), the share token's `totalSupply` and the bar's energyFi `balanceOf`. The oracle's own arithmetic is not modelled.
- The bar's token metadata (`decimals`, `name`, `symbol`, `energyFi`, bar.ts:28-31), the history `timeframe` label, entity ids as strings, and all logging are left out. They carry no arithmetic.
- The entity store's `load`/`save` is modelled as maps held by a class. A record is stored only where the handler saves it. `harvest` loads its pool (minichef.ts:145) only to read the accumulator and never saves it, so `Harvest` stores no pool. Whether `getPool` itself stores a pool it creates is decided in its own source file, which is not part of this model.
- A user's `bar` relation is a boolean `inBar`, since it only ever holds the one bar's id or null.
- BarMapping.BarLedger.Transfer: requires a non-zero share supply and a non-zero sender balance when the event is non-zero. BigDecimal division by zero at bar.ts:153, 232 and 284 aborts the handler there, and the model does not describe an aborted handler.
- BarMapping.DayOf: the bucket is stated against the true timestamp only below 2^31. Past 2038 `toI32` wraps, and the contract then speaks of the wrapped value, not of the calendar day.
- BarMapping.TransferKeepsAgesOk: non-negative ages are proved only for events that satisfy two conditions. Each event's timestamp is not before the bar's last update. No burn or transfer moves more than the sender's recorded balance. The handler checks neither condition. It relies on block times never decreasing and on the token refusing overdrafts.
- Exact decimals: BigDecimal quantities are exact rationals here. The runtime's decimals round the quotients `age / balance * value` (bar.ts:232, 284) and the ratio (bar.ts:153). So the exact equalities hold for rationals, not for the runtime's rounded values. This covers `AgeShareKeepsAverage`, `SentAccruedAt`, `ReceivedAccruedAt` and the age law in `Consistent`.
- The rewarder entity (`getRewarder`) is identified with its address. Its own fields belong to the rewarder handlers, which are not part of this model. `getMiniChef`, `getPool` and `getUser` are taken to create zero-initialised records; their source files are not part of this model.
- MiniChefMapping.MiniChefLedger.Withdraw: neither this handler nor `EmergencyWithdraw` nor `Deposit` requires the amount to be within the balance, because the source does not check it. The pending-reward lemmas state that bound as a hypothesis.
- Block metadata (`event.block`), which the MiniChef getters receive but which does not affect the modelled fields, is left out.

A same-timestamp mint followed by a burn does not leave an account's age unchanged. The code keeps `accrued * x/(x+v)`, because the burned shares take their proportional part of the age; see `MintThenBurnAtOnce`.

The reward earned between two accumulator values is not always exactly `D*(A1−A0)/P`. The code truncates `D*A1/P` and `D*A0/P` separately, so the two can differ by one; see `PendingAfterAdvance`.

The burn branch of bar.ts (lines 259-266) never adds to the day's `energyFiHarvested`, only to `energyFiHarvestedUSD`. The model reproduces this.
