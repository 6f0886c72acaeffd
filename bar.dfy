/** The age-weighted staking ledger (the "bar").

    Every Transfer event of the bar's share token (xEnergyFi) is applied to a
    singleton `Bar` record, to one `User` record per account and to one
    `History` record per day.  A transfer from the zero address is a mint
    (energyFi staked into the bar), a transfer to the zero address is a burn
    (energyFi harvested out of it), anything else moves shares between two
    accounts.  Each account also carries an "age": the integral over time of
    the shares it held, in share-days.

    BigDecimal quantities are exact rationals (`real`); token amounts arrive as
    18-decimal fixed-point integers and are divided by 1e18 exactly.  The
    energyFi price, the share token's total supply and the bar's energyFi
    balance are read from other contracts by the source; here they are
    parameters of the handler. */
module BarMapping {
  import Sums

  datatype Option<T> = None | Some(value: T)

  /** A 20-byte account address, read as a number; zero is the mint/burn sentinel. */
  type Address = nat
  const AddressZero: Address := 0

  /** Length of one history bucket, and of one unit of age, in seconds. */
  const SecondsPerDay: int := 86400

  /** Scale of the 18-decimal fixed-point token amounts. */
  const Scale: real := 1000000000000000000.0

  /** `divDecimal(1e18)`: a raw token amount as a decimal number of tokens. */
  function ToDecimal(raw: nat): (d: real)
    ensures d >= 0.0
    ensures d == 0.0 <==> raw == 0
  {
    raw as real / Scale
  }

  /** The energyFi that `shares` xEnergyFi stand for at `ratio` energyFi per share. */
  function Worth(shares: real, ratio: real): real
  {
    shares * ratio
  }

  /** Elapsed time between two timestamps, in (fractional) days. */
  function Days(from: int, to: int): real
  {
    (to - from) as real / SecondsPerDay as real
  }

  // ---------------------------------------------------------------------------
  // Entities

  /** The bar singleton (token metadata left out). */
  datatype Bar = Bar(
    totalSupply: real,
    energyFiStaked: real,
    energyFiStakedUSD: real,
    energyFiHarvested: real,
    energyFiHarvestedUSD: real,
    xEnergyFiMinted: real,
    xEnergyFiBurned: real,
    xEnergyFiAge: real,
    xEnergyFiAgeDestroyed: real,
    ratio: real,
    updatedAt: int)

  /** One account's position; `inBar` stands for the nullable `bar` relation. */
  datatype User = User(
    inBar: bool,
    xEnergyFi: real,
    xEnergyFiMinted: real,
    xEnergyFiBurned: real,
    energyFiStaked: real,
    energyFiStakedUSD: real,
    energyFiHarvested: real,
    energyFiHarvestedUSD: real,
    xEnergyFiOut: real,
    energyFiOut: real,
    usdOut: real,
    xEnergyFiIn: real,
    energyFiIn: real,
    usdIn: real,
    xEnergyFiAge: real,
    xEnergyFiAgeDestroyed: real,
    xEnergyFiOffset: real,
    energyFiOffset: real,
    usdOffset: real,
    updatedAt: int)

  /** One day's snapshot (its constant `timeframe` tag left out). */
  datatype History = History(
    date: int,
    energyFiStaked: real,
    energyFiStakedUSD: real,
    energyFiHarvested: real,
    energyFiHarvestedUSD: real,
    xEnergyFiAge: real,
    xEnergyFiAgeDestroyed: real,
    xEnergyFiMinted: real,
    xEnergyFiBurned: real,
    xEnergyFiSupply: real,
    ratio: real)

  /** A Transfer event of the share token: `value` is the raw 18-decimal amount. */
  datatype TransferEvent = TransferEvent(from: Address, to: Address, value: nat, timestamp: int)

  /** The stored records: the bar exists once the first non-zero event was seen. */
  datatype Ledger = Ledger(bar: Option<Bar>, users: map<Address, User>, histories: map<int, History>)

  /** The records a handler holds while it runs: the bar is loaded once and saved at the end. */
  datatype Books = Books(bar: Bar, users: map<Address, User>, histories: map<int, History>)

  // ---------------------------------------------------------------------------
  // Load-or-create

  /** Every running total of the bar is zero. */
  predicate BarTotalsZero(b: Bar)
  {
    && b.totalSupply == 0.0 && b.energyFiStaked == 0.0 && b.energyFiStakedUSD == 0.0
    && b.energyFiHarvested == 0.0 && b.energyFiHarvestedUSD == 0.0
    && b.xEnergyFiMinted == 0.0 && b.xEnergyFiBurned == 0.0
    && b.xEnergyFiAge == 0.0 && b.xEnergyFiAgeDestroyed == 0.0 && b.ratio == 0.0
  }

  /** Every running total of an account is zero. */
  predicate UserTotalsZero(u: User)
  {
    && u.xEnergyFi == 0.0 && u.xEnergyFiMinted == 0.0 && u.xEnergyFiBurned == 0.0
    && u.energyFiStaked == 0.0 && u.energyFiStakedUSD == 0.0
    && u.energyFiHarvested == 0.0 && u.energyFiHarvestedUSD == 0.0
    && u.xEnergyFiOut == 0.0 && u.energyFiOut == 0.0 && u.usdOut == 0.0
    && u.xEnergyFiIn == 0.0 && u.energyFiIn == 0.0 && u.usdIn == 0.0
    && u.xEnergyFiAge == 0.0 && u.xEnergyFiAgeDestroyed == 0.0
    && u.xEnergyFiOffset == 0.0 && u.energyFiOffset == 0.0 && u.usdOffset == 0.0
  }

  /** Every running total of a day's snapshot is zero. */
  predicate HistoryTotalsZero(h: History)
  {
    && h.energyFiStaked == 0.0 && h.energyFiStakedUSD == 0.0
    && h.energyFiHarvested == 0.0 && h.energyFiHarvestedUSD == 0.0
    && h.xEnergyFiAge == 0.0 && h.xEnergyFiAgeDestroyed == 0.0
    && h.xEnergyFiMinted == 0.0 && h.xEnergyFiBurned == 0.0
    && h.xEnergyFiSupply == 0.0 && h.ratio == 0.0
  }

  /** `createBar`: every total zero, stamped with the creating block's time. */
  function NewBar(timestamp: int): (b: Bar)
    ensures BarTotalsZero(b) && b.updatedAt == timestamp
  {
    Bar(0.0, 0.0, 0.0, 0.0, 0.0, 0.0, 0.0, 0.0, 0.0, 0.0, timestamp)
  }

  /** `getBar`. */
  function BarOf(bar: Option<Bar>, timestamp: int): (b: Bar)
    ensures bar.Some? ==> b == bar.value
    ensures bar.None? ==> BarTotalsZero(b) && b.updatedAt == timestamp
  {
    if bar.Some? then bar.value else NewBar(timestamp)
  }

  /** `getUser`: the stored account, or `createUser`'s all-zero account already related to the bar. */
  function UserOf(users: map<Address, User>, a: Address, timestamp: int): (u: User)
    ensures a in users ==> u == users[a]
    ensures a !in users ==> u.inBar && UserTotalsZero(u) && u.updatedAt == timestamp
  {
    if a in users then users[a]
    else User(true, 0.0, 0.0, 0.0, 0.0, 0.0, 0.0, 0.0, 0.0, 0.0, 0.0, 0.0, 0.0, 0.0,
              0.0, 0.0, 0.0, 0.0, 0.0, timestamp)
  }

  /** `BigInt.toI32`: the low 32 bits read as a two's-complement signed integer. */
  function ToI32(x: int): (r: int)
    ensures -0x8000_0000 <= r < 0x8000_0000
    ensures -0x8000_0000 <= x < 0x8000_0000 ==> r == x
    ensures (x - r) % 0x1_0000_0000 == 0
  {
    var low := x % 0x1_0000_0000;
    if low < 0x8000_0000 then low else low - 0x1_0000_0000
  }

  /** The history bucket of a timestamp: 32-bit division truncating toward zero. */
  function DayOf(timestamp: int): (day: int)
    ensures 0 <= timestamp < 0x8000_0000 ==>
              day * SecondsPerDay <= timestamp < day * SecondsPerDay + SecondsPerDay
    // past 2^31 the wrapped value is bucketed, truncating toward zero when it is negative
    ensures 0 <= ToI32(timestamp) ==>
              day * SecondsPerDay <= ToI32(timestamp) < day * SecondsPerDay + SecondsPerDay
    ensures ToI32(timestamp) < 0 ==>
              day * SecondsPerDay - SecondsPerDay < ToI32(timestamp) <= day * SecondsPerDay
  {
    var t := ToI32(timestamp);
    if t >= 0 then t / SecondsPerDay else -((-t) / SecondsPerDay)
  }

  /** `getHistory`: the day's stored snapshot, or an all-zero one dated at the start of the day. */
  function HistoryOf(histories: map<int, History>, timestamp: int): (h: History)
    ensures DayOf(timestamp) in histories ==> h == histories[DayOf(timestamp)]
    ensures DayOf(timestamp) !in histories ==> h.date == DayOf(timestamp) * SecondsPerDay && HistoryTotalsZero(h)
  {
    var day := DayOf(timestamp);
    if day in histories then histories[day]
    else History(day * SecondsPerDay, 0.0, 0.0, 0.0, 0.0, 0.0, 0.0, 0.0, 0.0, 0.0, 0.0)
  }

  // ---------------------------------------------------------------------------
  // Account arithmetic

  /** The account's age brought up to `timestamp` on the balance it holds. */
  function Accrued(u: User, timestamp: int): real
  {
    u.xEnergyFiAge + Days(u.updatedAt, timestamp) * u.xEnergyFi
  }

  /** The part of the accrued age that leaves with `value` shares: the burned or sent fraction. */
  function AgeShare(u: User, value: real, timestamp: int): real
    requires u.xEnergyFi != 0.0
  {
    Accrued(u, timestamp) / u.xEnergyFi * value
  }

  /** Net shares received and not yet credited as staked: in − out − offset. */
  function OffsetGap(u: User): real
  {
    u.xEnergyFiIn - u.xEnergyFiOut - u.xEnergyFiOffset
  }

  /** The same gap measured in energyFi. */
  function EnergyFiGap(u: User): real
  {
    u.energyFiIn - u.energyFiOut - u.energyFiOffset
  }

  /** The same gap measured in USD. */
  function UsdGap(u: User): real
  {
    u.usdIn - u.usdOut - u.usdOffset
  }

  /** Mint, account side: `value` shares minted for `what` energyFi at `price`. */
  function MintUser(u: User, value: real, what: real, price: real, timestamp: int): (r: User)
    ensures r.xEnergyFi - u.xEnergyFi == value && r.xEnergyFiMinted - u.xEnergyFiMinted == value
    ensures r.energyFiStaked - u.energyFiStaked == what
    ensures r.energyFiStakedUSD - u.energyFiStakedUSD == what * price
    ensures r.xEnergyFiAge == Accrued(u, timestamp) && r.updatedAt == timestamp
    ensures r.inBar <==> u.inBar || u.xEnergyFi == 0.0
    ensures r == u.(inBar := r.inBar, xEnergyFi := r.xEnergyFi, xEnergyFiMinted := r.xEnergyFiMinted,
                    energyFiStaked := r.energyFiStaked, energyFiStakedUSD := r.energyFiStakedUSD,
                    xEnergyFiAge := r.xEnergyFiAge, updatedAt := r.updatedAt)
  {
    u.(inBar := u.inBar || u.xEnergyFi == 0.0,
       xEnergyFiMinted := u.xEnergyFiMinted + value,
       energyFiStaked := u.energyFiStaked + what,
       energyFiStakedUSD := u.energyFiStakedUSD + what * price,
       xEnergyFiAge := u.xEnergyFiAge + Days(u.updatedAt, timestamp) * u.xEnergyFi,
       xEnergyFi := u.xEnergyFi + value,
       updatedAt := timestamp)
  }

  /** Burn, account side: `value` shares burned for `what` energyFi at `price`. */
  function BurnUser(u: User, value: real, what: real, price: real, timestamp: int): (r: User)
    requires u.xEnergyFi != 0.0
    ensures r.xEnergyFi == u.xEnergyFi - value && r.xEnergyFiBurned == u.xEnergyFiBurned + value
    ensures r.energyFiHarvested == u.energyFiHarvested + what
    ensures r.energyFiHarvestedUSD == u.energyFiHarvestedUSD + what * price
    ensures r.xEnergyFiAgeDestroyed == u.xEnergyFiAgeDestroyed + AgeShare(u, value, timestamp)
    ensures r.xEnergyFiAge + r.xEnergyFiAgeDestroyed == Accrued(u, timestamp) + u.xEnergyFiAgeDestroyed
    ensures value == u.xEnergyFi ==> r.xEnergyFiAge == 0.0
    ensures r.inBar <==> u.inBar && r.xEnergyFi != 0.0
    ensures r.updatedAt == timestamp
    ensures r == u.(inBar := r.inBar, xEnergyFi := r.xEnergyFi, xEnergyFiBurned := r.xEnergyFiBurned,
                    energyFiHarvested := r.energyFiHarvested, energyFiHarvestedUSD := r.energyFiHarvestedUSD,
                    xEnergyFiAge := r.xEnergyFiAge, xEnergyFiAgeDestroyed := r.xEnergyFiAgeDestroyed,
                    updatedAt := r.updatedAt)
  {
    var accrued := Accrued(u, timestamp);
    var destroyed := AgeShare(u, value, timestamp);
    var balance := u.xEnergyFi - value;
    u.(xEnergyFiBurned := u.xEnergyFiBurned + value,
       energyFiHarvested := u.energyFiHarvested + what,
       energyFiHarvestedUSD := u.energyFiHarvestedUSD + what * price,
       xEnergyFiAgeDestroyed := u.xEnergyFiAgeDestroyed + destroyed,
       xEnergyFiAge := accrued - destroyed,
       xEnergyFi := balance,
       inBar := u.inBar && balance != 0.0,
       updatedAt := timestamp)
  }

  /** Transfer, sender side: `value` shares and their share of the age leave the account. */
  function SendUser(u: User, value: real, what: real, price: real, timestamp: int): (r: User)
    requires u.xEnergyFi != 0.0
    ensures r.xEnergyFi == u.xEnergyFi - value
    ensures r.xEnergyFiAge + AgeShare(u, value, timestamp) == Accrued(u, timestamp)
    ensures value == u.xEnergyFi ==> r.xEnergyFiAge == 0.0
    ensures r.xEnergyFiOut == u.xEnergyFiOut + value && r.energyFiOut == u.energyFiOut + what
    ensures r.usdOut == u.usdOut + what * price
    ensures OffsetGap(r) == OffsetGap(u) - value
    ensures r.inBar <==> u.inBar && r.xEnergyFi != 0.0
    ensures r.updatedAt == timestamp
    ensures r == u.(inBar := r.inBar, xEnergyFi := r.xEnergyFi, xEnergyFiAge := r.xEnergyFiAge,
                    xEnergyFiOut := r.xEnergyFiOut, energyFiOut := r.energyFiOut, usdOut := r.usdOut,
                    updatedAt := r.updatedAt)
  {
    var balance := u.xEnergyFi - value;
    u.(xEnergyFiAge := Accrued(u, timestamp) - AgeShare(u, value, timestamp),
       updatedAt := timestamp,
       xEnergyFi := balance,
       xEnergyFiOut := u.xEnergyFiOut + value,
       energyFiOut := u.energyFiOut + what,
       usdOut := u.usdOut + what * price,
       inBar := u.inBar && balance != 0.0)
  }

  /** Transfer, receiver side: `value` shares arrive with `movedAge` of age.  Staked
      energyFi and USD are credited only for net new inflow, which the offsets then absorb. */
  function ReceiveUser(u: User, value: real, what: real, price: real, movedAge: real, timestamp: int): (r: User)
    ensures r.xEnergyFi == u.xEnergyFi + value
    ensures r.xEnergyFiAge == Accrued(u, timestamp) + movedAge
    ensures r.xEnergyFiIn == u.xEnergyFiIn + value && r.energyFiIn == u.energyFiIn + what
    ensures r.usdIn == u.usdIn + what * price
    ensures r.inBar && r.updatedAt == timestamp
    ensures OffsetGap(r) <= 0.0
    ensures if OffsetGap(u) + value > 0.0 then
              && r.energyFiStaked == u.energyFiStaked + EnergyFiGap(u) + what
              && r.energyFiStakedUSD == u.energyFiStakedUSD + UsdGap(u) + what * price
              && OffsetGap(r) == 0.0 && EnergyFiGap(r) == 0.0 && UsdGap(r) == 0.0
            else
              && r.energyFiStaked == u.energyFiStaked && r.energyFiStakedUSD == u.energyFiStakedUSD
              && r.xEnergyFiOffset == u.xEnergyFiOffset && r.energyFiOffset == u.energyFiOffset
              && r.usdOffset == u.usdOffset
    ensures r == u.(inBar := r.inBar, xEnergyFi := r.xEnergyFi, xEnergyFiAge := r.xEnergyFiAge,
                    xEnergyFiIn := r.xEnergyFiIn, energyFiIn := r.energyFiIn, usdIn := r.usdIn,
                    energyFiStaked := r.energyFiStaked, energyFiStakedUSD := r.energyFiStakedUSD,
                    xEnergyFiOffset := r.xEnergyFiOffset, energyFiOffset := r.energyFiOffset,
                    usdOffset := r.usdOffset, updatedAt := r.updatedAt)
  {
    var v := u.(inBar := true,
                xEnergyFiAge := Accrued(u, timestamp) + movedAge,
                updatedAt := timestamp,
                xEnergyFi := u.xEnergyFi + value,
                xEnergyFiIn := u.xEnergyFiIn + value,
                energyFiIn := u.energyFiIn + what,
                usdIn := u.usdIn + what * price);
    var difference := OffsetGap(v);
    if difference > 0.0 then
      var energyFi := EnergyFiGap(v);
      var usd := UsdGap(v);
      v.(energyFiStaked := v.energyFiStaked + energyFi,
         energyFiStakedUSD := v.energyFiStakedUSD + usd,
         xEnergyFiOffset := v.xEnergyFiOffset + difference,
         energyFiOffset := v.energyFiOffset + energyFi,
         usdOffset := v.usdOffset + usd)
    else v
  }

  // ---------------------------------------------------------------------------
  // Bar and history arithmetic

  /** Lines 149-153: refresh supply and staked balance from the contracts, then the ratio. */
  function SyncBar(b: Bar, supplyRaw: nat, stakedRaw: nat): (r: Bar)
    requires supplyRaw != 0
    ensures r.totalSupply == ToDecimal(supplyRaw) && r.energyFiStaked == ToDecimal(stakedRaw)
    ensures r.ratio * r.totalSupply == r.energyFiStaked && r.ratio >= 0.0
    ensures r == b.(totalSupply := r.totalSupply, energyFiStaked := r.energyFiStaked, ratio := r.ratio)
  {
    var supply := ToDecimal(supplyRaw);
    var staked := ToDecimal(stakedRaw);
    b.(totalSupply := supply, energyFiStaked := staked, ratio := staked / supply)
  }

  /** Shares outstanding according to the bar: minted − burned. */
  function Outstanding(b: Bar): real
  {
    b.xEnergyFiMinted - b.xEnergyFiBurned
  }

  /** The age the bar's outstanding shares accrue from its last update to `t`. */
  function BarAccrual(b: Bar, t: int): real
  {
    Days(b.updatedAt, t) * Outstanding(b)
  }

  /** Mint, bar side: the bar's age accrues on the shares outstanding before the mint. */
  function MintBar(b: Bar, value: real, what: real, price: real, timestamp: int): (r: Bar)
    ensures r.xEnergyFiMinted == b.xEnergyFiMinted + value && r.xEnergyFiBurned == b.xEnergyFiBurned
    ensures Outstanding(r) == Outstanding(b) + value
    ensures r.xEnergyFiAge == b.xEnergyFiAge + BarAccrual(b, timestamp)
    ensures r.energyFiStaked == b.energyFiStaked + what
    ensures r.energyFiStakedUSD == b.energyFiStakedUSD + what * price
    ensures r.updatedAt == timestamp
    ensures r == b.(xEnergyFiMinted := r.xEnergyFiMinted, xEnergyFiAge := r.xEnergyFiAge,
                    energyFiStaked := r.energyFiStaked, energyFiStakedUSD := r.energyFiStakedUSD,
                    updatedAt := r.updatedAt)
  {
    var held := b.xEnergyFiMinted - b.xEnergyFiBurned;
    b.(xEnergyFiMinted := b.xEnergyFiMinted + value,
       xEnergyFiAge := b.xEnergyFiAge + Days(b.updatedAt, timestamp) * held,
       energyFiStaked := b.energyFiStaked + what,
       energyFiStakedUSD := b.energyFiStakedUSD + what * price,
       updatedAt := timestamp)
  }

  /** Burn, bar side: accrue on the shares outstanding before the burn, then move
      `destroyed` from the live age to the destroyed age. */
  function BurnBar(b: Bar, value: real, what: real, price: real, destroyed: real, timestamp: int): (r: Bar)
    ensures r.xEnergyFiBurned == b.xEnergyFiBurned + value && r.xEnergyFiMinted == b.xEnergyFiMinted
    ensures Outstanding(r) == Outstanding(b) - value
    ensures r.xEnergyFiAgeDestroyed == b.xEnergyFiAgeDestroyed + destroyed
    ensures r.xEnergyFiAge + r.xEnergyFiAgeDestroyed
            == b.xEnergyFiAge + b.xEnergyFiAgeDestroyed + BarAccrual(b, timestamp)
    ensures r.energyFiHarvested == b.energyFiHarvested + what
    ensures r.energyFiHarvestedUSD == b.energyFiHarvestedUSD + what * price
    ensures r.updatedAt == timestamp
    ensures r == b.(xEnergyFiBurned := r.xEnergyFiBurned, xEnergyFiAge := r.xEnergyFiAge,
                    xEnergyFiAgeDestroyed := r.xEnergyFiAgeDestroyed, energyFiHarvested := r.energyFiHarvested,
                    energyFiHarvestedUSD := r.energyFiHarvestedUSD, updatedAt := r.updatedAt)
  {
    var held := b.xEnergyFiMinted - b.xEnergyFiBurned;
    b.(xEnergyFiBurned := b.xEnergyFiBurned + value,
       xEnergyFiAge := b.xEnergyFiAge + Days(b.updatedAt, timestamp) * held - destroyed,
       xEnergyFiAgeDestroyed := b.xEnergyFiAgeDestroyed + destroyed,
       energyFiHarvested := b.energyFiHarvested + what,
       energyFiHarvestedUSD := b.energyFiHarvestedUSD + what * price,
       updatedAt := timestamp)
  }

  /** Mint, day side: the day's counters grow; age, supply and ratio copy the updated bar. */
  function MintHistory(h: History, b: Bar, value: real, what: real, stakedUSD: real): (r: History)
    ensures r.date == h.date
    ensures r.xEnergyFiAge == b.xEnergyFiAge && r.xEnergyFiSupply == b.totalSupply && r.ratio == b.ratio
    ensures r.xEnergyFiMinted == h.xEnergyFiMinted + value && r.energyFiStaked == h.energyFiStaked + what
    ensures r.energyFiStakedUSD == h.energyFiStakedUSD + stakedUSD
    ensures r == h.(xEnergyFiAge := r.xEnergyFiAge, xEnergyFiMinted := r.xEnergyFiMinted,
                    xEnergyFiSupply := r.xEnergyFiSupply, energyFiStaked := r.energyFiStaked,
                    energyFiStakedUSD := r.energyFiStakedUSD, ratio := r.ratio)
  {
    h.(xEnergyFiAge := b.xEnergyFiAge,
       xEnergyFiMinted := h.xEnergyFiMinted + value,
       xEnergyFiSupply := b.totalSupply,
       energyFiStaked := h.energyFiStaked + what,
       energyFiStakedUSD := h.energyFiStakedUSD + stakedUSD,
       ratio := b.ratio)
  }

  /** Burn, day side: the day's counters grow; age, supply and ratio copy the updated bar. */
  function BurnHistory(h: History, b: Bar, value: real, destroyed: real, harvestedUSD: real): (r: History)
    ensures r.date == h.date
    ensures r.xEnergyFiAge == b.xEnergyFiAge && r.xEnergyFiSupply == b.totalSupply && r.ratio == b.ratio
    ensures r.xEnergyFiBurned == h.xEnergyFiBurned + value
    ensures r.xEnergyFiAgeDestroyed == h.xEnergyFiAgeDestroyed + destroyed
    ensures r.energyFiHarvestedUSD == h.energyFiHarvestedUSD + harvestedUSD
    ensures r == h.(xEnergyFiSupply := r.xEnergyFiSupply, xEnergyFiBurned := r.xEnergyFiBurned,
                    xEnergyFiAge := r.xEnergyFiAge, xEnergyFiAgeDestroyed := r.xEnergyFiAgeDestroyed,
                    energyFiHarvestedUSD := r.energyFiHarvestedUSD, ratio := r.ratio)
  {
    h.(xEnergyFiSupply := b.totalSupply,
       xEnergyFiBurned := h.xEnergyFiBurned + value,
       xEnergyFiAge := b.xEnergyFiAge,
       xEnergyFiAgeDestroyed := h.xEnergyFiAgeDestroyed + destroyed,
       energyFiHarvestedUSD := h.energyFiHarvestedUSD + harvestedUSD,
       ratio := b.ratio)
  }

  // ---------------------------------------------------------------------------
  // The handler as a function of the stored records

  /** The mint branch (lines 158-210) applied to the handler's records. */
  function MintStep(w: Books, e: TransferEvent, value: real, what: real, price: real): (r: Books)
    ensures Outstanding(r.bar) == Outstanding(w.bar) + value && r.bar.updatedAt == e.timestamp
    ensures e.to in r.users && r.users == w.users[e.to := r.users[e.to]]
    ensures r.users[e.to].xEnergyFi == UserOf(w.users, e.to, e.timestamp).xEnergyFi + value
  {
    var ts := e.timestamp;
    var bar := MintBar(w.bar, value, what, price, ts);
    var history := MintHistory(HistoryOf(w.histories, ts), bar, value, what, what * price);
    Books(bar,
          w.users[e.to := MintUser(UserOf(w.users, e.to, ts), value, what, price, ts)],
          w.histories[DayOf(ts) := history])
  }

  /** The burn branch (lines 213-267) applied to the handler's records. */
  function BurnStep(w: Books, e: TransferEvent, value: real, what: real, price: real): (r: Books)
    requires UserOf(w.users, e.from, e.timestamp).xEnergyFi != 0.0
    ensures Outstanding(r.bar) == Outstanding(w.bar) - value && r.bar.updatedAt == e.timestamp
    ensures e.from in r.users && r.users == w.users[e.from := r.users[e.from]]
    ensures r.users[e.from].xEnergyFi == UserOf(w.users, e.from, e.timestamp).xEnergyFi - value
  {
    var ts := e.timestamp;
    var user := UserOf(w.users, e.from, ts);
    var destroyed := AgeShare(user, value, ts);
    var bar := BurnBar(w.bar, value, what, price, destroyed, ts);
    var history := BurnHistory(HistoryOf(w.histories, ts), bar, value, destroyed, what * price);
    Books(bar,
          w.users[e.from := BurnUser(user, value, what, price, ts)],
          w.histories[DayOf(ts) := history])
  }

  /** The account-to-account branch (lines 270-343): the sender is saved before the receiver is loaded. */
  function MoveUsers(users: map<Address, User>, e: TransferEvent, value: real, what: real, price: real): (r: map<Address, User>)
    requires UserOf(users, e.from, e.timestamp).xEnergyFi != 0.0
    ensures e.from in r && e.to in r && r == users[e.from := r[e.from]][e.to := r[e.to]]
    ensures e.from != e.to ==> && r[e.from].xEnergyFi == UserOf(users, e.from, e.timestamp).xEnergyFi - value
                               && r[e.to].xEnergyFi == UserOf(users, e.to, e.timestamp).xEnergyFi + value
    ensures e.from == e.to ==> r[e.from].xEnergyFi == UserOf(users, e.from, e.timestamp).xEnergyFi
  {
    var ts := e.timestamp;
    var sender := UserOf(users, e.from, ts);
    var users' := users[e.from := SendUser(sender, value, what, price, ts)];
    var receiver := UserOf(users', e.to, ts);
    users'[e.to := ReceiveUser(receiver, value, what, price, AgeShare(sender, value, ts), ts)]
  }

  /** The balance the handler divides the sender's age by: in a mint-and-burn from the zero
      address to itself, the burn reads the account the mint has just credited. */
  function SenderBalance(st: Ledger, e: TransferEvent): real
  {
    UserOf(st.users, e.from, e.timestamp).xEnergyFi
      + (if e.from == AddressZero then ToDecimal(e.value) else 0.0)
  }

  /** The handler divides by the total supply (line 153) and, for a burn or an
      account-to-account transfer, by the sender's balance (lines 232 and 284). */
  predicate Admissible(st: Ledger, e: TransferEvent, supplyRaw: nat)
  {
    e.value != 0 ==>
      && supplyRaw != 0
      && (e.from != AddressZero || e.to == AddressZero ==> SenderBalance(st, e) != 0.0)
  }

  /** The three branches in source order.  They are separate `if`s, so an event from the
      zero address to itself is first minted and then burned. */
  function Branches(w: Books, e: TransferEvent, value: real, what: real, price: real): (r: Books)
    requires e.from != AddressZero || e.to == AddressZero ==>
               UserOf(w.users, e.from, e.timestamp).xEnergyFi
                 + (if e.from == AddressZero then value else 0.0) != 0.0
    ensures r.bar.totalSupply == w.bar.totalSupply && r.bar.ratio == w.bar.ratio
    ensures e.from == AddressZero || e.to == AddressZero ==> r.bar.updatedAt == e.timestamp
    ensures e.from != AddressZero && e.to != AddressZero ==> r.bar == w.bar && r.histories == w.histories
  {
    var w1 := if e.from == AddressZero then MintStep(w, e, value, what, price) else w;
    var w2 := if e.to == AddressZero then BurnStep(w1, e, value, what, price) else w1;
    if e.from != AddressZero && e.to != AddressZero then w2.(users := MoveUsers(w2.users, e, value, what, price))
    else w2
  }

  /** `transfer`: the records after one Transfer event. */
  function ApplyTransfer(st: Ledger, e: TransferEvent, price: real, supplyRaw: nat, stakedRaw: nat): (r: Ledger)
    requires Admissible(st, e, supplyRaw)
    ensures ToDecimal(e.value) == 0.0 ==> r == st
    ensures ToDecimal(e.value) != 0.0 ==> && r.bar.Some? && r.bar.value.totalSupply == ToDecimal(supplyRaw)
                                          && r.bar.value.ratio * r.bar.value.totalSupply == ToDecimal(stakedRaw)
  {
    var value := ToDecimal(e.value);
    if value == 0.0 then st
    else
      var bar := SyncBar(BarOf(st.bar, e.timestamp), supplyRaw, stakedRaw);
      var w := Branches(Books(bar, st.users, st.histories), e, value, Worth(value, bar.ratio), price);
      Ledger(Some(w.bar), w.users, w.histories)
  }

  // ---------------------------------------------------------------------------
  // Properties of the handler

  function Balance(u: User): real
  {
    u.xEnergyFi
  }

  /** What the bar believes is outstanding; before the bar exists, nothing is. */
  function Supply(bar: Option<Bar>): real
  {
    if bar.Some? then Outstanding(bar.value) else 0.0
  }

  /** An account's age brought up to `t`, as a term of a sum over accounts. */
  function AgeAt(t: int): User -> real
  {
    (u: User) => Accrued(u, t)
  }

  /** The age the accounts have accrued by `t`, each from its own last update. */
  ghost function TotalAge(users: map<Address, User>, t: int): real
  {
    Sums.SumOver(users, AgeAt(t))
  }

  /** The invariant every event keeps: the accounts' balances add up to minted − burned,
      the bar's age is the accounts' ages brought up to the bar's last update (and there
      are no accounts before the bar exists), every day's snapshot is dated at the start
      of its day, and no account holds received shares that were not yet offset against
      its staked amount. */
  ghost predicate Consistent(st: Ledger)
  {
    && Sums.SumOver(st.users, Balance) == Supply(st.bar)
    && (st.bar.None? ==> st.users == map[])
    && (st.bar.Some? ==> st.bar.value.xEnergyFiAge == TotalAge(st.users, st.bar.value.updatedAt))
    && (forall d :: d in st.histories ==> st.histories[d].date == d * SecondsPerDay)
    && (forall a :: a in st.users ==> OffsetGap(st.users[a]) <= 0.0)
  }

  /** The invariant in terms of the handler's in-flight records. */
  ghost predicate BooksConsistent(w: Books)
  {
    Consistent(Ledger(Some(w.bar), w.users, w.histories))
  }

  /** Crediting or debiting one account moves the balance sum by the same amount. */
  lemma {:induction false} WriteUserBalance(users: map<Address, User>, a: Address, timestamp: int, u: User)
    ensures Sums.SumOver(users[a := u], Balance)
            == Sums.SumOver(users, Balance) - UserOf(users, a, timestamp).xEnergyFi + u.xEnergyFi
  {
    Sums.SumOverUpdate(users, Balance, a, u);
  }

  /** Accruing from the last update to `t1` is accruing to `t0` and then on to `t1`. */
  lemma AccruedShift(u: User, t0: int, t1: int)
    ensures Accrued(u, t1) == Accrued(u, t0) + Days(t0, t1) * u.xEnergyFi
  {
    assert Days(u.updatedAt, t1) == Days(u.updatedAt, t0) + Days(t0, t1);
  }

  /** Moving the reference time moves the accounts' total age by the elapsed days times
      the shares they hold. */
  lemma {:induction false} TotalAgeShift(users: map<Address, User>, t0: int, t1: int, held: real)
    requires Sums.SumOver(users, Balance) == held
    ensures TotalAge(users, t1) == TotalAge(users, t0) + Sums.Times(Days(t0, t1), held)
  {
    var c := Days(t0, t1);
    var drift := (u: User) => Sums.Times(c, u.xEnergyFi);
    forall u: User
      ensures AgeAt(t1)(u) == AgeAt(t0)(u) + drift(u)
    {
      AccruedShift(u, t0, t1);
    }
    Sums.SumOverAdd(users, AgeAt(t1), AgeAt(t0), drift);
    Sums.SumOverScale(users, drift, Balance, c);
    assert Sums.Times(c, Sums.SumOver(users, Balance)) == Sums.Times(c, held);
  }

  /** Writing one account replaces its accrued age in the total; an account not stored yet
      contributes nothing. */
  lemma {:induction false} WriteUserAge(users: map<Address, User>, a: Address, timestamp: int, t: int, u: User)
    ensures TotalAge(users[a := u], t)
            == TotalAge(users, t) - Accrued(UserOf(users, a, timestamp), t) + Accrued(u, t)
  {
    Sums.SumOverUpdate(users, AgeAt(t), a, u);
  }

  /** A mint keeps the account's age at the mint's time. */
  lemma MintUserAge(u: User, value: real, what: real, price: real, timestamp: int)
    ensures Accrued(MintUser(u, value, what, price, timestamp), timestamp) == Accrued(u, timestamp)
  {
  }

  /** A burn takes the destroyed share off the account's age at the burn's time. */
  lemma BurnUserAge(u: User, value: real, what: real, price: real, timestamp: int)
    requires u.xEnergyFi != 0.0
    ensures Accrued(BurnUser(u, value, what, price, timestamp), timestamp)
            == Accrued(u, timestamp) - AgeShare(u, value, timestamp)
  {
  }

  /** Seen from any time `t`, sending takes the age share and the future accrual of the sent
      shares off the sender. */
  lemma SendUserAge(u: User, value: real, what: real, price: real, timestamp: int, t: int)
    requires u.xEnergyFi != 0.0
    ensures Accrued(SendUser(u, value, what, price, timestamp), t)
            == Accrued(u, t) - AgeShare(u, value, timestamp) - Sums.Times(Days(timestamp, t), value)
  {
    var r := SendUser(u, value, what, price, timestamp);
    AccruedShift(u, timestamp, t);
    assert Days(timestamp, t) * (u.xEnergyFi - value) == Days(timestamp, t) * u.xEnergyFi - Days(timestamp, t) * value;
  }

  /** Seen from any time `t`, receiving adds the moved age and the accrual of the received shares. */
  lemma ReceiveUserAge(u: User, value: real, what: real, price: real, movedAge: real, timestamp: int, t: int)
    ensures Accrued(ReceiveUser(u, value, what, price, movedAge, timestamp), t)
            == Accrued(u, t) + movedAge + Sums.Times(Days(timestamp, t), value)
  {
    AccruedShift(u, timestamp, t);
    assert Days(timestamp, t) * (u.xEnergyFi + value) == Days(timestamp, t) * u.xEnergyFi + Days(timestamp, t) * value;
  }

  /** A mint keeps the bar's age equal to the accounts' total age: both accrue on the same
      shares up to the mint, and the minted shares start with no age. */
  lemma {:induction false} MintStepAge(w: Books, e: TransferEvent, value: real, what: real, price: real)
    requires Sums.SumOver(w.users, Balance) == Outstanding(w.bar)
    requires w.bar.xEnergyFiAge == TotalAge(w.users, w.bar.updatedAt)
    ensures MintStep(w, e, value, what, price).bar.xEnergyFiAge
            == TotalAge(MintStep(w, e, value, what, price).users, e.timestamp)
  {
    var u := UserOf(w.users, e.to, e.timestamp);
    TotalAgeShift(w.users, w.bar.updatedAt, e.timestamp, Outstanding(w.bar));
    WriteUserAge(w.users, e.to, e.timestamp, e.timestamp, MintUser(u, value, what, price, e.timestamp));
    MintUserAge(u, value, what, price, e.timestamp);
    assert BarAccrual(w.bar, e.timestamp) == Sums.Times(Days(w.bar.updatedAt, e.timestamp), Outstanding(w.bar));
  }

  lemma {:induction false} MintStepConsistent(w: Books, e: TransferEvent, value: real, what: real, price: real)
    requires BooksConsistent(w)
    ensures BooksConsistent(MintStep(w, e, value, what, price))
  {
    var u := UserOf(w.users, e.to, e.timestamp);
    WriteUserBalance(w.users, e.to, e.timestamp, MintUser(u, value, what, price, e.timestamp));
    MintStepAge(w, e, value, what, price);
  }

  /** A burn keeps the bar's age equal to the accounts' total age: the share of age the bar
      destroys is the share the burning account loses. */
  lemma {:induction false} BurnStepAge(w: Books, e: TransferEvent, value: real, what: real, price: real)
    requires UserOf(w.users, e.from, e.timestamp).xEnergyFi != 0.0
    requires Sums.SumOver(w.users, Balance) == Outstanding(w.bar)
    requires w.bar.xEnergyFiAge == TotalAge(w.users, w.bar.updatedAt)
    ensures BurnStep(w, e, value, what, price).bar.xEnergyFiAge
            == TotalAge(BurnStep(w, e, value, what, price).users, e.timestamp)
  {
    var u := UserOf(w.users, e.from, e.timestamp);
    TotalAgeShift(w.users, w.bar.updatedAt, e.timestamp, Outstanding(w.bar));
    WriteUserAge(w.users, e.from, e.timestamp, e.timestamp, BurnUser(u, value, what, price, e.timestamp));
    BurnUserAge(u, value, what, price, e.timestamp);
    assert BarAccrual(w.bar, e.timestamp) == Sums.Times(Days(w.bar.updatedAt, e.timestamp), Outstanding(w.bar));
  }

  lemma {:induction false} BurnStepConsistent(w: Books, e: TransferEvent, value: real, what: real, price: real)
    requires BooksConsistent(w)
    requires UserOf(w.users, e.from, e.timestamp).xEnergyFi != 0.0
    ensures BooksConsistent(BurnStep(w, e, value, what, price))
  {
    var u := UserOf(w.users, e.from, e.timestamp);
    WriteUserBalance(w.users, e.from, e.timestamp, BurnUser(u, value, what, price, e.timestamp));
    BurnStepAge(w, e, value, what, price);
  }

  /** An account-to-account transfer keeps the accounts' total age at any time `t`: the age
      share and the future accrual of the moved shares leave the sender and reach the receiver. */
  lemma {:induction false} MoveUsersAge(users: map<Address, User>, e: TransferEvent, value: real, what: real, price: real, t: int)
    requires UserOf(users, e.from, e.timestamp).xEnergyFi != 0.0
    ensures TotalAge(MoveUsers(users, e, value, what, price), t) == TotalAge(users, t)
  {
    var sender := UserOf(users, e.from, e.timestamp);
    var sent := SendUser(sender, value, what, price, e.timestamp);
    var users' := users[e.from := sent];
    var receiver := UserOf(users', e.to, e.timestamp);
    var moved := AgeShare(sender, value, e.timestamp);
    WriteUserAge(users, e.from, e.timestamp, t, sent);
    SendUserAge(sender, value, what, price, e.timestamp, t);
    WriteUserAge(users', e.to, e.timestamp, t, ReceiveUser(receiver, value, what, price, moved, e.timestamp));
    ReceiveUserAge(receiver, value, what, price, moved, e.timestamp, t);
  }

  lemma {:induction false} MoveUsersConsistent(w: Books, e: TransferEvent, value: real, what: real, price: real)
    requires BooksConsistent(w)
    requires value >= 0.0
    requires UserOf(w.users, e.from, e.timestamp).xEnergyFi != 0.0
    ensures BooksConsistent(w.(users := MoveUsers(w.users, e, value, what, price)))
  {
    var ts := e.timestamp;
    var sender := UserOf(w.users, e.from, ts);
    var sent := SendUser(sender, value, what, price, ts);
    var users := w.users[e.from := sent];
    var receiver := UserOf(users, e.to, ts);
    var received := ReceiveUser(receiver, value, what, price, AgeShare(sender, value, ts), ts);
    WriteUserBalance(w.users, e.from, ts, sent);
    WriteUserBalance(users, e.to, ts, received);
    MoveUsersAge(w.users, e, value, what, price, w.bar.updatedAt);
  }

  /** Every Transfer event keeps `Consistent`: in particular mints add to the accounts exactly
      what they add to the bar's minted total, burns likewise, and transfers conserve the sum. */
  lemma {:induction false} TransferKeepsConsistent(st: Ledger, e: TransferEvent, price: real, supplyRaw: nat, stakedRaw: nat)
    requires Admissible(st, e, supplyRaw)
    requires Consistent(st)
    ensures Consistent(ApplyTransfer(st, e, price, supplyRaw, stakedRaw))
  {
    var value := ToDecimal(e.value);
    if value != 0.0 {
      var bar := SyncBar(BarOf(st.bar, e.timestamp), supplyRaw, stakedRaw);
      assert Outstanding(bar) == Supply(st.bar);
      assert bar.xEnergyFiAge == TotalAge(st.users, bar.updatedAt) by {
        if st.bar.None? {
          assert Sums.SumOver(st.users, AgeAt(bar.updatedAt)) == 0.0;
        }
      }
      var w := Branches(Books(bar, st.users, st.histories), e, value, Worth(value, bar.ratio), price);
      BranchesConsistent(Books(bar, st.users, st.histories), e, value, Worth(value, bar.ratio), price);
      assert ApplyTransfer(st, e, price, supplyRaw, stakedRaw) == Ledger(Some(w.bar), w.users, w.histories);
    }
  }

  lemma {:induction false} BranchesConsistent(w: Books, e: TransferEvent, value: real, what: real, price: real)
    requires e.from != AddressZero || e.to == AddressZero ==>
               UserOf(w.users, e.from, e.timestamp).xEnergyFi
                 + (if e.from == AddressZero then value else 0.0) != 0.0
    requires value >= 0.0
    requires BooksConsistent(w)
    ensures BooksConsistent(Branches(w, e, value, what, price))
  {
    var w1 := if e.from == AddressZero then MintStep(w, e, value, what, price) else w;
    if e.from == AddressZero { MintStepConsistent(w, e, value, what, price); }
    var w2 := if e.to == AddressZero then BurnStep(w1, e, value, what, price) else w1;
    if e.to == AddressZero { BurnStepConsistent(w1, e, value, what, price); }
    if e.from != AddressZero && e.to != AddressZero { MoveUsersConsistent(w2, e, value, what, price); }
  }

  /** The age left behind keeps the account's average age per share. */
  lemma AgeShareKeepsAverage(u: User, value: real, timestamp: int)
    requires u.xEnergyFi != 0.0 && u.xEnergyFi != value
    ensures (Accrued(u, timestamp) - AgeShare(u, value, timestamp)) / (u.xEnergyFi - value)
            == Accrued(u, timestamp) / u.xEnergyFi
  {
    var avg := Accrued(u, timestamp) / u.xEnergyFi;
    assert Accrued(u, timestamp) == avg * u.xEnergyFi;
    assert Accrued(u, timestamp) - AgeShare(u, value, timestamp) == avg * (u.xEnergyFi - value);
  }

  /** A burn or a transfer of at most the held balance, after no time running backwards,
      leaves the sender with a non-negative balance and a non-negative age. */
  lemma SenderStaysNonNegative(u: User, value: real, timestamp: int)
    requires 0.0 <= value <= u.xEnergyFi && u.xEnergyFi != 0.0
    requires u.xEnergyFiAge >= 0.0 && u.updatedAt <= timestamp
    ensures 0.0 <= AgeShare(u, value, timestamp) <= Accrued(u, timestamp)
  {
    assert Days(u.updatedAt, timestamp) >= 0.0;
    ShareWithinAccrued(u, value, timestamp);
  }

  // ---------------------------------------------------------------------------
  // Non-negative ages

  /** An account whose balance, stored age and age brought up to `t` are all non-negative. */
  predicate UserAgesOk(u: User, t: int)
  {
    u.xEnergyFi >= 0.0 && u.xEnergyFiAge >= 0.0 && Accrued(u, t) >= 0.0
  }

  /** Every account is `UserAgesOk` at `t`. */
  predicate AgesOkAt(users: map<Address, User>, t: int)
  {
    forall a :: a in users ==> UserAgesOk(users[a], t)
  }

  /** Balances and ages are non-negative, with accrued ages measured at the bar's last update. */
  predicate AgesOk(st: Ledger)
  {
    st.bar.Some? ==> AgesOkAt(st.users, st.bar.value.updatedAt)
  }

  /** The share of age that leaves with at most the held balance is between zero and the
      accrued age. */
  lemma ShareWithinAccrued(u: User, value: real, t: int)
    requires Accrued(u, t) >= 0.0 && 0.0 <= value <= u.xEnergyFi && u.xEnergyFi != 0.0
    ensures 0.0 <= AgeShare(u, value, t) <= Accrued(u, t)
  {
    var avg := Accrued(u, t) / u.xEnergyFi;
    assert avg >= 0.0;
    assert avg * value <= avg * u.xEnergyFi;
  }

  /** Time running forwards keeps an account's ages non-negative. */
  lemma UserAgesAdvance(u: User, t0: int, t1: int)
    requires UserAgesOk(u, t0) && t0 <= t1
    ensures UserAgesOk(u, t1)
  {
    AccruedShift(u, t0, t1);
    assert Days(t0, t1) >= 0.0;
  }

  lemma {:induction false} AgesAdvance(users: map<Address, User>, t0: int, t1: int)
    requires AgesOkAt(users, t0) && t0 <= t1
    ensures AgesOkAt(users, t1)
  {
    forall a | a in users
      ensures UserAgesOk(users[a], t1)
    {
      UserAgesAdvance(users[a], t0, t1);
    }
  }

  /** A loaded account is stored, or created with nothing in it. */
  lemma UserOfAgesOk(users: map<Address, User>, a: Address, timestamp: int, t: int)
    requires AgesOkAt(users, t)
    ensures UserAgesOk(UserOf(users, a, timestamp), t)
  {
  }

  /** Seen from an earlier `t0`, the age share of `value` grows by the days to `t1` times
      `value`. */
  lemma AgeShareShift(u: User, value: real, t0: int, t1: int)
    requires u.xEnergyFi != 0.0
    ensures AgeShare(u, value, t1) == AgeShare(u, value, t0) + Sums.Times(Days(t0, t1), value)
  {
    AccruedShift(u, t0, t1);
    var b := u.xEnergyFi;
    assert (Accrued(u, t0) + Days(t0, t1) * b) / b * value
           == Accrued(u, t0) / b * value + Days(t0, t1) * value;
  }

  lemma DaysOpposite(t0: int, t1: int, value: real)
    ensures Sums.Times(Days(t1, t0), value) == -Sums.Times(Days(t0, t1), value)
  {
    assert Days(t1, t0) == -Days(t0, t1);
  }

  /** Re-based to any `t0`, the sender keeps exactly the age that did not leave with the sent
      shares. */
  lemma SentAccruedAt(s: User, value: real, what: real, price: real, timestamp: int, t0: int)
    requires s.xEnergyFi != 0.0
    ensures Accrued(SendUser(s, value, what, price, timestamp), t0) == Accrued(s, t0) - AgeShare(s, value, t0)
  {
    SendUserAge(s, value, what, price, timestamp, t0);
    AgeShareShift(s, value, t0, timestamp);
    DaysOpposite(t0, timestamp, value);
  }

  /** Re-based to any `t0`, the receiver gains exactly the age share the sender lost. */
  lemma ReceivedAccruedAt(r: User, s: User, value: real, what: real, price: real, timestamp: int, t0: int)
    requires s.xEnergyFi != 0.0
    ensures Accrued(ReceiveUser(r, value, what, price, AgeShare(s, value, timestamp), timestamp), t0)
            == Accrued(r, t0) + AgeShare(s, value, t0)
  {
    ReceiveUserAge(r, value, what, price, AgeShare(s, value, timestamp), timestamp, t0);
    AgeShareShift(s, value, t0, timestamp);
    DaysOpposite(t0, timestamp, value);
  }

  lemma MintKeepsAgesOk(u: User, value: real, what: real, price: real, timestamp: int)
    requires UserAgesOk(u, timestamp) && value >= 0.0
    ensures UserAgesOk(MintUser(u, value, what, price, timestamp), timestamp)
  {
    MintUserAge(u, value, what, price, timestamp);
  }

  lemma BurnKeepsAgesOk(u: User, value: real, what: real, price: real, timestamp: int)
    requires UserAgesOk(u, timestamp) && 0.0 <= value <= u.xEnergyFi && u.xEnergyFi != 0.0
    ensures UserAgesOk(BurnUser(u, value, what, price, timestamp), timestamp)
  {
    BurnUserAge(u, value, what, price, timestamp);
    ShareWithinAccrued(u, value, timestamp);
  }

  /** Sending at most the held balance at `timestamp`, no earlier than `t0`, keeps the sender's
      ages non-negative seen from `t0`. */
  lemma SendKeepsAgesOk(s: User, value: real, what: real, price: real, timestamp: int, t0: int)
    requires UserAgesOk(s, t0) && t0 <= timestamp
    requires 0.0 <= value <= s.xEnergyFi && s.xEnergyFi != 0.0
    ensures UserAgesOk(SendUser(s, value, what, price, timestamp), t0)
  {
    UserAgesAdvance(s, t0, timestamp);
    ShareWithinAccrued(s, value, timestamp);
    SentAccruedAt(s, value, what, price, timestamp, t0);
    ShareWithinAccrued(s, value, t0);
  }

  /** Receiving the age share of a sender whose ages are non-negative keeps the receiver's. */
  lemma ReceiveKeepsAgesOk(r: User, s: User, value: real, what: real, price: real, timestamp: int, t0: int)
    requires UserAgesOk(r, t0) && UserAgesOk(s, t0) && t0 <= timestamp
    requires 0.0 <= value <= s.xEnergyFi && s.xEnergyFi != 0.0
    ensures UserAgesOk(ReceiveUser(r, value, what, price, AgeShare(s, value, timestamp), timestamp), t0)
  {
    UserAgesAdvance(r, t0, timestamp);
    UserAgesAdvance(s, t0, timestamp);
    ShareWithinAccrued(s, value, timestamp);
    ReceivedAccruedAt(r, s, value, what, price, timestamp, t0);
    ShareWithinAccrued(s, value, t0);
  }

  /** The mint branch keeps every account's ages non-negative, measured at the mint's time. */
  lemma {:induction false} MintStepAgesOk(w: Books, e: TransferEvent, value: real, what: real, price: real)
    requires AgesOkAt(w.users, w.bar.updatedAt) && w.bar.updatedAt <= e.timestamp && value >= 0.0
    ensures AgesOkAt(MintStep(w, e, value, what, price).users, e.timestamp)
  {
    AgesAdvance(w.users, w.bar.updatedAt, e.timestamp);
    UserOfAgesOk(w.users, e.to, e.timestamp, e.timestamp);
    MintKeepsAgesOk(UserOf(w.users, e.to, e.timestamp), value, what, price, e.timestamp);
  }

  /** The burn branch of at most the held balance keeps every account's ages non-negative. */
  lemma {:induction false} BurnStepAgesOk(w: Books, e: TransferEvent, value: real, what: real, price: real)
    requires AgesOkAt(w.users, w.bar.updatedAt) && w.bar.updatedAt <= e.timestamp
    requires 0.0 <= value <= UserOf(w.users, e.from, e.timestamp).xEnergyFi
    requires UserOf(w.users, e.from, e.timestamp).xEnergyFi != 0.0
    ensures AgesOkAt(BurnStep(w, e, value, what, price).users, e.timestamp)
  {
    AgesAdvance(w.users, w.bar.updatedAt, e.timestamp);
    UserOfAgesOk(w.users, e.from, e.timestamp, e.timestamp);
    BurnKeepsAgesOk(UserOf(w.users, e.from, e.timestamp), value, what, price, e.timestamp);
  }

  /** An account-to-account transfer of at most the held balance keeps every account's ages
      non-negative, seen from the bar's (earlier or equal) last update `t0`. */
  lemma {:induction false} MoveUsersAgesOk(users: map<Address, User>, e: TransferEvent, value: real, what: real, price: real, t0: int)
    requires AgesOkAt(users, t0) && t0 <= e.timestamp
    requires 0.0 <= value <= UserOf(users, e.from, e.timestamp).xEnergyFi
    requires UserOf(users, e.from, e.timestamp).xEnergyFi != 0.0
    ensures AgesOkAt(MoveUsers(users, e, value, what, price), t0)
  {
    var sender := UserOf(users, e.from, e.timestamp);
    UserOfAgesOk(users, e.from, e.timestamp, t0);
    SendKeepsAgesOk(sender, value, what, price, e.timestamp, t0);
    var users' := users[e.from := SendUser(sender, value, what, price, e.timestamp)];
    UserOfAgesOk(users', e.to, e.timestamp, t0);
    ReceiveKeepsAgesOk(UserOf(users', e.to, e.timestamp), sender, value, what, price, e.timestamp, t0);
  }

  /** The three branches in sequence keep every account's ages non-negative, measured at the
      bar's new last update. */
  lemma {:induction false} BranchesAgesOk(w: Books, e: TransferEvent, value: real, what: real, price: real)
    requires e.from != AddressZero || e.to == AddressZero ==>
               var held := UserOf(w.users, e.from, e.timestamp).xEnergyFi
                             + (if e.from == AddressZero then value else 0.0);
               held != 0.0 && value <= held
    requires value >= 0.0
    requires AgesOkAt(w.users, w.bar.updatedAt) && w.bar.updatedAt <= e.timestamp
    ensures AgesOkAt(Branches(w, e, value, what, price).users, Branches(w, e, value, what, price).bar.updatedAt)
  {
    var w1 := if e.from == AddressZero then MintStep(w, e, value, what, price) else w;
    if e.from == AddressZero {
      MintStepAgesOk(w, e, value, what, price);
      if e.to == AddressZero {
        assert UserOf(w1.users, e.from, e.timestamp).xEnergyFi
               == UserOf(w.users, e.from, e.timestamp).xEnergyFi + value;
      }
    }
    if e.to == AddressZero {
      BurnStepAgesOk(w1, e, value, what, price);
    }
    if e.from != AddressZero && e.to != AddressZero {
      MoveUsersAgesOk(w.users, e, value, what, price, w.bar.updatedAt);
    }
  }

  /** Every Transfer event whose timestamp is not before the bar's last update, and that sends
      or burns at most what the sender holds, keeps balances and ages non-negative. */
  lemma {:induction false} TransferKeepsAgesOk(st: Ledger, e: TransferEvent, price: real, supplyRaw: nat, stakedRaw: nat)
    requires Admissible(st, e, supplyRaw)
    requires Consistent(st) && AgesOk(st)
    requires st.bar.Some? ==> st.bar.value.updatedAt <= e.timestamp
    requires e.from != AddressZero || e.to == AddressZero ==> ToDecimal(e.value) <= SenderBalance(st, e)
    ensures AgesOk(ApplyTransfer(st, e, price, supplyRaw, stakedRaw))
  {
    var value := ToDecimal(e.value);
    if value != 0.0 {
      var bar := SyncBar(BarOf(st.bar, e.timestamp), supplyRaw, stakedRaw);
      BranchesAgesOk(Books(bar, st.users, st.histories), e, value, Worth(value, bar.ratio), price);
    }
  }

  /** In a consistent ledger the bar's age is the accounts' total age at the bar's last
      update, so non-negative account ages make it non-negative. */
  lemma BarAgeNonNegative(st: Ledger)
    requires Consistent(st) && AgesOk(st) && st.bar.Some?
    ensures st.bar.value.xEnergyFiAge >= 0.0
  {
    Sums.SumOverNonNegative(st.users, AgeAt(st.bar.value.updatedAt));
  }

  /** After any admissible Transfer event that keeps timestamps in order and sends at most the
      sender's balance, the ledger's age, every account's age and every balance are
      non-negative, and stay so for the next event. */
  lemma TransferKeepsLedgerAgeNonNegative(st: Ledger, e: TransferEvent, price: real, supplyRaw: nat, stakedRaw: nat)
    requires Admissible(st, e, supplyRaw)
    requires Consistent(st) && AgesOk(st)
    requires st.bar.Some? ==> st.bar.value.updatedAt <= e.timestamp
    requires e.from != AddressZero || e.to == AddressZero ==> ToDecimal(e.value) <= SenderBalance(st, e)
    ensures var st' := ApplyTransfer(st, e, price, supplyRaw, stakedRaw);
            && Consistent(st') && AgesOk(st')
            && (st'.bar.Some? ==> st'.bar.value.xEnergyFiAge >= 0.0)
            && (forall a :: a in st'.users ==> st'.users[a].xEnergyFiAge >= 0.0 && st'.users[a].xEnergyFi >= 0.0)
  {
    var st' := ApplyTransfer(st, e, price, supplyRaw, stakedRaw);
    TransferKeepsConsistent(st, e, price, supplyRaw, stakedRaw);
    TransferKeepsAgesOk(st, e, price, supplyRaw, stakedRaw);
    if st'.bar.Some? {
      BarAgeNonNegative(st');
    }
  }

  /** A mint followed, at the same timestamp, by a burn of the same shares from the same
      account restores its balance and keeps age + destroyed age; the age that remains is the
      fraction `x / (x + v)` of the age accrued before the mint. */
  lemma MintThenBurnAtOnce(u: User, value: real, what: real, price: real, what': real, price': real, timestamp: int)
    requires u.xEnergyFi >= 0.0 && value > 0.0
    ensures var minted := MintUser(u, value, what, price, timestamp);
            var r := BurnUser(minted, value, what', price', timestamp);
            && r.xEnergyFi == u.xEnergyFi
            && r.xEnergyFiAge + r.xEnergyFiAgeDestroyed == Accrued(u, timestamp) + u.xEnergyFiAgeDestroyed
            && r.xEnergyFiAge == Accrued(u, timestamp) * (u.xEnergyFi / (u.xEnergyFi + value))
  {
    var minted := MintUser(u, value, what, price, timestamp);
    var x, a := u.xEnergyFi, Accrued(u, timestamp);
    assert Days(minted.updatedAt, timestamp) == 0.0;
    assert Accrued(minted, timestamp) == a;
    assert AgeShare(minted, value, timestamp) == a / (x + value) * value;
    assert a - a / (x + value) * value == a * (x / (x + value)) by {
      assert a == a / (x + value) * (x + value);
    }
  }

  /** Sending shares away and receiving the same number back never raises the account's
      staked amount: the return is absorbed by the gap the sending opened. */
  lemma RoundTripDoesNotInflateStaked(u: User, value: real, what: real, price: real, t1: int,
                                      what': real, price': real, movedAge: real, t2: int)
    requires u.xEnergyFi != 0.0 && OffsetGap(u) <= 0.0
    ensures var r := ReceiveUser(SendUser(u, value, what, price, t1), value, what', price', movedAge, t2);
            && r.energyFiStaked == u.energyFiStaked && r.energyFiStakedUSD == u.energyFiStakedUSD
            && OffsetGap(r) == OffsetGap(u) && r.xEnergyFi == u.xEnergyFi
  {
  }

  /** The opposite order: shares received by an account with no uncredited inflow are credited
      to its staked energyFi and USD once, and sending them back leaves that credit in place with
      the offset now ahead of the inflow by `value`. */
  lemma ReceiveThenSendCreditsOnce(u: User, value: real, what: real, price: real, movedAge: real, t1: int,
                                   what': real, price': real, t2: int)
    requires OffsetGap(u) == 0.0 && EnergyFiGap(u) == 0.0 && UsdGap(u) == 0.0
    requires value > 0.0 && u.xEnergyFi >= 0.0
    ensures var r := SendUser(ReceiveUser(u, value, what, price, movedAge, t1), value, what', price', t2);
            && r.energyFiStaked == u.energyFiStaked + what
            && r.energyFiStakedUSD == u.energyFiStakedUSD + what * price
            && OffsetGap(r) == -value && r.xEnergyFi == u.xEnergyFi
  {
  }

  /** Once the offset is ahead of the inflow by at least `value` (as after the round trip
      above), receiving and sending `value` again credits nothing. */
  lemma RepeatedRoundTripCreditsNothing(u: User, value: real, what: real, price: real, movedAge: real, t1: int,
                                        what': real, price': real, t2: int)
    requires OffsetGap(u) + value <= 0.0 && u.xEnergyFi + value != 0.0
    ensures var r := SendUser(ReceiveUser(u, value, what, price, movedAge, t1), value, what', price', t2);
            && r.energyFiStaked == u.energyFiStaked && r.energyFiStakedUSD == u.energyFiStakedUSD
            && OffsetGap(r) == OffsetGap(u) && r.xEnergyFi == u.xEnergyFi
  {
  }

  /** Between two distinct accounts the age leaving the sender is exactly the age reaching the
      receiver, so their total age changes only by what each accrued. */
  lemma TransferMovesAge(sender: User, receiver: User, value: real, what: real, price: real, timestamp: int)
    requires sender.xEnergyFi != 0.0
    ensures var s := SendUser(sender, value, what, price, timestamp);
            var r := ReceiveUser(receiver, value, what, price, AgeShare(sender, value, timestamp), timestamp);
            && s.xEnergyFiAge + r.xEnergyFiAge == Accrued(sender, timestamp) + Accrued(receiver, timestamp)
            && s.xEnergyFi + r.xEnergyFi == sender.xEnergyFi + receiver.xEnergyFi
            && r.energyFiIn - receiver.energyFiIn == s.energyFiOut - sender.energyFiOut
            && r.usdIn - receiver.usdIn == s.usdOut - sender.usdOut
  {
  }

  // ---------------------------------------------------------------------------
  // The handler over mutable records

  class BarLedger {
    var bar: Option<Bar>
    var users: map<Address, User>
    var histories: map<int, History>

    function State(): Ledger
      reads this
    {
      Ledger(bar, users, histories)
    }

    constructor ()
      ensures State() == Ledger(None, map[], map[])
      ensures Consistent(State())
    {
      bar, users, histories := None, map[], map[];
    }

    /** `transfer`: zero-value events return before any record is loaded. */
    method Transfer(e: TransferEvent, price: real, supplyRaw: nat, stakedRaw: nat)
      requires Admissible(State(), e, supplyRaw)
      modifies this
      ensures State() == ApplyTransfer(old(State()), e, price, supplyRaw, stakedRaw)
      ensures e.value == 0 ==> State() == old(State())
      ensures old(Consistent(State())) ==> Consistent(State())
    {
      ghost var before := State();
      var value := ToDecimal(e.value);
      if value == 0.0 {
        return;
      }
      var b := BarOf(bar, e.timestamp);
      b := b.(totalSupply := ToDecimal(supplyRaw));
      b := b.(energyFiStaked := ToDecimal(stakedRaw));
      b := b.(ratio := b.energyFiStaked / b.totalSupply);
      var what := Worth(value, b.ratio);
      ghost var w0 := Books(b, users, histories);
      assert b == SyncBar(BarOf(before.bar, e.timestamp), supplyRaw, stakedRaw);
      if e.from == AddressZero {
        b := Mint(e, value, what, price, b);
      }
      ghost var w1 := Books(b, users, histories);
      if e.to == AddressZero {
        b := Burn(e, value, what, price, b);
      }
      ghost var w2 := Books(b, users, histories);
      if e.from != AddressZero && e.to != AddressZero {
        Move(e, value, what, price);
      }
      assert Books(b, users, histories) == Branches(w0, e, value, what, price);
      bar := Some(b);
      if Consistent(before) {
        TransferKeepsConsistent(before, e, price, supplyRaw, stakedRaw);
      }
    }

    /** Lines 158-210: credit the receiver, then the bar, then the day. */
    method Mint(e: TransferEvent, value: real, what: real, price: real, b: Bar) returns (b': Bar)
      modifies this
      ensures Books(b', users, histories) == MintStep(Books(b, old(users), old(histories)), e, value, what, price)
      ensures bar == old(bar)
    {
      var ts := e.timestamp;
      var user := UserOf(users, e.to, ts);
      ghost var loaded := user;
      if user.xEnergyFi == 0.0 {
        user := user.(inBar := true);
      }
      user := user.(xEnergyFiMinted := user.xEnergyFiMinted + value);
      var energyFiStakedUSD := what * price;
      user := user.(energyFiStaked := user.energyFiStaked + what);
      user := user.(energyFiStakedUSD := user.energyFiStakedUSD + energyFiStakedUSD);
      var days := Days(user.updatedAt, ts);
      user := user.(xEnergyFiAge := user.xEnergyFiAge + days * user.xEnergyFi);
      user := user.(xEnergyFi := user.xEnergyFi + value);
      user := user.(updatedAt := ts);
      assert user == MintUser(loaded, value, what, price, ts);
      users := users[e.to := user];

      var barDays := Days(b.updatedAt, ts);
      var held := b.xEnergyFiMinted - b.xEnergyFiBurned;
      b' := b.(xEnergyFiMinted := b.xEnergyFiMinted + value);
      b' := b'.(xEnergyFiAge := b'.xEnergyFiAge + barDays * held);
      b' := b'.(energyFiStaked := b'.energyFiStaked + what);
      b' := b'.(energyFiStakedUSD := b'.energyFiStakedUSD + energyFiStakedUSD);
      b' := b'.(updatedAt := ts);

      var history := HistoryOf(histories, ts);
      history := history.(xEnergyFiAge := b'.xEnergyFiAge);
      history := history.(xEnergyFiMinted := history.xEnergyFiMinted + value);
      history := history.(xEnergyFiSupply := b'.totalSupply);
      history := history.(energyFiStaked := history.energyFiStaked + what);
      history := history.(energyFiStakedUSD := history.energyFiStakedUSD + energyFiStakedUSD);
      history := history.(ratio := b'.ratio);
      histories := histories[DayOf(ts) := history];
    }

    /** Lines 213-267: debit the sender and destroy its share of the age, then the bar, then the day. */
    method Burn(e: TransferEvent, value: real, what: real, price: real, b: Bar) returns (b': Bar)
      requires UserOf(users, e.from, e.timestamp).xEnergyFi != 0.0
      modifies this
      ensures Books(b', users, histories) == BurnStep(Books(b, old(users), old(histories)), e, value, what, price)
      ensures bar == old(bar)
    {
      var ts := e.timestamp;
      var user := UserOf(users, e.from, ts);
      ghost var loaded := user;
      user := user.(xEnergyFiBurned := user.xEnergyFiBurned + value);
      user := user.(energyFiHarvested := user.energyFiHarvested + what);
      var energyFiHarvestedUSD := what * price;
      user := user.(energyFiHarvestedUSD := user.energyFiHarvestedUSD + energyFiHarvestedUSD);
      var days := Days(user.updatedAt, ts);
      user := user.(xEnergyFiAge := user.xEnergyFiAge + days * user.xEnergyFi);
      assert user.xEnergyFi == loaded.xEnergyFi;
      assert user.xEnergyFiAge == Accrued(loaded, ts);
      var xEnergyFiAgeDestroyed := user.xEnergyFiAge / user.xEnergyFi * value;
      assert xEnergyFiAgeDestroyed == AgeShare(loaded, value, ts);
      user := user.(xEnergyFiAgeDestroyed := user.xEnergyFiAgeDestroyed + xEnergyFiAgeDestroyed);
      user := user.(xEnergyFiAge := user.xEnergyFiAge - xEnergyFiAgeDestroyed);
      user := user.(xEnergyFi := user.xEnergyFi - value);
      if user.xEnergyFi == 0.0 {
        user := user.(inBar := false);
      }
      user := user.(updatedAt := ts);
      users := users[e.from := user];

      var barDays := Days(b.updatedAt, ts);
      var held := b.xEnergyFiMinted - b.xEnergyFiBurned;
      b' := b.(xEnergyFiBurned := b.xEnergyFiBurned + value);
      b' := b'.(xEnergyFiAge := b'.xEnergyFiAge + barDays * held - xEnergyFiAgeDestroyed);
      b' := b'.(xEnergyFiAgeDestroyed := b'.xEnergyFiAgeDestroyed + xEnergyFiAgeDestroyed);
      b' := b'.(energyFiHarvested := b'.energyFiHarvested + what);
      b' := b'.(energyFiHarvestedUSD := b'.energyFiHarvestedUSD + energyFiHarvestedUSD);
      b' := b'.(updatedAt := ts);

      var history := HistoryOf(histories, ts);
      history := history.(xEnergyFiSupply := b'.totalSupply);
      history := history.(xEnergyFiBurned := history.xEnergyFiBurned + value);
      history := history.(xEnergyFiAge := b'.xEnergyFiAge);
      history := history.(xEnergyFiAgeDestroyed := history.xEnergyFiAgeDestroyed + xEnergyFiAgeDestroyed);
      history := history.(energyFiHarvestedUSD := history.energyFiHarvestedUSD + energyFiHarvestedUSD);
      history := history.(ratio := b'.ratio);
      histories := histories[DayOf(ts) := history];
    }

    /** Lines 270-343: the sender gives up shares and age and is saved; then the receiver is
        loaded, takes them, and is credited as staked only for net new inflow. */
    method Move(e: TransferEvent, value: real, what: real, price: real)
      requires UserOf(users, e.from, e.timestamp).xEnergyFi != 0.0
      modifies this
      ensures users == MoveUsers(old(users), e, value, what, price)
      ensures bar == old(bar) && histories == old(histories)
    {
      var ts := e.timestamp;
      var fromUser := UserOf(users, e.from, ts);
      ghost var sender := fromUser;
      var fromUserDays := Days(fromUser.updatedAt, ts);
      fromUser := fromUser.(xEnergyFiAge := fromUser.xEnergyFiAge + fromUserDays * fromUser.xEnergyFi);
      assert fromUser.xEnergyFi == sender.xEnergyFi && fromUser.xEnergyFiAge == Accrued(sender, ts);
      var xEnergyFiAgeTransferred := fromUser.xEnergyFiAge / fromUser.xEnergyFi * value;
      assert xEnergyFiAgeTransferred == AgeShare(sender, value, ts);
      fromUser := fromUser.(xEnergyFiAge := fromUser.xEnergyFiAge - xEnergyFiAgeTransferred);
      fromUser := fromUser.(updatedAt := ts);
      fromUser := fromUser.(xEnergyFi := fromUser.xEnergyFi - value);
      fromUser := fromUser.(xEnergyFiOut := fromUser.xEnergyFiOut + value);
      fromUser := fromUser.(energyFiOut := fromUser.energyFiOut + what);
      fromUser := fromUser.(usdOut := fromUser.usdOut + what * price);
      if fromUser.xEnergyFi == 0.0 {
        fromUser := fromUser.(inBar := false);
      }
      assert fromUser == SendUser(sender, value, what, price, ts);
      users := users[e.from := fromUser];

      var toUser := UserOf(users, e.to, ts);
      ghost var receiver := toUser;
      if !toUser.inBar {
        toUser := toUser.(inBar := true);
      }
      var toUserDays := Days(toUser.updatedAt, ts);
      toUser := toUser.(xEnergyFiAge := toUser.xEnergyFiAge + toUserDays * toUser.xEnergyFi + xEnergyFiAgeTransferred);
      toUser := toUser.(updatedAt := ts);
      toUser := toUser.(xEnergyFi := toUser.xEnergyFi + value);
      toUser := toUser.(xEnergyFiIn := toUser.xEnergyFiIn + value);
      toUser := toUser.(energyFiIn := toUser.energyFiIn + what);
      toUser := toUser.(usdIn := toUser.usdIn + what * price);
      var difference := toUser.xEnergyFiIn - toUser.xEnergyFiOut - toUser.xEnergyFiOffset;
      if difference > 0.0 {
        var energyFi := toUser.energyFiIn - toUser.energyFiOut - toUser.energyFiOffset;
        var usd := toUser.usdIn - toUser.usdOut - toUser.usdOffset;
        toUser := toUser.(energyFiStaked := toUser.energyFiStaked + energyFi);
        toUser := toUser.(energyFiStakedUSD := toUser.energyFiStakedUSD + usd);
        toUser := toUser.(xEnergyFiOffset := toUser.xEnergyFiOffset + difference);
        toUser := toUser.(energyFiOffset := toUser.energyFiOffset + energyFi);
        toUser := toUser.(usdOffset := toUser.usdOffset + usd);
      }
      assert toUser == ReceiveUser(receiver, value, what, price, xEnergyFiAgeTransferred, ts);
      users := users[e.to := toUser];
    }
  }
}
