/** What every operation keeps and changes in its market: rounding, prices, debts, health and bad debt. */
module MarketFacts {
  import opened Wrappers
  import opened Words
  import opened Arithmetic
  import opened MathLib
  import opened SharesMathLib
  import opened UtilsLib
  import opened MarketUpdates

  /** Fractions are in units of 10^-18, prices in units of 10^-36. */
  lemma ConstantsInUnits()
    ensures WAD == 1000000000000000000 && ORACLE_PRICE_SCALE == WAD * WAD
    ensures 4 * MAX_FEE == WAD && 10 * LIQUIDATION_CURSOR == 3 * WAD
    ensures 100 * MAX_LIQUIDATION_INCENTIVE_FACTOR == 115 * WAD
    ensures VIRTUAL_SHARES == 1000000 && VIRTUAL_ASSETS == 1
  {
  }

  // ---------------------------------------------------------------- vocabulary

  /** Borrowed assets are covered by supplied ones and the fee is within its limit. */
  ghost predicate Sound(m: Market) {
    m.totalBorrowAssets <= m.totalSupplyAssets && m.fee <= MAX_FEE
  }

  /** Whoever owes shares has collateral. */
  ghost predicate Covered(p: Position) {
    p.borrowShares > 0 ==> p.collateral > 0
  }

  /** The totals of shares move exactly as the position's shares do. */
  ghost predicate Balanced(m: Market, p: Position, m': Market, p': Position) {
    && m'.totalSupplyShares - m.totalSupplyShares == p'.supplyShares - p.supplyShares
    && m'.totalBorrowShares - m.totalBorrowShares == p'.borrowShares - p.borrowShares
  }

  /** What the market could still lend out. */
  ghost function Liquidity(m: Market): int {
    m.totalSupplyAssets - m.totalBorrowAssets
  }

  ghost function Smaller(x: nat, y: nat): nat {
    if y < x then y else x
  }

  ghost function Debt(m: Market, borrowShares: nat): nat {
    OwedUp(borrowShares, m.totalBorrowAssets, m.totalBorrowShares)
  }

  ghost function MaxBorrow(collateral: nat, price: nat, lltv: nat): nat {
    Down(Down(collateral, price, ORACLE_PRICE_SCALE), lltv, WAD)
  }

  /** The health condition on unbounded numbers. */
  ghost predicate Healthy(m: Market, p: Position, price: nat, lltv: nat) {
    Debt(m, p.borrowShares) <= MaxBorrow(p.collateral, price, lltv)
  }

  ghost predicate SupplyPriceLeq(m: Market, m': Market) {
    PriceLeq(m.totalSupplyAssets, m.totalSupplyShares, m'.totalSupplyAssets, m'.totalSupplyShares)
  }

  /** No one's debt rises who is not the one acting: debts of up to `others` shares are at most what they were. */
  ghost predicate DebtsKept(m: Market, m': Market, others: int) {
    forall x: nat :: x <= others ==> Debt(m', x) <= Debt(m, x)
  }

  /**
   * What is paid in, in assets and in shares: the amount not given is the shares bought, rounded down, or the assets
   * taken, rounded up.
   */
  ghost function PaidIn(assets: nat, shares: nat, totalAssets: nat, totalShares: nat): (nat, nat) {
    if assets > 0 then (assets, Down(assets, totalShares + VIRTUAL_SHARES, totalAssets + VIRTUAL_ASSETS))
    else (Up(shares, totalAssets + VIRTUAL_ASSETS, totalShares + VIRTUAL_SHARES), shares)
  }

  /** What is paid out: the amount not given is the shares it takes, rounded up, or the assets given, rounded down. */
  ghost function PaidOut(assets: nat, shares: nat, totalAssets: nat, totalShares: nat): (nat, nat) {
    if assets > 0 then (assets, Up(assets, totalShares + VIRTUAL_SHARES, totalAssets + VIRTUAL_ASSETS))
    else (Down(shares, totalAssets + VIRTUAL_ASSETS, totalShares + VIRTUAL_SHARES), shares)
  }

  // ---------------------------------------------------------------- rounding of amounts

  /** The conversion of the given amount does not leave the 256 bits. */
  ghost predicate InFits(assets: nat, shares: nat, totalAssets: nat, totalShares: nat) {
    if assets > 0 then Fits(assets, totalShares + VIRTUAL_SHARES, 0)
    else Fits(shares, totalAssets + VIRTUAL_ASSETS, totalShares + VIRTUAL_SHARES - 1)
  }

  ghost predicate OutFits(assets: nat, shares: nat, totalAssets: nat, totalShares: nat) {
    if assets > 0 then Fits(assets, totalShares + VIRTUAL_SHARES, totalAssets)
    else Fits(shares, totalAssets + VIRTUAL_ASSETS, 0)
  }

  /** When the amounts paid in or out can be computed, and what they are. */
  lemma AmountsInAre(assets: uint256, shares: uint256, a: uint128, s: uint128)
    ensures var r := AmountsIn(assets, shares, a, s);
      && (r.Success? <==> InFits(assets, shares, a, s))
      && (r.Success? ==> (r.value.assets, r.value.shares) == PaidIn(assets, shares, a, s))
  {
    hide Down, Up, Fits, ToSharesDown, ToAssetsUp;
    SharesDown(assets, a, s);
    AssetsUp(shares, a, s);
  }

  lemma AmountsOutAre(assets: uint256, shares: uint256, a: uint128, s: uint128)
    ensures var r := AmountsOut(assets, shares, a, s);
      && (r.Success? <==> OutFits(assets, shares, a, s))
      && (r.Success? ==> (r.value.assets, r.value.shares) == PaidOut(assets, shares, a, s))
  {
    hide Down, Up, Fits, ToSharesUp, ToAssetsDown;
    SharesUp(assets, a, s);
    AssetsDown(shares, a, s);
  }

  /** Paying in is rounded against the payer; whoever burns at most all shares pays at most one asset more than all. */
  lemma PaidInRounding(assets: nat, shares: nat, a: nat, s: nat)
    ensures var (paid, counted) := PaidIn(assets, shares, a, s);
      counted * (a + 1) <= paid * (s + VIRTUAL_SHARES) && (counted <= s ==> paid <= a + 1)
  {
    hide Down, Up;
    if assets > 0 {
      var counted := Down(assets, s + VIRTUAL_SHARES, a + 1);
      DownBounds(assets, s + VIRTUAL_SHARES, a + 1);
      if counted <= s {
        DownGreatest(assets, s + VIRTUAL_SHARES, a + 1, s + 1);
        MulMonotone(s + 1, s + VIRTUAL_SHARES, a + 1);
        MulCancelStrict(assets, a + 1, s + VIRTUAL_SHARES);
      }
    } else {
      UpBounds(shares, a + 1, s + VIRTUAL_SHARES);
      if shares <= s {
        ShareOfTotal(shares, a, s);
      }
    }
  }

  /** Paying out is rounded against the receiver. */
  lemma PaidOutRounding(assets: nat, shares: nat, a: nat, s: nat)
    ensures var (paid, counted) := PaidOut(assets, shares, a, s);
      paid * (s + VIRTUAL_SHARES) <= counted * (a + 1)
  {
    hide Down, Up;
    UpBounds(assets, s + VIRTUAL_SHARES, a + 1);
    DownBounds(shares, a + 1, s + VIRTUAL_SHARES);
  }

  /** What is paid in for minted shares does not lower the share price ... */
  lemma PaidInKeepsPrice(assets: nat, shares: nat, a: nat, s: nat)
    ensures var (paid, minted) := PaidIn(assets, shares, a, s); PriceLeq(a, s, a + paid, s + minted)
  {
    hide PaidIn, PriceLeq;
    PaidInRounding(assets, shares, a, s);
    var (paid, minted) := PaidIn(assets, shares, a, s);
    MintKeepsPrice(a, s, paid, minted);
  }

  /** ... nor what is paid out for burnt shares; and debt shares minted for what is paid out do not raise theirs. */
  lemma PaidOutKeepsPrice(assets: nat, shares: nat, a: nat, s: nat)
    ensures var (paid, counted) := PaidOut(assets, shares, a, s);
      && PriceLeq(a + paid, s + counted, a, s)
      && (paid <= a && counted <= s ==> PriceLeq(a, s, a - paid, s - counted))
  {
    hide PaidOut, PriceLeq;
    PaidOutRounding(assets, shares, a, s);
    var (paid, counted) := PaidOut(assets, shares, a, s);
    MintKeepsDebtPrice(a, s, paid, counted);
    if paid <= a && counted <= s {
      BurnKeepsPrice(a, s, paid, counted);
    }
  }

  // ---------------------------------------------------------------- health

  lemma HealthCheck(m: Market, p: Position, price: uint256, lltv: uint256)
    ensures IsHealthyAt(m, p, price, lltv).Success? ==>
      (IsHealthyAt(m, p, price, lltv).value <==> Healthy(m, p, price, lltv))
  {
    hide IsHealthyAt, HealthFits, Healthy;
    HealthQuotes(m, p, price, lltv);
  }

  /** The quotes that the health check compares fit into a word. */
  ghost predicate HealthFits(m: Market, p: Position, price: nat, lltv: nat) {
    && Fits(p.borrowShares, m.totalBorrowAssets + VIRTUAL_ASSETS, m.totalBorrowShares + VIRTUAL_SHARES - 1)
    && Fits(p.collateral, price, 0)
    && Fits(Down(p.collateral, price, ORACLE_PRICE_SCALE), lltv, 0)
  }

  /** The check answers exactly if its quotes fit, and then exactly whether the health condition holds. */
  lemma HealthQuotes(m: Market, p: Position, price: uint256, lltv: uint256)
    ensures var r := IsHealthyAt(m, p, price, lltv);
      && (r.Success? <==> HealthFits(m, p, price, lltv))
      && (r.Success? ==> (r.value <==> Healthy(m, p, price, lltv)))
  {
    hide Down, Up, Fits, ToAssetsUp, MulDivDown;
    AssetsUp(p.borrowShares, m.totalBorrowAssets, m.totalBorrowShares);
    DownQuotient(p.collateral, price, ORACLE_PRICE_SCALE);
    if MulDivDown(p.collateral, price, ORACLE_PRICE_SCALE).Success? {
      DownQuotient(Down(p.collateral, price, ORACLE_PRICE_SCALE), lltv, WAD);
    }
  }

  lemma NoDebtIsHealthy(m: Market, p: Position, price: nat, lltv: nat)
    requires p.borrowShares == 0
    ensures Healthy(m, p, price, lltv)
  {
    hide Down, Up;
    OwedPositive(0, m.totalBorrowAssets, m.totalBorrowShares);
  }

  /** A position that passes the health check has collateral for its debt, at any price the check was made. */
  lemma HealthyIsCovered(m: Market, p: Position, price: Option<uint256>, lltv: uint256)
    requires IsHealthy(m, p, price, lltv) == Success(true)
    ensures Covered(p)
    ensures price.Some? ==> Healthy(m, p, price.value, lltv)
  {
    hide Down, Up;
    if p.borrowShares == 0 {
      if price.Some? { NoDebtIsHealthy(m, p, price.value, lltv); }
    } else {
      HealthCheck(m, p, price.value, lltv);
      OwedPositive(p.borrowShares, m.totalBorrowAssets, m.totalBorrowShares);
      NothingBorrowsNothing(price.value, lltv);
    }
  }

  lemma NothingBorrowsNothing(price: nat, lltv: nat)
    ensures MaxBorrow(0, price, lltv) == 0
  {
    assert 0 * price == 0;
    assert Down(0, price, ORACLE_PRICE_SCALE) == 0;
    assert 0 * lltv == 0;
  }

  /** Less debt and more collateral keep a position healthy at the same price. */
  lemma HealthyMonotone(m: Market, p: Position, m': Market, p': Position, price: nat, lltv: nat)
    requires Healthy(m, p, price, lltv)
    requires Debt(m', p'.borrowShares) <= Debt(m, p.borrowShares)
    requires p.collateral <= p'.collateral
    ensures Healthy(m', p', price, lltv)
  {
    hide Down, Up;
    DownMonotone(p.collateral, price, p'.collateral, price, ORACLE_PRICE_SCALE);
    DownMonotone(Down(p.collateral, price, ORACLE_PRICE_SCALE), lltv,
                 Down(p'.collateral, price, ORACLE_PRICE_SCALE), lltv, WAD);
  }

  // ---------------------------------------------------------------- interest

  /** A fee within its limit is at most the interest, so it never underflows the grown supply. */
  lemma FeeWithinInterest(interest: uint256, fee: uint256)
    requires fee <= MAX_FEE
    ensures Down(interest, fee, WAD) <= interest
  {
    hide Down, Up;
    MulMonotone(fee, WAD, interest);
    assert interest * fee == fee * interest;
    DownBounds(interest, fee, WAD);
    MulCancel(Down(interest, fee, WAD), interest, WAD);
  }

  lemma FeeSubtractionNeverUnderflows(m: Market, interest: uint128)
    requires Sound(m) && interest <= m.totalSupplyAssets
    ensures WMulDown(interest, m.fee).Success?
    ensures Sub(m.totalSupplyAssets, WMulDown(interest, m.fee).value).Success?
  {
    hide Down, Up;
    FeeWithinInterest(interest, m.fee);
    assert interest * m.fee <= MAX_UINT256 by {
      MulMonotone(interest, MAX_UINT128, m.fee);
      MulMonotone(m.fee, MAX_FEE, MAX_UINT128);
    }
  }

  /** The growth factor of a rate over some time, on unbounded numbers. */
  ghost function Growth(rate: nat, elapsed: nat): nat {
    Taylor(rate * elapsed)
  }

  /** The interest of the elapsed time: none without a rate model, else the compounded rate on the borrowed assets. */
  ghost function Interest(m: Market, env: Env, irm: Address): nat {
    if env.now <= m.lastUpdate || irm == ZERO_ADDRESS || env.rate.None? then 0
    else Down(m.totalBorrowAssets, Growth(env.rate.value, env.now - m.lastUpdate), WAD)
  }

  lemma GrowthIs(x: uint256, n: uint256)
    ensures WTaylorCompounded(x, n).Success? ==> WTaylorCompounded(x, n).value == Growth(x, n)
  {
    hide WTaylorCompounded, Taylor;
    TaylorIsTheUncheckedValue(x, n);
  }

  lemma DownOfZero(y: nat, d: nat)
    requires d > 0
    ensures Down(0, y, d) == 0 && Down(y, 0, d) == 0
  {
  }

  /** The shares for the fee part of the interest go to the recipient and to the total; without a fee there are none. */
  lemma ChargeFeeExactly(m: Market, recipient: Position, interest: uint256)
    ensures var r := ChargeFee(m, recipient, interest);
      r.Success? ==>
        var fee := Down(interest, m.fee, WAD);
        && fee <= m.totalSupplyAssets
        && var minted := Down(fee, m.totalSupplyShares + VIRTUAL_SHARES, m.totalSupplyAssets - fee + 1);
        && (m.fee == 0 ==> minted == 0)
        && r.value.market == m.(totalSupplyShares := r.value.market.totalSupplyShares)
        && r.value.market.totalSupplyShares == m.totalSupplyShares + minted
        && (if r.value.fees.Some? then r.value.fees.value else recipient)
           == recipient.(supplyShares := recipient.supplyShares + minted)
  {
    hide Down, Up, Fits, MulDivDown, ToSharesDown;
    DownQuotient(interest, m.fee, WAD);
    DownOfZero(interest, WAD);
    var fee := Down(interest, m.fee, WAD);
    DownOfZero(m.totalSupplyShares + VIRTUAL_SHARES, m.totalSupplyAssets + 1);
    if m.fee != 0 && fee <= m.totalSupplyAssets {
      SharesDown(fee, m.totalSupplyAssets - fee, m.totalSupplyShares);
    }
  }

  /** Interest is added to both sides before the fee is charged. */
  lemma CompoundExactly(m: Market, recipient: Position, rate: Option<uint256>, elapsed: uint256)
    ensures var r := Compound(m, recipient, rate, elapsed);
      r.Success? ==>
        && rate.Some?
        && var interest := Down(m.totalBorrowAssets, Growth(rate.value, elapsed), WAD);
        && interest <= MAX_UINT128
        && m.totalBorrowAssets + interest <= MAX_UINT128 && m.totalSupplyAssets + interest <= MAX_UINT128
        && r == ChargeFee(m.(totalBorrowAssets := m.totalBorrowAssets + interest,
                             totalSupplyAssets := m.totalSupplyAssets + interest), recipient, interest)
  {
    hide Down, Up, Fits, MulDivDown, WTaylorCompounded, Growth, ChargeFee;
    if rate.Some? && WTaylorCompounded(rate.value, elapsed).Success? {
      GrowthIs(rate.value, elapsed);
      DownQuotient(m.totalBorrowAssets, Growth(rate.value, elapsed), WAD);
    }
  }

  /**
   * An accrual adds the interest to both sides. The fee recipient, and with it the total, gets the shares that the fee
   * part of the interest buys at the price without that part, and none if no interest or no fee is charged.
   */
  lemma AccrualExactly(m: Market, recipient: Position, env: Env, irm: Address)
    ensures var r := Accrue(m, recipient, env, irm);
      r.Success? ==>
        var m', interest := r.value.market, Interest(m, env, irm);
        var fee := Down(interest, m.fee, WAD);
        && m.lastUpdate <= env.now
        && m'.totalBorrowAssets == m.totalBorrowAssets + interest
        && m'.totalSupplyAssets == m.totalSupplyAssets + interest
        && fee <= m'.totalSupplyAssets
        && var minted := Down(fee, m.totalSupplyShares + VIRTUAL_SHARES, m'.totalSupplyAssets - fee + 1);
        && (env.now == m.lastUpdate || irm == ZERO_ADDRESS || m.fee == 0 ==> minted == 0)
        && m'.totalSupplyShares == m.totalSupplyShares + minted
        && m'.totalBorrowShares == m.totalBorrowShares
        && (if r.value.fees.Some? then r.value.fees.value else recipient)
           == recipient.(supplyShares := recipient.supplyShares + minted)
  {
    hide Down, Up, Growth, Compound, ChargeFee;
    DownOfZero(m.fee, WAD);
    DownOfZero(m.totalSupplyShares + VIRTUAL_SHARES, m.totalSupplyAssets + 1);
    if m.lastUpdate < env.now && irm != ZERO_ADDRESS {
      CompoundExactly(m, recipient, env.rate, env.now - m.lastUpdate);
      if Compound(m, recipient, env.rate, env.now - m.lastUpdate).Success? {
        var interest := Down(m.totalBorrowAssets, Growth(env.rate.value, env.now - m.lastUpdate), WAD);
        ChargeFeeExactly(m.(totalBorrowAssets := m.totalBorrowAssets + interest,
                            totalSupplyAssets := m.totalSupplyAssets + interest), recipient, interest);
      }
    }
  }

  /** Interest is added to both sides, so liquidity stays; only fee shares are minted. */
  lemma AccrueFacts(m: Market, recipient: Position, env: Env, irm: Address)
    ensures Accrue(m, recipient, env, irm).Success? ==>
      var a := Accrue(m, recipient, env, irm).value;
      var p' := if a.fees.Some? then a.fees.value else recipient;
      && (Sound(m) ==> Sound(a.market))
      && Balanced(m, recipient, a.market, p')
      && Liquidity(a.market) == Liquidity(m)
      && m.totalBorrowAssets <= a.market.totalBorrowAssets
      && a.market.fee == m.fee
      && a.market.lastUpdate == Truncate128(env.now)
      && p' == recipient.(supplyShares := p'.supplyShares)
      && recipient.supplyShares <= p'.supplyShares
      && (env.now == m.lastUpdate ==> a == Accrual(m, None))
  {
    hide Down, Up, Interest, Accrue, PaidIn;
    if Accrue(m, recipient, env, irm).Success? {
      AccrualExactly(m, recipient, env, irm);
      AccrualKeepsTheRest(m, recipient, env, irm);
    }
  }

  lemma AccrualKeepsTheRest(m: Market, recipient: Position, env: Env, irm: Address)
    ensures Accrue(m, recipient, env, irm).Success? ==>
      var a := Accrue(m, recipient, env, irm).value;
      && a.market.fee == m.fee
      && a.market.lastUpdate == env.now % (MAX_UINT128 + 1)
      && (env.now == m.lastUpdate ==> a == Accrual(m, None))
  {
    hide Down, Up, Fits, MulDivDown, WTaylorCompounded, ToSharesDown;
    SmallTime(m.lastUpdate);
  }

  lemma SmallTime(t: uint128)
    ensures Truncate128(t) == t
  {
  }

  /** The supply share price never falls in an accrual, the minting of fee shares included. */
  lemma AccrueKeepsPrice(m: Market, recipient: Position, env: Env, irm: Address)
    requires Sound(m)
    ensures Accrue(m, recipient, env, irm).Success? ==>
      SupplyPriceLeq(m, Accrue(m, recipient, env, irm).value.market)
  {
    hide Down, Up, Accrue, PriceLeq;
    if Accrue(m, recipient, env, irm).Success? {
      AccrualExactly(m, recipient, env, irm);
      var interest := Interest(m, env, irm);
      var minted := Accrue(m, recipient, env, irm).value.market.totalSupplyShares - m.totalSupplyShares;
      FeeWithinInterest(interest, m.fee);
      FeeSharesKeepPrice(m.totalSupplyAssets, m.totalSupplyShares, interest, Down(interest, m.fee, WAD), minted);
    }
  }

  /** Fee shares are priced without the fee itself, so they take at most the fee out of the interest. */
  lemma FeeSharesKeepPrice(a: nat, s: nat, interest: nat, fee: nat, minted: nat)
    requires fee <= interest
    requires minted == Down(fee, s + VIRTUAL_SHARES, a + interest - fee + 1)
    ensures PriceLeq(a, s, a + interest, s + minted)
  {
    hide Down, Up;
    DownBounds(fee, s + VIRTUAL_SHARES, a + interest - fee + 1);
    MulMonotone(a + 1, a + interest - fee + 1, minted);
    MulMonotone(fee, interest, s + VIRTUAL_SHARES);
    assert minted * (a + interest - fee + 1) == (a + interest - fee + 1) * minted;
    assert minted * (a + 1) == (a + 1) * minted;
    MintKeepsPrice(a, s, interest, minted);
  }

  // ---------------------------------------------------------------- supply side

  lemma SupplyFacts(m: Market, p: Position, assets: uint256, shares: uint256)
    ensures Supply(m, p, assets, shares).Success? ==>
      var u := Supply(m, p, assets, shares).value;
      && u.market == m.(totalSupplyAssets := m.totalSupplyAssets + u.assets,
                        totalSupplyShares := m.totalSupplyShares + u.shares)
      && u.position == p.(supplyShares := p.supplyShares + u.shares)
      && SupplyPriceLeq(m, u.market)
      && (u.assets, u.shares) == PaidIn(assets, shares, m.totalSupplyAssets, m.totalSupplyShares)
  {
    hide AmountsIn, PaidIn, InFits, PriceLeq;
    AmountsInAre(assets, shares, m.totalSupplyAssets, m.totalSupplyShares);
    PaidInKeepsPrice(assets, shares, m.totalSupplyAssets, m.totalSupplyShares);
  }

  lemma WithdrawFacts(m: Market, p: Position, assets: uint256, shares: uint256)
    ensures Withdraw(m, p, assets, shares).Success? ==>
      var u := Withdraw(m, p, assets, shares).value;
      && u.assets <= m.totalSupplyAssets && u.shares <= m.totalSupplyShares && u.shares <= p.supplyShares
      && u.market == m.(totalSupplyAssets := m.totalSupplyAssets - u.assets,
                        totalSupplyShares := m.totalSupplyShares - u.shares)
      && u.position == p.(supplyShares := p.supplyShares - u.shares)
      && u.market.totalBorrowAssets <= u.market.totalSupplyAssets
      && SupplyPriceLeq(m, u.market)
      && (u.assets, u.shares) == PaidOut(assets, shares, m.totalSupplyAssets, m.totalSupplyShares)
  {
    hide AmountsOut, PaidOut, OutFits, PriceLeq;
    AmountsOutAre(assets, shares, m.totalSupplyAssets, m.totalSupplyShares);
    PaidOutKeepsPrice(assets, shares, m.totalSupplyAssets, m.totalSupplyShares);
  }

  // ---------------------------------------------------------------- borrow side

  lemma BorrowFacts(m: Market, p: Position, price: Option<uint256>, lltv: uint256, assets: uint256, shares: uint256)
    ensures Borrow(m, p, price, lltv, assets, shares).Success? ==>
      var u := Borrow(m, p, price, lltv, assets, shares).value;
      && u.market == m.(totalBorrowAssets := m.totalBorrowAssets + u.assets,
                        totalBorrowShares := m.totalBorrowShares + u.shares)
      && u.position == p.(borrowShares := p.borrowShares + u.shares)
      && u.market.totalBorrowAssets <= u.market.totalSupplyAssets
      && Covered(u.position)
      && (price.Some? ==> Healthy(u.market, u.position, price.value, lltv))
      && DebtsKept(m, u.market, m.totalBorrowShares)
      && (u.assets, u.shares) == PaidOut(assets, shares, m.totalBorrowAssets, m.totalBorrowShares)
  {
    hide AmountsOut, PaidOut, OutFits, IsHealthy, Healthy, Debt, PriceLeq;
    AmountsOutAre(assets, shares, m.totalBorrowAssets, m.totalBorrowShares);
    PaidOutKeepsPrice(assets, shares, m.totalBorrowAssets, m.totalBorrowShares);
    if Borrow(m, p, price, lltv, assets, shares).Success? {
      var u := Borrow(m, p, price, lltv, assets, shares).value;
      HealthyIsCovered(u.market, u.position, price, lltv);
      forall x: nat | x <= m.totalBorrowShares ensures Debt(u.market, x) <= Debt(m, x) {
        CheaperDebt(m, u.market, x);
      }
    }
  }

  lemma CheaperDebt(m: Market, m': Market, x: nat)
    requires PriceLeq(m'.totalBorrowAssets, m'.totalBorrowShares, m.totalBorrowAssets, m.totalBorrowShares)
    ensures Debt(m', x) <= Debt(m, x)
  {
    hide PriceLeq, OwedUp;
    OwedMonotone(x, x, m.totalBorrowAssets, m.totalBorrowShares, m'.totalBorrowAssets, m'.totalBorrowShares);
  }

  /** The shares left after burning `shares` for `assets`, total assets floored at zero, owe no more than before. */
  lemma BurnDebt(m: Market, m': Market, assets: nat, shares: nat)
    requires shares <= m.totalBorrowShares
    requires shares * (m.totalBorrowAssets + 1) <= assets * (m.totalBorrowShares + VIRTUAL_SHARES)
    requires m'.totalBorrowShares == m.totalBorrowShares - shares
    requires m'.totalBorrowAssets == if m.totalBorrowAssets > assets then m.totalBorrowAssets - assets else 0
    ensures DebtsKept(m, m', m'.totalBorrowShares)
  {
    hide Down, Up;
    forall x: nat | x <= m'.totalBorrowShares ensures Debt(m', x) <= Debt(m, x) {
      BurnKeepsOwed(x, x, m.totalBorrowAssets, m.totalBorrowShares, assets, shares);
    }
  }

  /** Shares that remain of a debt owe no more than the whole debt did. */
  lemma DebtOfFewerShares(m: Market, x: nat, y: nat)
    requires x <= y
    ensures Debt(m, x) <= Debt(m, y)
  {
    hide Down, Up;
    OwedMonotone(y, x, m.totalBorrowAssets, m.totalBorrowShares, m.totalBorrowAssets, m.totalBorrowShares);
  }

  /** So it is for what is paid in to burn debt shares; at most one asset more is paid than is borrowed. */
  lemma PaidInBurnsDebt(m: Market, m': Market, assets: nat, shares: nat)
    requires var (paid, burnt) := PaidIn(assets, shares, m.totalBorrowAssets, m.totalBorrowShares);
      && burnt <= m.totalBorrowShares && m'.totalBorrowShares == m.totalBorrowShares - burnt
      && m'.totalBorrowAssets == if m.totalBorrowAssets > paid then m.totalBorrowAssets - paid else 0
    ensures DebtsKept(m, m', m'.totalBorrowShares)
    ensures PaidIn(assets, shares, m.totalBorrowAssets, m.totalBorrowShares).0 <= m.totalBorrowAssets + 1
  {
    hide PaidIn, Debt;
    PaidInRounding(assets, shares, m.totalBorrowAssets, m.totalBorrowShares);
    var (paid, burnt) := PaidIn(assets, shares, m.totalBorrowAssets, m.totalBorrowShares);
    BurnDebt(m, m', paid, burnt);
  }

  /** The assets repaid exceed the debt of the whole market by at most one. */
  lemma RepayFacts(m: Market, p: Position, assets: uint256, shares: uint256)
    ensures Repay(m, p, assets, shares).Success? ==>
      var u := Repay(m, p, assets, shares).value;
      && u.shares <= p.borrowShares && u.shares <= m.totalBorrowShares
      && u.market == m.(
           totalBorrowAssets := if m.totalBorrowAssets > u.assets then m.totalBorrowAssets - u.assets else 0,
           totalBorrowShares := m.totalBorrowShares - u.shares)
      && u.position == p.(borrowShares := p.borrowShares - u.shares)
      && u.assets <= m.totalBorrowAssets + 1
      && DebtsKept(m, u.market, u.market.totalBorrowShares)
      && (u.assets, u.shares) == PaidIn(assets, shares, m.totalBorrowAssets, m.totalBorrowShares)
  {
    hide ZeroFloorSub, AmountsIn, PaidIn, InFits, DebtsKept;
    AmountsInAre(assets, shares, m.totalBorrowAssets, m.totalBorrowShares);
    if Repay(m, p, assets, shares).Success? {
      PaidInBurnsDebt(m, Repay(m, p, assets, shares).value.market, assets, shares);
    }
  }

  lemma WithdrawCollateralFacts(m: Market, p: Position, price: Option<uint256>, lltv: uint256, assets: uint256)
    ensures WithdrawCollateral(m, p, price, lltv, assets).Success? ==>
      var p' := WithdrawCollateral(m, p, price, lltv, assets).value;
      && assets <= p.collateral
      && p' == p.(collateral := p.collateral - assets)
      && Covered(p')
      && (price.Some? ==> Healthy(m, p', price.value, lltv))
  {
    hide IsHealthy, Healthy;
    if WithdrawCollateral(m, p, price, lltv, assets).Success? {
      HealthyIsCovered(m, WithdrawCollateral(m, p, price, lltv, assets).value, price, lltv);
    }
  }

  // ---------------------------------------------------------------- liquidation

  /** The incentive factor lies between 1 and 1.15, and lltv * factor stays below 1, for every lltv below 1. */
  lemma IncentiveFactorBounds(lltv: uint256)
    requires lltv < WAD
    ensures var r := LiquidationIncentiveFactor(lltv);
      && r.Success?
      && WAD <= r.value <= MAX_LIQUIDATION_INCENTIVE_FACTOR
      && lltv * r.value < WAD * WAD
  {
    hide Min, Down, Up, Fits, MulDivDown;
    var margin := WAD - lltv;
    var discount := Down(LIQUIDATION_CURSOR, margin, WAD);
    DiscountBelowMargin(LIQUIDATION_CURSOR, margin, WAD);
    var denominator := WAD - discount;
    var factor := Down(WAD, WAD, denominator);
    QuotientBounds(WAD, denominator, lltv);
    SmallFits(LIQUIDATION_CURSOR, margin);
    SmallFits(WAD, WAD);
    DownQuotient(LIQUIDATION_CURSOR, margin, WAD);
    DownQuotient(WAD, WAD, denominator);
    MulMonotone(LiquidationIncentiveFactor(lltv).value, factor, lltv);
    assert factor * lltv == lltv * factor;
  }

  lemma SmallFits(x: nat, y: nat)
    requires x <= WAD && y <= WAD
    ensures Fits(x, y, 0)
  {
    MulMonotone(x, WAD, y);
    MulMonotone(y, WAD, WAD);
    assert WAD * y == y * WAD;
  }

  lemma DiscountBelowMargin(cursor: nat, margin: nat, one: nat)
    requires cursor < one && 0 < margin
    ensures Down(cursor, margin, one) < margin
  {
    hide Down, Up;
    DownBounds(cursor, margin, one);
    MulMonotone(cursor + 1, one, margin);
    assert (cursor + 1) * margin == cursor * margin + margin;
    assert one * margin == margin * one;
    MulCancelStrict(Down(cursor, margin, one), margin, one);
  }

  lemma QuotientBounds(one: nat, denominator: nat, lltv: nat)
    requires lltv < denominator <= one
    ensures one <= Down(one, one, denominator) <= one * one
    ensures lltv * Down(one, one, denominator) < one * one
  {
    hide Down, Up;
    var factor := Down(one, one, denominator);
    MulMonotone(denominator, one, one);
    assert denominator * one == one * denominator;
    DownGreatest(one, one, denominator, one);
    DownAtMost(one, one, denominator);
    DownBounds(one, one, denominator);
    MulMonotone(lltv + 1, denominator, factor);
    assert (lltv + 1) * factor == lltv * factor + factor;
    assert denominator * factor == factor * denominator;
  }

  /** The shares that seizing this much collateral repays: its value less the incentive, every step rounded up. */
  ghost function RepaidFor(seized: nat, m: Market, price: nat, lif: nat): nat
    requires lif > 0
  {
    var value := Up(seized, price, ORACLE_PRICE_SCALE);
    Up(Up(value, WAD, lif), m.totalBorrowShares + VIRTUAL_SHARES, m.totalBorrowAssets + VIRTUAL_ASSETS)
  }

  /** The collateral that repaying this many shares seizes: their value and the incentive, every step rounded down. */
  ghost function SeizedFor(repaid: nat, m: Market, price: nat, lif: nat): nat
    requires price > 0
  {
    var value := Down(repaid, m.totalBorrowAssets + VIRTUAL_ASSETS, m.totalBorrowShares + VIRTUAL_SHARES);
    Down(Down(value, lif, WAD), ORACLE_PRICE_SCALE, price)
  }

  ghost predicate LiquidationFits(m: Market, price: nat, lif: nat, seizedAssets: nat, repaidShares: nat) {
    var a, s := m.totalBorrowAssets + VIRTUAL_ASSETS, m.totalBorrowShares + VIRTUAL_SHARES;
    if seizedAssets > 0 then
      var quoted := Up(seizedAssets, price, ORACLE_PRICE_SCALE);
      && lif > 0
      && Fits(seizedAssets, price, ORACLE_PRICE_SCALE - 1)
      && Fits(quoted, WAD, lif - 1)
      && Fits(Up(quoted, WAD, lif), s, a - 1)
    else
      var repaid := Down(repaidShares, a, s);
      && price > 0
      && Fits(repaidShares, a, 0)
      && Fits(repaid, lif, 0)
      && Fits(Down(repaid, lif, WAD), ORACLE_PRICE_SCALE, 0)
  }

  /** The amounts of a liquidation, and when they can be computed. */
  lemma LiquidationAmountsExactly(m: Market, price: uint256, lif: uint256, seizedAssets: uint256, repaidShares: uint256)
    ensures var r := LiquidationAmounts(m, price, lif, seizedAssets, repaidShares);
      && (r.Success? <==> LiquidationFits(m, price, lif, seizedAssets, repaidShares))
      && (r.Success? ==> if seizedAssets > 0 then lif > 0 else price > 0)
      && (r.Success? && seizedAssets > 0 ==>
            r.value.assets == seizedAssets && r.value.shares == RepaidFor(seizedAssets, m, price, lif))
      && (r.Success? && seizedAssets == 0 ==>
            r.value.shares == repaidShares && r.value.assets == SeizedFor(repaidShares, m, price, lif))
  {
    hide Down, Up, Fits, MulDivDown, MulDivUp, ToSharesUp, ToAssetsDown;
    if seizedAssets > 0 {
      UpQuotient(seizedAssets, price, ORACLE_PRICE_SCALE);
      if MulDivUp(seizedAssets, price, ORACLE_PRICE_SCALE).Success? {
        var quoted := Up(seizedAssets, price, ORACLE_PRICE_SCALE);
        UpQuotient(quoted, WAD, lif);
        if MulDivUp(quoted, WAD, lif).Success? {
          SharesUp(Up(quoted, WAD, lif), m.totalBorrowAssets, m.totalBorrowShares);
        }
      }
    } else {
      AssetsDown(repaidShares, m.totalBorrowAssets, m.totalBorrowShares);
      if ToAssetsDown(repaidShares, m.totalBorrowAssets, m.totalBorrowShares).Success? {
        var repaid := Down(repaidShares, m.totalBorrowAssets + 1, m.totalBorrowShares + VIRTUAL_SHARES);
        DownQuotient(repaid, lif, WAD);
        if MulDivDown(repaid, lif, WAD).Success? {
          DownQuotient(Down(repaid, lif, WAD), ORACLE_PRICE_SCALE, price);
        }
      }
    }
  }

  /** The value of the collateral that is seized, given the repayment in shares that it was computed from or to. */
  lemma SeizedValueIsPaid(
      seized: nat, price: nat, quoted: nat, repaid: nat, shares: nat, lif: nat, a: nat, s: nat, scale: nat, one: nat)
    requires s > 0
    requires seized * price <= quoted * scale && quoted * one <= repaid * lif && repaid * s <= shares * a
    ensures seized * price * one <= Up(shares, a, s) * lif * scale
  {
    hide Up;
    var paid := Up(shares, a, s);
    UpBounds(shares, a, s);
    MulCancel(repaid, paid, s);
    MulMonotone(repaid, paid, lif);
    MulMonotone(seized * price, quoted * scale, one);
    MulMonotone(quoted * one, paid * lif, scale);
    assert quoted * scale * one == quoted * one * scale;
  }

  /** ... for the seized amount given, every step rounded up ... */
  lemma GivenSeizureIsPaid(seized: nat, price: nat, lif: nat, a: nat, s: nat, scale: nat, one: nat)
    requires lif > 0 && a > 0 && s > 0 && scale > 0
    ensures seized * price * one <= Up(Up(Up(Up(seized, price, scale), one, lif), s, a), a, s) * lif * scale
  {
    hide Up;
    var quoted := Up(seized, price, scale);
    var repaid := Up(quoted, one, lif);
    UpBounds(seized, price, scale);
    UpBounds(quoted, one, lif);
    UpBounds(repaid, s, a);
    SeizedValueIsPaid(seized, price, quoted, repaid, Up(repaid, s, a), lif, a, s, scale, one);
  }

  /** ... and for the shares given, every step rounded down. */
  lemma GivenRepaymentIsPaid(shares: nat, price: nat, lif: nat, a: nat, s: nat, scale: nat, one: nat)
    requires price > 0 && s > 0 && one > 0
    ensures Down(Down(Down(shares, a, s), lif, one), scale, price) * price * one <= Up(shares, a, s) * lif * scale
  {
    hide Up, Down;
    var repaid := Down(shares, a, s);
    var quoted := Down(repaid, lif, one);
    DownBounds(shares, a, s);
    DownBounds(repaid, lif, one);
    DownBounds(quoted, scale, price);
    SeizedValueIsPaid(Down(quoted, scale, price), price, quoted, repaid, shares, lif, a, s, scale, one);
  }

  /**
   * Whichever input is given, and after all roundings, the liquidator pays at least the value of the seized
   * collateral divided by the incentive factor.
   */
  lemma LiquidationExchangeBound(m: Market, price: uint256, lif: uint256, seizedAssets: uint256, repaidShares: uint256)
    ensures LiquidationAmounts(m, price, lif, seizedAssets, repaidShares).Success? ==>
      var amounts := LiquidationAmounts(m, price, lif, seizedAssets, repaidShares).value;
      amounts.assets * price * WAD <= Debt(m, amounts.shares) * lif * ORACLE_PRICE_SCALE
  {
    hide Down, Up, LiquidationAmounts, LiquidationFits;
    LiquidationAmountsExactly(m, price, lif, seizedAssets, repaidShares);
    if LiquidationAmounts(m, price, lif, seizedAssets, repaidShares).Success? {
      var a, s := m.totalBorrowAssets + VIRTUAL_ASSETS, m.totalBorrowShares + VIRTUAL_SHARES;
      if seizedAssets > 0 {
        GivenSeizureIsPaid(seizedAssets, price, lif, a, s, ORACLE_PRICE_SCALE, WAD);
      } else {
        GivenRepaymentIsPaid(repaidShares, price, lif, a, s, ORACLE_PRICE_SCALE, WAD);
      }
    }
  }

  /**
   * The bad debt is what the position still owes, but no more than the borrowed assets. Taking it off never
   * underflows: it is bounded by the borrowed assets, and these by the supplied ones. That the debt can be quoted at
   * all was settled by the health check before the seizure.
   */
  lemma RealizeBadDebtFacts(m: Market, p: Position)
    requires Sound(m) && p.borrowShares <= m.totalBorrowShares
    ensures ToAssetsUp(p.borrowShares, m.totalBorrowAssets, m.totalBorrowShares).Success? ==>
      var r := RealizeBadDebt(m, p);
      && r.Success?
      && var bad := r.value;
      && bad.assets == (if p.collateral == 0 then Smaller(m.totalBorrowAssets, Debt(m, p.borrowShares)) else 0)
      && bad.shares == (if p.collateral == 0 then p.borrowShares else 0)
      && bad.market == m.(totalBorrowAssets := m.totalBorrowAssets - bad.assets,
                          totalSupplyAssets := m.totalSupplyAssets - bad.assets,
                          totalBorrowShares := m.totalBorrowShares - bad.shares)
      && bad.position == p.(borrowShares := p.borrowShares - bad.shares)
      && Covered(bad.position)
      && (bad.shares == 0 ==> bad.assets == 0)
      && DebtsKept(m, bad.market, bad.market.totalBorrowShares)
  {
    hide Min, Down, Up, Fits, ToAssetsUp, DebtsKept;
    AssetsUp(p.borrowShares, m.totalBorrowAssets, m.totalBorrowShares);
    if ToAssetsUp(p.borrowShares, m.totalBorrowAssets, m.totalBorrowShares).Success? {
      if p.collateral == 0 {
        OwedPositive(p.borrowShares, m.totalBorrowAssets, m.totalBorrowShares);
        SharesBurnDebt(m, RealizeBadDebt(m, p).value.market, p.borrowShares);
      } else {
        OwedPositive(0, m.totalBorrowAssets, m.totalBorrowShares);
        SharesBurnDebt(m, m, 0);
      }
    }
  }

  /** Fewer shares of smaller totals can be quoted whenever more shares of larger ones can. */
  lemma QuotableMonotone(x: uint256, a: uint128, s: uint128, x': uint256, a': uint128, s': uint128)
    requires x' <= x && a' <= a && s' <= s
    ensures ToAssetsUp(x, a, s).Success? ==> ToAssetsUp(x', a', s') == Success(OwedUp(x', a', s'))
  {
    hide Down, Up, Fits, ToAssetsUp;
    AssetsUp(x, a, s);
    AssetsUp(x', a', s');
    if ToAssetsUp(x, a, s).Success? {
      FitsMonotone(x, a + 1, s + VIRTUAL_SHARES - 1, x', a' + 1, s' + VIRTUAL_SHARES - 1);
    }
  }

  lemma QuoteOfTheCheck(m: Market, p: Position, price: uint256, lltv: uint256)
    ensures IsHealthyAt(m, p, price, lltv).Success? ==>
      ToAssetsUp(p.borrowShares, m.totalBorrowAssets, m.totalBorrowShares).Success?
  {
    hide ToAssetsUp, MulDivDown;
  }

  /** What a seizure writes, in terms of the conversions it makes. */
  lemma SeizureWrites(
      m: Market, p: Position, price: uint256, lltv: uint256, seizedAssets: uint256, repaidShares: uint256)
    ensures Seize(m, p, price, lltv, seizedAssets, repaidShares).Success? ==>
      var l := Seize(m, p, price, lltv, seizedAssets, repaidShares).value;
      && IsHealthyAt(m, p, price, lltv) == Success(false)
      && ToAssetsUp(l.repaidShares, m.totalBorrowAssets, m.totalBorrowShares) == Success(l.repaidAssets)
      && l.repaidShares <= p.borrowShares && l.repaidShares <= m.totalBorrowShares
      && l.seizedAssets <= p.collateral
      && l.market == m.(
           totalBorrowAssets := if m.totalBorrowAssets > l.repaidAssets then m.totalBorrowAssets - l.repaidAssets
               else 0,
           totalBorrowShares := m.totalBorrowShares - l.repaidShares)
      && l.position == p.(borrowShares := p.borrowShares - l.repaidShares, collateral := p.collateral - l.seizedAssets)
  {
    hide ZeroFloorSub, ToAssetsUp, LiquidationIncentiveFactor, LiquidationAmounts, IsHealthyAt;
  }

  lemma SeizeFacts(m: Market, p: Position, price: uint256, lltv: uint256, seizedAssets: uint256, repaidShares: uint256)
    ensures Seize(m, p, price, lltv, seizedAssets, repaidShares).Success? ==>
      var l := Seize(m, p, price, lltv, seizedAssets, repaidShares).value;
      && !Healthy(m, p, price, lltv)
      && l.repaidShares <= p.borrowShares && l.repaidShares <= m.totalBorrowShares
      && l.seizedAssets <= p.collateral
      && l.repaidAssets == Debt(m, l.repaidShares)
      && l.repaidAssets <= m.totalBorrowAssets + 1
      && l.market == m.(
           totalBorrowAssets := if m.totalBorrowAssets > l.repaidAssets then m.totalBorrowAssets - l.repaidAssets
               else 0,
           totalBorrowShares := m.totalBorrowShares - l.repaidShares)
      && l.position == p.(borrowShares := p.borrowShares - l.repaidShares, collateral := p.collateral - l.seizedAssets)
      && DebtsKept(m, l.market, l.market.totalBorrowShares)
      && ToAssetsUp(l.position.borrowShares, l.market.totalBorrowAssets, l.market.totalBorrowShares).Success?
  {
    hide Down, Up, Fits, Seize, ToAssetsUp, IsHealthyAt, Healthy, HealthFits, DebtsKept;
    HealthQuotes(m, p, price, lltv);
    QuoteOfTheCheck(m, p, price, lltv);
    SeizureWrites(m, p, price, lltv, seizedAssets, repaidShares);
    if Seize(m, p, price, lltv, seizedAssets, repaidShares).Success? {
      var l := Seize(m, p, price, lltv, seizedAssets, repaidShares).value;
      AssetsUp(l.repaidShares, m.totalBorrowAssets, m.totalBorrowShares);
      SharesBurnDebt(m, l.market, l.repaidShares);
      QuotableMonotone(p.borrowShares, m.totalBorrowAssets, m.totalBorrowShares,
                       l.position.borrowShares, l.market.totalBorrowAssets, l.market.totalBorrowShares);
    }
  }

  /** Burning shares for what they owe, rounded up, raises no debt; it is at most one asset more than is borrowed. */
  lemma SharesBurnDebt(m: Market, m': Market, shares: nat)
    requires shares <= m.totalBorrowShares && m'.totalBorrowShares == m.totalBorrowShares - shares
    requires m'.totalBorrowAssets ==
      if m.totalBorrowAssets > Debt(m, shares) then m.totalBorrowAssets - Debt(m, shares) else 0
    ensures DebtsKept(m, m', m'.totalBorrowShares)
    ensures Debt(m, shares) <= m.totalBorrowAssets + 1
  {
    hide Up;
    ShareOfTotal(shares, m.totalBorrowAssets, m.totalBorrowShares);
    UpBounds(shares, m.totalBorrowAssets + 1, m.totalBorrowShares + VIRTUAL_SHARES);
    BurnDebt(m, m', Debt(m, shares), shares);
  }

  /**
   * A liquidation is a seizure followed by the realization of what debt is left without collateral: the rounded-up
   * debt of the shares left, on the totals after the seizure, which is at most what they owed before it.
   */
  lemma LiquidateFacts(
      m: Market, p: Position, price: Option<uint256>, lltv: uint256, seizedAssets: uint256, repaidShares: uint256)
    requires Sound(m) && p.borrowShares <= m.totalBorrowShares
    ensures Liquidate(m, p, price, lltv, seizedAssets, repaidShares).Success? ==>
      var l := Liquidate(m, p, price, lltv, seizedAssets, repaidShares).value;
      && price.Some?
      && !Healthy(m, p, price.value, lltv)
      && l.repaidAssets == Debt(m, l.repaidShares) <= m.totalBorrowAssets + 1
      && l.repaidShares <= p.borrowShares
      && l.seizedAssets <= p.collateral
      && Sound(l.market)
      && Balanced(m, p, l.market, l.position)
      && Liquidity(l.market) <= Liquidity(m) + l.repaidAssets
      && var borrowed := if m.totalBorrowAssets > l.repaidAssets then m.totalBorrowAssets - l.repaidAssets else 0;
      var owed := OwedUp(p.borrowShares - l.repaidShares, borrowed, m.totalBorrowShares - l.repaidShares);
      && l.badDebtAssets == (if p.collateral == l.seizedAssets then Smaller(borrowed, owed) else 0)
      && l.badDebtAssets <= Debt(m, p.borrowShares - l.repaidShares)
      && l.market == m.(totalBorrowAssets := borrowed - l.badDebtAssets,
                        totalBorrowShares := m.totalBorrowShares - l.repaidShares - l.badDebtShares,
                        totalSupplyAssets := m.totalSupplyAssets - l.badDebtAssets)
      && l.position == p.(borrowShares := p.borrowShares - l.repaidShares - l.badDebtShares,
                          collateral := p.collateral - l.seizedAssets)
      && l.badDebtShares == (if p.collateral == l.seizedAssets then p.borrowShares - l.repaidShares else 0)
      && (l.badDebtShares == 0 ==> l.badDebtAssets == 0)
      && Covered(l.position)
      && DebtsKept(m, l.market, l.market.totalBorrowShares)
  {
    hide Down, Up, ToAssetsUp, Seize, RealizeBadDebt, Healthy;
    if Liquidate(m, p, price, lltv, seizedAssets, repaidShares).Success? {
      var seizure := Seize(m, p, price.value, lltv, seizedAssets, repaidShares).value;
      SeizeFacts(m, p, price.value, lltv, seizedAssets, repaidShares);
      RealizeBadDebtFacts(seizure.market, seizure.position);
    }
  }

  /** If the seizure goes through, the realization of bad debt after it does too. */
  lemma LiquidateFailsOnlyInTheSeizure(
      m: Market, p: Position, price: uint256, lltv: uint256, seizedAssets: uint256, repaidShares: uint256)
    requires Sound(m) && p.borrowShares <= m.totalBorrowShares
    ensures Liquidate(m, p, Some(price), lltv, seizedAssets, repaidShares).Success?
       <==> Seize(m, p, price, lltv, seizedAssets, repaidShares).Success?
  {
    hide Down, Up, ToAssetsUp, Seize, RealizeBadDebt, Healthy, DebtsKept;
    var r := Seize(m, p, price, lltv, seizedAssets, repaidShares);
    if r.Success? {
      SeizeFacts(m, p, price, lltv, seizedAssets, repaidShares);
      RealizeBadDebtFacts(r.value.market, r.value.position);
    }
  }

  // ---------------------------------------------------------------- the documented oracle assumption

  /** The new price is no less than price * LLTV * LIF. */
  ghost predicate AllowedDrop(price: nat, price': nat, lltv: uint256) {
    var lif := LiquidationIncentiveFactor(lltv);
    lif.Success? && price * lltv * lif.value <= price' * WAD * WAD
  }

  /** Collateral that passes the health check at `price` is worth the debt times the incentive after the drop. */
  lemma DropLeavesValue(debt: nat, collateral: nat, price: nat, price': nat, lltv: nat, lif: nat)
    requires debt <= MaxBorrow(collateral, price, lltv)
    requires price * lltv * lif <= price' * WAD * WAD
    ensures debt * lif * ORACLE_PRICE_SCALE <= collateral * price' * WAD
  {
    hide Down, Up;
    var value := Down(collateral, price, ORACLE_PRICE_SCALE);
    DownBounds(collateral, price, ORACLE_PRICE_SCALE);
    DownBounds(value, lltv, WAD);
    assert debt * WAD <= value * lltv by {
      MulMonotone(debt, Down(value, lltv, WAD), WAD);
    }
    DropArithmetic(debt, collateral, price, price', lltv, lif, value);
  }

  lemma DropArithmetic(debt: nat, collateral: nat, price: nat, price': nat, lltv: nat, lif: nat, value: nat)
    requires debt * WAD <= value * lltv
    requires value * ORACLE_PRICE_SCALE <= collateral * price
    requires price * lltv * lif <= price' * WAD * WAD
    ensures debt * lif * ORACLE_PRICE_SCALE <= collateral * price' * WAD
  {
    calc <= {
      debt * lif * ORACLE_PRICE_SCALE * WAD;
      { assert debt * lif * ORACLE_PRICE_SCALE * WAD == (debt * WAD) * (lif * ORACLE_PRICE_SCALE);
        MulMonotone(debt * WAD, value * lltv, lif * ORACLE_PRICE_SCALE); }
      (value * lltv) * (lif * ORACLE_PRICE_SCALE);
      { assert (value * lltv) * (lif * ORACLE_PRICE_SCALE) == (value * ORACLE_PRICE_SCALE) * (lltv * lif);
        MulMonotone(value * ORACLE_PRICE_SCALE, collateral * price, lltv * lif); }
      (collateral * price) * (lltv * lif);
      { assert (collateral * price) * (lltv * lif) == (price * lltv * lif) * collateral;
        MulMonotone(price * lltv * lif, price' * WAD * WAD, collateral); }
      (price' * WAD * WAD) * collateral;
      { assert (price' * WAD * WAD) * collateral == collateral * price' * WAD * WAD; }
      collateral * price' * WAD * WAD;
    }
    MulCancel(debt * lif * ORACLE_PRICE_SCALE, collateral * price' * WAD, WAD);
  }

  /** A debt that is covered by a value of collateral, with the incentive, is covered by the repayment for it. */
  lemma ValueCovers(
      debt: nat, value: nat, quoted: nat, repaid: nat, held: nat, shares: nat, lif: nat, a: nat, s: nat, scale: nat,
      one: nat)
    requires debt * lif * scale <= value * one && value <= quoted * scale && quoted * one <= repaid * lif
    requires repaid * s <= shares * a && held * a <= debt * s
    requires lif > 0 && scale > 0 && a > 0
    ensures held <= shares
  {
    MulMonotone(value, quoted * scale, one);
    MulMonotone(quoted * one, repaid * lif, scale);
    assert quoted * scale * one == quoted * one * scale;
    MulCancel(debt * lif, repaid * lif, scale);
    MulCancel(debt, repaid, lif);
    MulMonotone(debt, repaid, s);
    MulCancel(held, shares, a);
  }

  lemma GivenSeizureCovers(
      held: nat, seized: nat, price: nat, lif: nat, a: nat, s: nat, scale: nat, one: nat)
    requires lif > 0 && a > 0 && s > 0 && scale > 0
    requires Up(held, a, s) * lif * scale <= seized * price * one
    ensures held <= Up(Up(Up(seized, price, scale), one, lif), s, a)
  {
    hide Up;
    var quoted := Up(seized, price, scale);
    var repaid := Up(quoted, one, lif);
    UpBounds(held, a, s);
    UpBounds(seized, price, scale);
    UpBounds(quoted, one, lif);
    UpBounds(repaid, s, a);
    ValueCovers(Up(held, a, s), seized * price, quoted, repaid, held, Up(repaid, s, a), lif, a, s, scale, one);
  }

  lemma GivenRepaymentCovers(
      held: nat, shares: nat, price: nat, lif: nat, a: nat, s: nat, scale: nat, one: nat)
    requires price > 0 && lif > 0 && a > 0 && s > 0 && scale > 0 && one > 0
    requires Up(held, a, s) * lif * scale
      <= Down(Down(Down(shares, a, s), lif, one), scale, price) * price * one
    ensures held <= shares
  {
    hide Up, Down;
    var repaid := Down(shares, a, s);
    var quoted := Down(repaid, lif, one);
    var seized := Down(quoted, scale, price);
    UpBounds(held, a, s);
    DownBounds(shares, a, s);
    DownBounds(repaid, lif, one);
    DownBounds(quoted, scale, price);
    ValueCovers(Up(held, a, s), seized * price, quoted, repaid, held, shares, lif, a, s, scale, one);
  }

  /** Seizing all of that collateral takes the whole debt with it, on both input paths. */
  lemma FullSeizureRepaysAll(
      m: Market, p: Position, price: uint256, lif: uint256, seizedAssets: uint256, repaidShares: uint256,
      amounts: Amounts)
    ensures LiquidationAmounts(m, price, lif, seizedAssets, repaidShares) == Success(amounts)
      && amounts.assets == p.collateral && lif > 0
      && Debt(m, p.borrowShares) * lif * ORACLE_PRICE_SCALE <= p.collateral * price * WAD
      ==> p.borrowShares <= amounts.shares
  {
    hide Down, Up, LiquidationAmounts, LiquidationFits;
    LiquidationAmountsExactly(m, price, lif, seizedAssets, repaidShares);
    var a, s := m.totalBorrowAssets + VIRTUAL_ASSETS, m.totalBorrowShares + VIRTUAL_SHARES;
    if LiquidationAmounts(m, price, lif, seizedAssets, repaidShares) == Success(amounts)
        && amounts.assets == p.collateral && lif > 0
        && Debt(m, p.borrowShares) * lif * ORACLE_PRICE_SCALE <= p.collateral * price * WAD {
      if seizedAssets > 0 {
        GivenSeizureCovers(p.borrowShares, seizedAssets, price, lif, a, s, ORACLE_PRICE_SCALE, WAD);
      } else {
        GivenRepaymentCovers(p.borrowShares, repaidShares, price, lif, a, s, ORACLE_PRICE_SCALE, WAD);
      }
    }
  }

  /**
   * The oracle assumption suffices: a position healthy at `price` and liquidated for the first time at a
   * price' with price' >= price * LLTV * LIF leaves no bad debt, whichever amount the liquidator gives.
   */
  lemma NoBadDebtAfterAllowedDrop(
      m: Market, p: Position, price: nat, price': uint256, lltv: uint256, seizedAssets: uint256, repaidShares: uint256)
    requires Sound(m) && p.borrowShares <= m.totalBorrowShares && lltv < WAD
    requires Healthy(m, p, price, lltv)
    requires AllowedDrop(price, price', lltv)
    ensures Liquidate(m, p, Some(price'), lltv, seizedAssets, repaidShares).Success? ==>
      var l := Liquidate(m, p, Some(price'), lltv, seizedAssets, repaidShares).value;
      && l.badDebtShares == 0 && l.badDebtAssets == 0
      && l.market.totalSupplyAssets == m.totalSupplyAssets
  {
    hide Down, Up;
    if Liquidate(m, p, Some(price'), lltv, seizedAssets, repaidShares).Success? {
      var l := Liquidate(m, p, Some(price'), lltv, seizedAssets, repaidShares).value;
      LiquidateFacts(m, p, Some(price'), lltv, seizedAssets, repaidShares);
      IncentiveFactorBounds(lltv);
      if l.seizedAssets == p.collateral {
        var lif := LiquidationIncentiveFactor(lltv).value;
        DropLeavesValue(Debt(m, p.borrowShares), p.collateral, price, price', lltv, lif);
        var amounts := Amounts(l.seizedAssets, l.repaidShares);
        FullSeizureRepaysAll(m, p, price', lif, seizedAssets, repaidShares, amounts);
      }
    }
  }

  // ---------------------------------------------------------------- interest with the test rate model

  /** Utilization is at most 100%, so a rate over at most a year adds up to at most 1. */
  lemma YearlyRate(m: Market, elapsed: uint256)
    requires m.totalBorrowAssets <= m.totalSupplyAssets && elapsed <= YEAR
    ensures BorrowRateView(m).Success?
    ensures BorrowRateView(m).value * elapsed <= WAD
  {
    hide Down, Up;
    var b, a := m.totalBorrowAssets, m.totalSupplyAssets;
    MulMonotone(b, MAX_UINT128, WAD);
    if a != 0 {
      var utilization := Down(b, WAD, a);
      DownBounds(b, WAD, a);
      MulMonotone(b, a, WAD);
      assert a * WAD == WAD * a;
      MulCancel(utilization, WAD, a);
      DivBounds(utilization, YEAR);
      MulMonotone(elapsed, YEAR, utilization / YEAR);
      assert elapsed * (utilization / YEAR) == utilization / YEAR * elapsed;
      assert YEAR * (utilization / YEAR) == utilization / YEAR * YEAR;
    }
  }

  /** A year's worth of growth multiplies by at most 1 + 1/2 + 1/6. */
  lemma GrowthFactorWithinAYear(f: nat)
    requires f <= WAD
    ensures 3 * Taylor(f) <= 5 * WAD
  {
    DownMonotone(f, f, WAD, WAD, 2 * WAD);
    DownMonotone(Second(f), f, Second(WAD), WAD, 3 * WAD);
  }

  lemma GrowthWithinAYear(b: nat, t: nat)
    requires 3 * t <= 5 * WAD
    ensures 3 * Down(b, t, WAD) <= 5 * b
  {
    hide Down, Up;
    var q := Down(b, t, WAD);
    DownBounds(b, t, WAD);
    MulMonotone(3 * t, 5 * WAD, b);
    assert 3 * t * b == 3 * (b * t);
    assert 5 * WAD * b == 5 * b * WAD;
    MulCancel(3 * q, 5 * b, WAD);
  }

  /** With the test rate model no accrual over up to a year adds more than 5/3 of the borrowed assets. */
  lemma AccrueWithinAYear(m: Market, recipient: Position, env: Env, irm: Address)
    requires Sound(m)
    ensures var r, rate := Accrue(m, recipient, env, irm), BorrowRateView(m);
      rate.Success? && env.rate == Some(rate.value) && r.Success? && env.now <= m.lastUpdate + YEAR ==>
        r.value.market.totalBorrowAssets <= m.totalBorrowAssets + 5 * m.totalBorrowAssets / 3
  {
    hide *;
    BorrowedWithinSupplied(m);
    var r, rate := Accrue(m, recipient, env, irm), BorrowRateView(m);
    if rate.Success? && env.rate == Some(rate.value) && r.Success? && env.now <= m.lastUpdate + YEAR {
      AccrualExactly(m, recipient, env, irm);
      var elapsed := env.now - m.lastUpdate;
      YearlyRate(m, elapsed);
      InterestWithinAYear(m, env, irm, rate.value);
    }
  }

  lemma BorrowedWithinSupplied(m: Market)
    requires Sound(m)
    ensures m.totalBorrowAssets <= m.totalSupplyAssets
  {
  }

  lemma InterestWithinAYear(m: Market, env: Env, irm: Address, rate: nat)
    requires m.lastUpdate <= env.now && env.rate == Some(rate)
    requires rate * (env.now - m.lastUpdate) <= WAD
    ensures Interest(m, env, irm) <= 5 * m.totalBorrowAssets / 3
  {
    hide Down, Taylor;
    var f := rate * (env.now - m.lastUpdate);
    GrowthFactorWithinAYear(f);
    GrowthWithinAYear(m.totalBorrowAssets, Taylor(f));
  }
}
