/**
 * What every operation answers, exactly: when it succeeds, which amounts it converts to, how much collateral a
 * liquidation takes, and what the fee recipient gets.
 */
module MarketAnswers {
  import opened Wrappers
  import opened Words
  import opened Arithmetic
  import opened MathLib
  import opened SharesMathLib
  import opened UtilsLib
  import opened MarketUpdates
  import opened MarketFacts

  // ---------------------------------------------------------------- converted amounts

  /** Paying in, the shares are the most that the assets buy, and the assets the least that buy the shares. */
  lemma PaidInExactly(assets: nat, shares: nat, a: nat, s: nat, n: nat)
    ensures var (paid, counted) := PaidIn(assets, shares, a, s);
      && (assets > 0 ==> paid == assets && (n <= counted <==> n * (a + 1) <= assets * (s + VIRTUAL_SHARES)))
      && (assets == 0 ==> counted == shares && (paid <= n <==> shares * (a + 1) <= n * (s + VIRTUAL_SHARES)))
  {
    hide Down, Up;
    DownGreatest(assets, s + VIRTUAL_SHARES, a + 1, n);
    UpLeast(shares, a + 1, s + VIRTUAL_SHARES, n);
  }

  /** Paying out, the shares are the least that cover the assets, and the assets the most that the shares cover. */
  lemma PaidOutExactly(assets: nat, shares: nat, a: nat, s: nat, n: nat)
    ensures var (paid, counted) := PaidOut(assets, shares, a, s);
      && (assets > 0 ==> paid == assets && (counted <= n <==> assets * (s + VIRTUAL_SHARES) <= n * (a + 1)))
      && (assets == 0 ==> counted == shares && (n <= paid <==> n * (s + VIRTUAL_SHARES) <= shares * (a + 1)))
  {
    hide Down, Up;
    UpLeast(assets, s + VIRTUAL_SHARES, a + 1, n);
    DownGreatest(shares, a + 1, s + VIRTUAL_SHARES, n);
  }

  /** A supplier's deposit buys all the shares it can, and shares are sold at the least price that covers them. */
  lemma SupplyAnswer(m: Market, p: Position, assets: uint256, shares: uint256, n: nat)
    ensures var r := Supply(m, p, assets, shares);
      r.Success? ==>
        var a, s := m.totalSupplyAssets + 1, m.totalSupplyShares + VIRTUAL_SHARES;
        && (assets > 0 ==> r.value.assets == assets)
        && (assets > 0 ==> (n <= r.value.shares <==> n * a <= assets * s))
        && (assets == 0 ==> r.value.shares == shares)
        && (assets == 0 ==> (r.value.assets <= n <==> shares * a <= n * s))
  {
    hide Supply, SupplyPriceLeq;
    SupplyFacts(m, p, assets, shares);
    PaidInExactly(assets, shares, m.totalSupplyAssets, m.totalSupplyShares, n);
  }

  /** A withdrawal takes the fewest shares that cover the assets, and gives the most assets that the shares cover. */
  lemma WithdrawAnswer(m: Market, p: Position, assets: uint256, shares: uint256, n: nat)
    ensures var r := Withdraw(m, p, assets, shares);
      r.Success? ==>
        var a, s := m.totalSupplyAssets + 1, m.totalSupplyShares + VIRTUAL_SHARES;
        && (assets > 0 ==> r.value.assets == assets)
        && (assets > 0 ==> (r.value.shares <= n <==> assets * s <= n * a))
        && (assets == 0 ==> r.value.shares == shares)
        && (assets == 0 ==> (n <= r.value.assets <==> n * s <= shares * a))
  {
    hide Withdraw, SupplyPriceLeq;
    WithdrawFacts(m, p, assets, shares);
    PaidOutExactly(assets, shares, m.totalSupplyAssets, m.totalSupplyShares, n);
  }

  /** A loan costs the fewest shares that cover the assets, and gives the most assets that the shares cover. */
  lemma BorrowAnswer(
      m: Market, p: Position, price: Option<uint256>, lltv: uint256, assets: uint256, shares: uint256, n: nat)
    ensures var r := Borrow(m, p, price, lltv, assets, shares);
      r.Success? ==>
        var a, s := m.totalBorrowAssets + 1, m.totalBorrowShares + VIRTUAL_SHARES;
        && (assets > 0 ==> r.value.assets == assets)
        && (assets > 0 ==> (r.value.shares <= n <==> assets * s <= n * a))
        && (assets == 0 ==> r.value.shares == shares)
        && (assets == 0 ==> (n <= r.value.assets <==> n * s <= shares * a))
  {
    hide Borrow, DebtsKept, Healthy;
    BorrowFacts(m, p, price, lltv, assets, shares);
    PaidOutExactly(assets, shares, m.totalBorrowAssets, m.totalBorrowShares, n);
  }

  /** A repayment burns all the debt shares it buys, and debt shares are burnt at the least price that covers them. */
  lemma RepayAnswer(m: Market, p: Position, assets: uint256, shares: uint256, n: nat)
    ensures var r := Repay(m, p, assets, shares);
      r.Success? ==>
        var a, s := m.totalBorrowAssets + 1, m.totalBorrowShares + VIRTUAL_SHARES;
        && (assets > 0 ==> r.value.assets == assets)
        && (assets > 0 ==> (n <= r.value.shares <==> n * a <= assets * s))
        && (assets == 0 ==> r.value.shares == shares)
        && (assets == 0 ==> (r.value.assets <= n <==> shares * a <= n * s))
  {
    hide Repay, DebtsKept;
    RepayFacts(m, p, assets, shares);
    PaidInExactly(assets, shares, m.totalBorrowAssets, m.totalBorrowShares, n);
  }

  // ---------------------------------------------------------------- when operations succeed

  lemma SupplySucceeds(m: Market, p: Position, assets: uint256, shares: uint256)
    ensures var (paid, minted) := PaidIn(assets, shares, m.totalSupplyAssets, m.totalSupplyShares);
      Supply(m, p, assets, shares).Success? <==>
        && InFits(assets, shares, m.totalSupplyAssets, m.totalSupplyShares)
        && p.supplyShares + minted <= MAX_UINT256
        && m.totalSupplyShares + minted <= MAX_UINT128
        && m.totalSupplyAssets + paid <= MAX_UINT128
  {
    hide AmountsIn, PaidIn, InFits;
    AmountsInAre(assets, shares, m.totalSupplyAssets, m.totalSupplyShares);
  }

  /** Supplied shares can be withdrawn unless they are not the user's, or their worth is lent out. */
  lemma WithdrawSucceeds(m: Market, p: Position, assets: uint256, shares: uint256)
    requires Sound(m) && p.supplyShares <= m.totalSupplyShares
    ensures var (paid, burnt) := PaidOut(assets, shares, m.totalSupplyAssets, m.totalSupplyShares);
      Withdraw(m, p, assets, shares).Success? <==>
        && OutFits(assets, shares, m.totalSupplyAssets, m.totalSupplyShares)
        && burnt <= p.supplyShares
        && paid <= Liquidity(m)
  {
    hide AmountsOut, PaidOut, OutFits;
    AmountsOutAre(assets, shares, m.totalSupplyAssets, m.totalSupplyShares);
  }

  /** Given in shares, nothing else can stand in the way. */
  lemma RedeemingSucceeds(m: Market, p: Position, shares: uint256)
    requires Sound(m) && p.supplyShares <= m.totalSupplyShares
    ensures Withdraw(m, p, 0, shares).Success? <==>
      shares <= p.supplyShares && WorthDown(shares, m.totalSupplyAssets, m.totalSupplyShares) <= Liquidity(m)
  {
    hide Down, Withdraw, Fits;
    WithdrawSucceeds(m, p, 0, shares);
    if shares <= p.supplyShares {
      AnyFits(shares, m.totalSupplyAssets + 1);
    }
  }

  lemma AnyFits(x: uint128, y: nat)
    requires y <= MAX_UINT128 + 1
    ensures Fits(x, y, 0)
  {
    MulMonotone(x, MAX_UINT128, y);
    MulMonotone(y, MAX_UINT128 + 1, MAX_UINT128);
    assert MAX_UINT128 * y == y * MAX_UINT128;
  }

  lemma BorrowSucceeds(m: Market, p: Position, price: Option<uint256>, lltv: uint256, assets: uint256, shares: uint256)
    ensures var (paid, minted) := PaidOut(assets, shares, m.totalBorrowAssets, m.totalBorrowShares);
      Borrow(m, p, price, lltv, assets, shares).Success? <==>
        && OutFits(assets, shares, m.totalBorrowAssets, m.totalBorrowShares)
        && p.borrowShares + minted <= MAX_UINT128 && m.totalBorrowShares + minted <= MAX_UINT128
        && paid <= Liquidity(m)
        && IsHealthy(m.(totalBorrowAssets := m.totalBorrowAssets + paid,
                        totalBorrowShares := m.totalBorrowShares + minted),
                     p.(borrowShares := p.borrowShares + minted), price, lltv) == Success(true)
  {
    hide AmountsOut, PaidOut, OutFits, IsHealthy;
    AmountsOutAre(assets, shares, m.totalBorrowAssets, m.totalBorrowShares);
  }

  /** Anyone can repay up to the shares that are owed. */
  lemma RepaySucceeds(m: Market, p: Position, assets: uint256, shares: uint256)
    requires p.borrowShares <= m.totalBorrowShares
    ensures var (paid, burnt) := PaidIn(assets, shares, m.totalBorrowAssets, m.totalBorrowShares);
      Repay(m, p, assets, shares).Success? <==>
        InFits(assets, shares, m.totalBorrowAssets, m.totalBorrowShares) && burnt <= p.borrowShares
  {
    hide ZeroFloorSub, AmountsIn, PaidIn, InFits, Fits;
    AmountsInAre(assets, shares, m.totalBorrowAssets, m.totalBorrowShares);
  }

  lemma SupplyCollateralAnswer(p: Position, assets: uint256)
    ensures var r := SupplyCollateral(p, assets);
      && (r.Success? <==> p.collateral + assets <= MAX_UINT128)
      && (r.Success? ==> r.value == p.(collateral := p.collateral + assets))
  {
  }

  lemma WithdrawCollateralSucceeds(m: Market, p: Position, price: Option<uint256>, lltv: uint256, assets: uint256)
    ensures WithdrawCollateral(m, p, price, lltv, assets).Success? <==>
      && assets <= p.collateral
      && IsHealthy(m, p.(collateral := p.collateral - assets), price, lltv) == Success(true)
  {
    hide IsHealthy;
  }

  // ---------------------------------------------------------------- health

  /** Without debt the oracle is not asked; with debt it must answer, and the health condition decides. */
  lemma HealthDecided(m: Market, p: Position, price: Option<uint256>, lltv: uint256)
    ensures IsHealthy(m, p, price, lltv) == Success(true) <==>
      p.borrowShares == 0
      || (price.Some? && HealthFits(m, p, price.value, lltv) && Healthy(m, p, price.value, lltv))
  {
    hide Down, Up, IsHealthyAt;
    if price.Some? {
      HealthQuotes(m, p, price.value, lltv);
    }
  }

  // ---------------------------------------------------------------- liquidation

  /** The incentive is 1 / (1 - 0.3 * (1 - lltv)), rounded down, and at most 1.15. */
  lemma IncentiveFactorExactly(lltv: uint256, n: nat)
    ensures var r := LiquidationIncentiveFactor(lltv);
      r.Success? ==>
        && lltv <= WAD
        && (n <= r.value <==>
            && n <= MAX_LIQUIDATION_INCENTIVE_FACTOR
            && n * (WAD - Down(LIQUIDATION_CURSOR, WAD - lltv, WAD)) <= WAD * WAD)
  {
    hide Down, Up, LiquidationIncentiveFactor;
    IncentiveFactorUnfolds(lltv);
    if LiquidationIncentiveFactor(lltv).Success? {
      DownGreatest(WAD, WAD, WAD - Down(LIQUIDATION_CURSOR, WAD - lltv, WAD), n);
    }
  }

  lemma IncentiveFactorUnfolds(lltv: uint256)
    ensures var r := LiquidationIncentiveFactor(lltv);
      r.Success? ==>
        && lltv <= WAD && Down(LIQUIDATION_CURSOR, WAD - lltv, WAD) < WAD
        && r.value == Smaller(MAX_LIQUIDATION_INCENTIVE_FACTOR,
                              Down(WAD, WAD, WAD - Down(LIQUIDATION_CURSOR, WAD - lltv, WAD)))
  {
    hide Down, Up, Fits, MulDivDown, Min, Xor;
    if lltv <= WAD {
      var discount := Down(LIQUIDATION_CURSOR, WAD - lltv, WAD);
      DownQuotient(LIQUIDATION_CURSOR, WAD - lltv, WAD);
      if discount <= WAD {
        DownQuotient(WAD, WAD, WAD - discount);
      }
    }
  }

  /** Rounding up and rounding down are adjoint: one undoes the other as well as whole numbers allow. */
  lemma Adjoint(x: nat, y: nat, d: nat, q: nat)
    requires y > 0 && d > 0
    ensures Up(x, y, d) <= q <==> x <= Down(q, d, y)
  {
    hide Down, Up;
    UpLeast(x, y, d, q);
    DownGreatest(q, d, y, x);
  }

  /** So the collateral seized for some shares is exactly the most whose repayment they cover. */
  lemma SeizedIsTheMost(n: nat, repaid: nat, m: Market, price: nat, lif: nat)
    requires price > 0 && lif > 0
    ensures n <= SeizedFor(repaid, m, price, lif) <==> RepaidFor(n, m, price, lif) <= repaid
  {
    hide Down, Up;
    var a, s := m.totalBorrowAssets + 1, m.totalBorrowShares + VIRTUAL_SHARES;
    var value := Down(repaid, a, s);
    var quoted := Up(n, price, ORACLE_PRICE_SCALE);
    Adjoint(n, price, ORACLE_PRICE_SCALE, Down(value, lif, WAD));
    Adjoint(quoted, WAD, lif, value);
    Adjoint(Up(quoted, WAD, lif), s, a, repaid);
  }

  ghost predicate LiquidationLetThrough(
      m: Market, p: Position, price: nat, lltv: uint256, seizedAssets: nat, repaidShares: nat) {
    var factor := LiquidationIncentiveFactor(lltv);
    && factor.Success? && factor.value > 0
    && HealthFits(m, p, price, lltv) && !Healthy(m, p, price, lltv)
    && LiquidationFits(m, price, factor.value, seizedAssets, repaidShares)
    && (seizedAssets > 0 ==>
        seizedAssets <= p.collateral && RepaidFor(seizedAssets, m, price, factor.value) <= p.borrowShares)
    && (seizedAssets == 0 ==>
        repaidShares <= p.borrowShares && SeizedFor(repaidShares, m, price, factor.value) <= p.collateral)
  }

  /**
   * A liquidation goes through exactly if the position is unhealthy at the price and the amounts are within its debt
   * and its collateral; the realization of bad debt never stands in the way.
   */
  lemma LiquidationSucceeds(
      m: Market, p: Position, price: uint256, lltv: uint256, seizedAssets: uint256, repaidShares: uint256)
    requires Sound(m) && p.borrowShares <= m.totalBorrowShares && lltv < WAD
    ensures Liquidate(m, p, Some(price), lltv, seizedAssets, repaidShares).Success? <==>
      LiquidationLetThrough(m, p, price, lltv, seizedAssets, repaidShares)
  {
    hide Down, Up, Healthy, HealthFits, LiquidationFits, RepaidFor, SeizedFor, IsHealthyAt,
      LiquidationIncentiveFactor, LiquidationAmounts, Liquidate;
    IncentiveFactorBounds(lltv);
    var lif := LiquidationIncentiveFactor(lltv).value;
    LiquidateFailsOnlyInTheSeizure(m, p, price, lltv, seizedAssets, repaidShares);
    HealthQuotes(m, p, price, lltv);
    LiquidationAmountsExactly(m, price, lif, seizedAssets, repaidShares);
    SeizureSucceeds(m, p, price, lltv, seizedAssets, repaidShares);
  }

  lemma SeizureSucceeds(
      m: Market, p: Position, price: uint256, lltv: uint256, seizedAssets: uint256, repaidShares: uint256)
    requires p.borrowShares <= m.totalBorrowShares && LiquidationIncentiveFactor(lltv).Success?
    ensures var lif := LiquidationIncentiveFactor(lltv).value;
      var amounts := LiquidationAmounts(m, price, lif, seizedAssets, repaidShares);
      Seize(m, p, price, lltv, seizedAssets, repaidShares).Success? <==>
        && IsHealthyAt(m, p, price, lltv) == Success(false)
        && amounts.Success? && amounts.value.shares <= p.borrowShares && amounts.value.assets <= p.collateral
  {
    hide Down, Up, Fits, IsHealthyAt, ToAssetsUp, LiquidationIncentiveFactor, LiquidationAmounts, ZeroFloorSub;
    AssetsUp(p.borrowShares, m.totalBorrowAssets, m.totalBorrowShares);
    var lif := LiquidationIncentiveFactor(lltv).value;
    var amounts := LiquidationAmounts(m, price, lif, seizedAssets, repaidShares);
    var healthy := IsHealthyAt(m, p, price, lltv);
    if healthy.Success? && amounts.Success? && amounts.value.shares <= p.borrowShares {
      QuoteOfTheCheck(m, p, price, lltv);
      QuotableMonotone(p.borrowShares, m.totalBorrowAssets, m.totalBorrowShares,
                       amounts.value.shares, m.totalBorrowAssets, m.totalBorrowShares);
    }
  }

  /** What a liquidation takes and repays, from whichever of the two is given. */
  lemma LiquidationAnswer(
      m: Market, p: Position, price: Option<uint256>, lltv: uint256, seizedAssets: uint256, repaidShares: uint256)
    ensures var r := Liquidate(m, p, price, lltv, seizedAssets, repaidShares);
      r.Success? ==>
        && price.Some?
        && LiquidationIncentiveFactor(lltv).Success?
        && var lif := LiquidationIncentiveFactor(lltv).value;
        && (seizedAssets > 0 ==> lif > 0 && r.value.seizedAssets == seizedAssets)
        && (seizedAssets > 0 ==> r.value.repaidShares == RepaidFor(seizedAssets, m, price.value, lif))
        && (seizedAssets == 0 ==> price.value > 0 && r.value.repaidShares == repaidShares)
        && (seizedAssets == 0 ==> r.value.seizedAssets == SeizedFor(repaidShares, m, price.value, lif))
  {
    hide ZeroFloorSub, Down, Up, RepaidFor, SeizedFor, LiquidationIncentiveFactor, LiquidationAmounts,
      LiquidationFits, RealizeBadDebt, IsHealthyAt, ToAssetsUp;
    if Liquidate(m, p, price, lltv, seizedAssets, repaidShares).Success? {
      var lif := LiquidationIncentiveFactor(lltv).value;
      LiquidationAmountsExactly(m, price.value, lif, seizedAssets, repaidShares);
    }
  }

  ghost predicate PositionMoves(p: Position, p': Position, supplyShares: int, borrowShares: int, collateral: int) {
    && p'.supplyShares == p.supplyShares + supplyShares
    && p'.borrowShares == p.borrowShares + borrowShares
    && p'.collateral == p.collateral + collateral
  }

  /** The totals change by these amounts; the fee and the time stay. */
  ghost predicate MarketMoves(
      m: Market, m': Market, supplyAssets: int, supplyShares: int, borrowAssets: int, borrowShares: int) {
    && m'.totalSupplyAssets == m.totalSupplyAssets + supplyAssets
    && m'.totalSupplyShares == m.totalSupplyShares + supplyShares
    && m'.totalBorrowAssets == m.totalBorrowAssets + borrowAssets
    && m'.totalBorrowShares == m.totalBorrowShares + borrowShares
    && m'.fee == m.fee && m'.lastUpdate == m.lastUpdate
  }

  /**
   * The borrower loses the collateral seized and the shares repaid. With the last collateral gone, the remaining shares
   * go too, and what they owe after the repayment, but no more than is borrowed, is taken off both sides: at most what
   * they owed before it.
   */
  ghost predicate LiquidationMoves(
      m: Market, p: Position, m': Market, p': Position, price: nat, lif: nat, seizedAssets: nat, repaidShares: nat,
      seized: nat, paid: nat)
    requires lif > 0 && (seizedAssets == 0 ==> price > 0)
  {
    var repaid := if seizedAssets > 0 then RepaidFor(seizedAssets, m, price, lif) else repaidShares;
    && seized == (if seizedAssets > 0 then seizedAssets else SeizedFor(repaidShares, m, price, lif))
    && paid == Debt(m, repaid)
    && repaid <= p.borrowShares <= m.totalBorrowShares
    && BadDebtMoves(m, p, m', p', repaid, seized, paid)
  }

  ghost predicate BadDebtMoves(m: Market, p: Position, m': Market, p': Position, repaid: nat, seized: nat, paid: nat)
    requires repaid <= p.borrowShares <= m.totalBorrowShares
  {
    var borrowed := if paid < m.totalBorrowAssets then m.totalBorrowAssets - paid else 0;
    var left := if seized == p.collateral then p.borrowShares - repaid else 0;
    var bad := Smaller(borrowed, OwedUp(left, borrowed, m.totalBorrowShares - repaid));
    && bad <= Debt(m, left)
    && PositionMoves(p, p', 0, 0 - repaid - left, 0 - seized)
    && MarketMoves(m, m', 0 - bad, 0, borrowed - bad - m.totalBorrowAssets, 0 - repaid - left)
  }

  lemma LiquidationMovesExactly(
      m: Market, p: Position, price: Option<uint256>, lltv: uint256, seizedAssets: uint256, repaidShares: uint256)
    requires Sound(m) && p.borrowShares <= m.totalBorrowShares && lltv < WAD
    ensures LiquidationIncentiveFactor(lltv).Success? && LiquidationIncentiveFactor(lltv).value > 0
    ensures var r := Liquidate(m, p, price, lltv, seizedAssets, repaidShares);
      r.Success? ==>
        && price.Some? && (seizedAssets == 0 ==> price.value > 0)
        && !Healthy(m, p, price.value, lltv)
        && LiquidationMoves(m, p, r.value.market, r.value.position, price.value, LiquidationIncentiveFactor(lltv).value,
                            seizedAssets, repaidShares, r.value.seizedAssets, r.value.repaidAssets)
  {
    hide Liquidate, DebtsKept, Healthy, RepaidFor, SeizedFor, OwedUp, LiquidationIncentiveFactor, Sound, PriceLeq;
    IncentiveFactorBounds(lltv);
    LiquidateFacts(m, p, price, lltv, seizedAssets, repaidShares);
    LiquidationAnswer(m, p, price, lltv, seizedAssets, repaidShares);
    OwedPositive(0, m.totalBorrowAssets, m.totalBorrowShares);
    var r := Liquidate(m, p, price, lltv, seizedAssets, repaidShares);
    if r.Success? && r.value.seizedAssets != p.collateral {
      var borrowed :=
        if r.value.repaidAssets < m.totalBorrowAssets then m.totalBorrowAssets - r.value.repaidAssets else 0;
      OwedPositive(0, borrowed, m.totalBorrowShares - r.value.repaidShares);
    }
  }

  // ---------------------------------------------------------------- interest

  /** The terms of the growth factor, and the interest with the fee on it, fit into their words. */
  ghost predicate GrowthFits(f: nat) {
    f <= MAX_UINT256 && Fits(f, f, 0) && Fits(Second(f), f, 0) && Taylor(f) <= MAX_UINT256
  }

  ghost predicate InterestFits(m: Market, recipient: Position, interest: nat) {
    var fee := Down(interest, m.fee, WAD);
    && m.totalSupplyAssets + interest <= MAX_UINT128
    && (m.fee > 0 ==>
        && fee <= m.totalSupplyAssets + interest
        && Fits(fee, m.totalSupplyShares + VIRTUAL_SHARES, 0)
        && var minted := Down(fee, m.totalSupplyShares + VIRTUAL_SHARES, m.totalSupplyAssets + interest - fee + 1);
        && recipient.supplyShares + minted <= MAX_UINT256
        && m.totalSupplyShares + minted <= MAX_UINT128)
  }

  ghost predicate AccrualFits(m: Market, recipient: Position, env: Env, irm: Address) {
    && m.lastUpdate <= env.now
    && (env.now == m.lastUpdate || irm == ZERO_ADDRESS ||
        (env.rate.Some?
         && var f := env.rate.value * (env.now - m.lastUpdate);
         && GrowthFits(f) && Fits(m.totalBorrowAssets, Taylor(f), 0)
         && InterestFits(m, recipient, Down(m.totalBorrowAssets, Taylor(f), WAD))))
  }

  lemma GrowthSucceeds(x: uint256, n: uint256)
    ensures WTaylorCompounded(x, n).Success? <==> GrowthFits(x * n)
    ensures GrowthFits(x * n) ==> WTaylorCompounded(x, n).value == Taylor(x * n)
  {
    hide Down, Fits, MulDivDown;
    var f := x * n;
    if f <= MAX_UINT256 {
      DownQuotient(f, f, 2 * WAD);
      if MulDivDown(f, f, 2 * WAD).Success? {
        DownQuotient(Second(f), f, 3 * WAD);
      }
    }
  }

  lemma ChargeFeeSucceeds(m: Market, recipient: Position, interest: uint128)
    requires Sound(m) && interest <= m.totalSupplyAssets
    ensures ChargeFee(m, recipient, interest).Success? <==>
      InterestFits(m.(totalSupplyAssets := m.totalSupplyAssets - interest), recipient, interest)
  {
    hide Down, Fits, MulDivDown, ToSharesDown;
    FeeSubtractionNeverUnderflows(m, interest);
    DownQuotient(interest, m.fee, WAD);
    var fee := Down(interest, m.fee, WAD);
    if fee <= m.totalSupplyAssets {
      SharesDown(fee, m.totalSupplyAssets - fee, m.totalSupplyShares);
    }
  }

  /** An accrual goes through exactly if time has not run backwards, the rate model answers, and the numbers fit. */
  lemma AccrueSucceeds(m: Market, recipient: Position, env: Env, irm: Address)
    requires Sound(m)
    ensures Accrue(m, recipient, env, irm).Success? <==> AccrualFits(m, recipient, env, irm)
  {
    hide Down, Taylor, Fits, MulDivDown, GrowthFits, InterestFits, WTaylorCompounded, ChargeFee;
    if m.lastUpdate < env.now && irm != ZERO_ADDRESS && env.rate.Some? {
      var elapsed: uint256 := env.now - m.lastUpdate;
      GrowthSucceeds(env.rate.value, elapsed);
      var f := env.rate.value * elapsed;
      if GrowthFits(f) {
        var growth := WTaylorCompounded(env.rate.value, elapsed).value;
        DownQuotient(m.totalBorrowAssets, growth, WAD);
        var interest := Down(m.totalBorrowAssets, growth, WAD);
        if m.totalSupplyAssets + interest <= MAX_UINT128 {
          var m1 := m.(totalBorrowAssets := m.totalBorrowAssets + interest,
                       totalSupplyAssets := m.totalSupplyAssets + interest);
          ChargeFeeSucceeds(m1, recipient, interest);
          InterestFitsAnyBorrowed(m, m1.(totalSupplyAssets := m.totalSupplyAssets), recipient, interest);
        } else {
          InterestTooLarge(m, recipient, interest);
        }
      }
    }
  }

  lemma InterestFitsAnyBorrowed(m: Market, m': Market, recipient: Position, interest: nat)
    requires m' == m.(totalBorrowAssets := m'.totalBorrowAssets)
    ensures InterestFits(m', recipient, interest) <==> InterestFits(m, recipient, interest)
  {
  }

  lemma InterestTooLarge(m: Market, recipient: Position, interest: nat)
    requires m.totalSupplyAssets + interest > MAX_UINT128
    ensures !InterestFits(m, recipient, interest)
  {
  }

  /**
   * What the minted shares are worth after the accrual: at most the fee, and less than it only by the roundings, that
   * is by less than one asset and one share.
   */
  lemma FeeSharesAreWorthTheFee(m: Market, recipient: Position, env: Env, irm: Address)
    requires Sound(m)
    ensures var r := Accrue(m, recipient, env, irm);
      r.Success? ==>
        var m', fee := r.value.market, Down(Interest(m, env, irm), m.fee, WAD);
        var minted := m'.totalSupplyShares - m.totalSupplyShares;
        && 0 <= minted && fee <= m'.totalSupplyAssets
        && var worth := WorthDown(minted, m'.totalSupplyAssets, m'.totalSupplyShares);
        && worth <= fee
        && fee * (m'.totalSupplyShares + VIRTUAL_SHARES)
             < (worth + 1) * (m'.totalSupplyShares + VIRTUAL_SHARES) + (m'.totalSupplyAssets - fee + 1)
  {
    hide Down, Accrue, Interest;
    var r := Accrue(m, recipient, env, irm);
    if r.Success? {
      AccrualExactly(m, recipient, env, irm);
      var m', fee := r.value.market, Down(Interest(m, env, irm), m.fee, WAD);
      var a, minted := m'.totalSupplyAssets - fee, m'.totalSupplyShares - m.totalSupplyShares;
      DownBounds(fee, m.totalSupplyShares + VIRTUAL_SHARES, a + 1);
      MintedRedeemForNoMore(a, m.totalSupplyShares, fee, minted);
      MintedRedeemForNearly(a, m.totalSupplyShares, fee, minted, a + 1);
    }
  }

  /** The test rate model answers borrowed / supplied, rounded down, spread over a year. */
  lemma BorrowRateExactly(m: Market, n: nat)
    ensures var r := BorrowRateView(m);
      && (m.totalSupplyAssets == 0 ==> r == Success(0))
      && (m.totalSupplyAssets > 0 && r.Success? ==>
            (n <= r.value <==> n * YEAR * m.totalSupplyAssets <= m.totalBorrowAssets * WAD))
      && r.Success?
  {
    hide Down, Fits, MulDivDown;
    var a, b := m.totalSupplyAssets, m.totalBorrowAssets;
    WadFits(b);
    if a > 0 {
      DownQuotient(b, WAD, a);
      DownGreatest(b, WAD, a, n * YEAR);
      DownGreatest(1, Down(b, WAD, a), YEAR, n);
      QuotientIsDown(Down(b, WAD, a), YEAR);
    }
  }

  lemma WadFits(x: uint128)
    ensures Fits(x, WAD, 0)
  {
  }

  lemma QuotientIsDown(x: nat, d: nat)
    requires d > 0
    ensures x / d == Down(1, x, d)
  {
  }
}
