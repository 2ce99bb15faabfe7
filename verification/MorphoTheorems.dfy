/** What suppliers and borrowers can rely on over whole runs of nested calls. */
module MorphoTheorems {
  import opened Wrappers
  import opened Words
  import opened Totals
  import opened MathLib
  import opened SharesMathLib
  import opened MarketUpdates
  import opened MarketFacts
  import opened MorphoSpec
  import opened MorphoInvariant
  import opened MorphoRuns

  // ---------------------------------------------------------------- bad debt

  /** The bad debt a call realizes in a market: only liquidations do. */
  ghost function BadDebtOf(s: State, c: Call, id: Id): nat {
    if c.action.Liquidate? && c.action.id == id && AccrueState(s, c.env, id).Success? then
      var s1 := AccrueState(s, c.env, id).value;
      match MarketUpdates.Liquidate(s1.MarketOf(id), s1.PositionOf(id, c.action.borrower), c.env.price, id.lltv,
                                    c.action.seizedAssets, c.action.repaidShares)
      case Success(l) => l.badDebtAssets
      case Failure(_) => 0
    else 0
  }

  /** Calls about this market are made at this time and, if the oracle answers, at one of two prices. */
  ghost predicate AtEither(c: Call, id: Id, now: uint256, price: uint256, price': uint256) {
    MarketOfAction(c.action) == Some(id) ==>
      c.env.now == now && (c.env.price.Some? ==> c.env.price.value == price || c.env.price.value == price')
  }

  ghost predicate Liquidates(c: Call, id: Id, user: Address) {
    c.action.Liquidate? && c.action.id == id && c.action.borrower == user
  }

  ghost predicate HealthyAtEither(s: State, id: Id, user: Address, now: uint256, price: uint256, price': uint256) {
    HealthyAt(s, id, user, now, price) || HealthyAt(s, id, user, now, price')
  }

  /**
   * No call but a liquidation of the account takes its health at one of the two prices, whichever of them it is made
   * at.
   */
  lemma HealthAtEitherKept(s: State, frames: seq<Pull>, c: Call, id: Id, user: Address,
                           now: uint256, price: uint256, price': uint256)
    requires Inv(s, frames) && now != 0 && HealthyAtEither(s, id, user, now, price, price')
    requires AtEither(c, id, now, price, price') && !Liquidates(c, id, user)
    ensures var r := Enter(s, c.env, c.sender, c.action);
      r.Success? ==> HealthyAtEither(r.value.state, id, user, now, price, price')
  {
    hide Enter, HealthyAccount, MarketInv, DebtKept;
    var r := Enter(s, c.env, c.sender, c.action);
    if r.Success? {
      InvParts(s, frames);
      var q := if HealthyAccount(s, id, user, price) then price else price';
      if MarketOfAction(c.action) != Some(id) {
        HealthElsewhere(s, c.env, c.sender, c.action, id, user, q);
      } else if (c.action.Borrow? || c.action.WithdrawCollateral?) && c.action.onBehalf == user {
        OwnActionsAreChecked(s, c.env, c.sender, c.action, id, user, if c.env.price == Some(price') then price'
            else price);
      } else {
        DebtKeptInTheMarket(s, c.env, c.sender, c.action, id, user);
        HealthFromDebt(s, r.value.state, id, user, q);
      }
    }
  }

  /**
   * The documented oracle assumption suffices over whole runs. An account is healthy at one price; the price drops,
   * within the block, to no less than price * LLTV * LIF, at any moment of any run of calls by anyone, the account's
   * own and other liquidations included. The first liquidation of the account at the new price, wherever in the run
   * it comes, inside callbacks too, realizes no bad debt and takes nothing from the suppliers, whichever amount is
   * given.
   */
  lemma AllowedDropLeavesNoBadDebt(s: State, frames: seq<Pull>, calls: seq<Call>, i: nat, id: Id, user: Address,
                                   now: uint256, price: uint256, price': uint256)
    requires Inv(s, frames) && now != 0 && HealthyAt(s, id, user, now, price)
    requires i < |Points(s, frames, calls)|
    requires AdmissibleBefore(Points(s, frames, calls), i,
                              (_, c) => AtEither(c, id, now, price, price') && !Liquidates(c, id, user))
    requires AllowedDrop(price, price', id.lltv)
    ensures var v := Points(s, frames, calls)[i];
      v.next.Some? && Liquidates(v.next.value, id, user)
      && v.next.value.env.now == now && v.next.value.env.price == Some(price') ==>
        var c := v.next.value;
        var r := Enter(v.state, c.env, c.sender, c.action);
        && BadDebtOf(v.state, c, id) == 0
        && (r.Success? ==> r.value.state.MarketOf(id).totalSupplyAssets == v.state.MarketOf(id).totalSupplyAssets)
  {
    var p := (t: State) => HealthyAtEither(t, id, user, now, price, price');
    var ok := (_: State, c: Call) => AtEither(c, id, now, price, price') && !Liquidates(c, id, user);
    hide Points, HealthyAt, Inv, BadDebtOf, Enter, AllowedDrop;
    assert StepKeeps(p, ok) && TokenBlind(p) by {
      forall t: State, fs: seq<Pull>, c: Call
        | Inv(t, fs) && p(t) && ok(t, c) && Enter(t, c.env, c.sender, c.action).Success?
        ensures p(Enter(t, c.env, c.sender, c.action).value.state)
      {
        hide HealthyAtEither;
        HealthAtEitherKept(t, fs, c, id, user, now, price, price');
      }
      forall t: State, t': State | p(t) && t' == t.(ledgers := t'.ledgers) ensures p(t') {
        HealthAtEitherIsTokenBlind(t, t', id, user, now, price, price');
      }
    }
    hide StepKeeps, TokenBlind;
    RunKeepsUntil(p, ok, s, frames, calls);
    var v := Points(s, frames, calls)[i];
    if v.next.Some? && Liquidates(v.next.value, id, user) {
      FirstLiquidation(v.state, v.frames, v.next.value, id, user, now, price, price');
    }
  }

  lemma HealthAtEitherIsTokenBlind(
      t: State, t': State, id: Id, user: Address, now: uint256, price: uint256, price': uint256)
    requires HealthyAtEither(t, id, user, now, price, price') && t' == t.(ledgers := t'.ledgers)
    ensures HealthyAtEither(t', id, user, now, price, price')
  {
    hide Healthy;
  }

  lemma FirstLiquidation(s: State, frames: seq<Pull>, c: Call, id: Id, user: Address,
                         now: uint256, price: uint256, price': uint256)
    requires Inv(s, frames) && now != 0 && HealthyAtEither(s, id, user, now, price, price')
    requires Liquidates(c, id, user)
    requires AllowedDrop(price, price', id.lltv)
    ensures c.env.now == now && c.env.price == Some(price') ==>
      var r := Enter(s, c.env, c.sender, c.action);
      && BadDebtOf(s, c, id) == 0
      && (r.Success? ==> r.value.state.MarketOf(id).totalSupplyAssets == s.MarketOf(id).totalSupplyAssets)
  {
    hide Down, Up, Healthy, MarketUpdates.Liquidate, AccrueState, MarketInv, AllowedDrop;
    InvParts(s, frames);
    if c.env.now == now && c.env.price == Some(price') {
      NoTimeNoAccrual(s, c.env, id);
      CreatedBelowWad(s, id);
      SharesWithinTotals(s, id, user);
      InvAt(s, id, user);
      var m, p := s.MarketOf(id), s.PositionOf(id, user);
      if Healthy(m, p, price, id.lltv) {
        NoBadDebtAfterAllowedDrop(m, p, price, price', id.lltv, c.action.seizedAssets, c.action.repaidShares);
      } else {
        LiquidateFacts(m, p, c.env.price, id.lltv, c.action.seizedAssets, c.action.repaidShares);
      }
    }
  }

  lemma CreatedBelowWad(s: State, id: Id)
    requires MarketInv(s) && s.Created(id)
    ensures id.lltv < WAD
  {
  }

  // ---------------------------------------------------------------- the supply share price

  ghost predicate SharePriceLeq(s: State, s': State, id: Id) {
    SupplyPriceLeq(s.MarketOf(id), s'.MarketOf(id))
  }

  /** The share price fell by no more than what taking `lost` off the assets does. */
  ghost predicate SharePriceFellBy(s: State, s': State, id: Id, lost: nat) {
    var m, m' := s.MarketOf(id), s'.MarketOf(id);
    PriceLeq(m.totalSupplyAssets, m.totalSupplyShares, m'.totalSupplyAssets + lost, m'.totalSupplyShares)
  }

  lemma SharePriceTransitive(s: State, s': State, s'': State, id: Id, lost: nat)
    requires SharePriceLeq(s, s', id) && SharePriceFellBy(s', s'', id, lost)
    ensures SharePriceFellBy(s, s'', id, lost)
  {
    var m, m', m'' := s.MarketOf(id), s'.MarketOf(id), s''.MarketOf(id);
    hide PriceLeq;
    PriceLeqTransitive(m.totalSupplyAssets, m.totalSupplyShares, m'.totalSupplyAssets, m'.totalSupplyShares,
                       m''.totalSupplyAssets + lost, m''.totalSupplyShares);
  }

  lemma FellByNothing(s: State, s': State, id: Id)
    ensures SharePriceFellBy(s, s', id, 0) <==> SharePriceLeq(s, s', id)
  {
    hide PriceLeq;
  }

  lemma SharePriceOfSameTotals(s: State, s': State, id: Id)
    requires s'.MarketOf(id).totalSupplyAssets == s.MarketOf(id).totalSupplyAssets
    requires s'.MarketOf(id).totalSupplyShares == s.MarketOf(id).totalSupplyShares
    ensures SharePriceLeq(s, s', id)
  {
  }

  lemma AccrualKeepsSharePrice(s: State, env: Env, id: Id)
    requires MarketInv(s)
    ensures AccrueState(s, env, id).Success? ==> SharePriceLeq(s, AccrueState(s, env, id).value, id)
  {
    hide Accrue, PriceLeq, MarketInv;
    if AccrueState(s, env, id).Success? {
      var m, q := s.MarketOf(id), s.PositionOf(id, s.feeRecipient);
      InvAt(s, id, s.feeRecipient);
      if env.now == m.lastUpdate {
        SharePriceOfSameTotals(s, s, id);
      } else {
        AccrueKeepsPrice(m, q, env, id.irm);
      }
    }
  }

  /**
   * No single call lowers the supply share price of a market but by the bad debt it realizes there: with that debt
   * added back to the assets, the price is at least what it was.
   */
  lemma CallKeepsSharePrice(s: State, frames: seq<Pull>, c: Call, id: Id)
    requires Inv(s, frames)
    ensures var r := Enter(s, c.env, c.sender, c.action);
      r.Success? ==> SharePriceFellBy(s, r.value.state, id, BadDebtOf(s, c, id))
  {
    hide Down, Up, AccrueState, PriceLeq, MarketInv, SupplyPriceLeq, DebtsKept, Healthy, Step, MarketUpdates.Supply,
      MarketUpdates.Withdraw, MarketUpdates.Borrow, MarketUpdates.Repay, MarketUpdates.WithdrawCollateral,
      MarketUpdates.Liquidate, SharePriceFellBy;
    if Enter(s, c.env, c.sender, c.action).Success? {
      var s' := Enter(s, c.env, c.sender, c.action).value.state;
      InvParts(s, frames);
      FellByNothing(s, s', id);
      if MarketOfAction(c.action) != Some(id) {
        OtherMarketsUntouched(s, c.env, c.sender, c.action, id, ZERO_ADDRESS);
        SharePriceOfSameTotals(s, s', id);
      } else if c.action.CreateMarket? || c.action.SupplyCollateral? {
        SharePriceOfSameTotals(s, s', id);
      } else {
        AccrueStep(s, c.env, id);
        AccrualKeepsSharePrice(s, c.env, id);
        var s1 := AccrueState(s, c.env, id).value;
        EnterFollowsAccrual(s, c, id);
        hide Enter, BadDebtOf;
        UpdateKeepsSharePrice(s1, s', c, id, BadDebtOf(s, c, id));
        SharePriceTransitive(s, s1, s', id, BadDebtOf(s, c, id));
      }
    }
  }

  lemma EnterFollowsAccrual(s: State, c: Call, id: Id)
    requires MarketOfAction(c.action) == Some(id) && !c.action.CreateMarket? && !c.action.SupplyCollateral?
    ensures var r, a := Enter(s, c.env, c.sender, c.action), AccrueState(s, c.env, id);
      r.Success? ==> a.Success? && FollowsAccrual(a.value, r.value.state, c, id, BadDebtOf(s, c, id))
  {
    hide AccrueState, MarketUpdates.Supply, MarketUpdates.Withdraw, MarketUpdates.Borrow, MarketUpdates.Repay,
      MarketUpdates.WithdrawCollateral, MarketUpdates.Liquidate;
  }

  /** The update that follows the accrual. */
  ghost predicate FollowsAccrual(s1: State, s': State, c: Call, id: Id, badDebt: nat) {
    (!c.action.Liquidate? ==> badDebt == 0) &&
    match c.action
    case Supply(i, assets, shares, onBehalf) =>
      i == id &&
      var r := MarketUpdates.Supply(s1.MarketOf(id), s1.PositionOf(id, onBehalf), assets, shares);
      r.Success? && s'.MarketOf(id) == r.value.market
    case Withdraw(i, assets, shares, onBehalf, _) =>
      i == id &&
      var r := MarketUpdates.Withdraw(s1.MarketOf(id), s1.PositionOf(id, onBehalf), assets, shares);
      r.Success? && s'.MarketOf(id) == r.value.market
    case Borrow(i, assets, shares, onBehalf, _) =>
      i == id &&
      var r := MarketUpdates.Borrow(s1.MarketOf(id), s1.PositionOf(id, onBehalf), c.env.price, id.lltv, assets, shares);
      r.Success? && s'.MarketOf(id) == r.value.market
    case Repay(i, assets, shares, onBehalf) =>
      i == id &&
      var r := MarketUpdates.Repay(s1.MarketOf(id), s1.PositionOf(id, onBehalf), assets, shares);
      r.Success? && s'.MarketOf(id) == r.value.market
    case Liquidate(i, borrower, seizedAssets, repaidShares) =>
      i == id &&
      var r := MarketUpdates.Liquidate(s1.MarketOf(id), s1.PositionOf(id, borrower), c.env.price, id.lltv, seizedAssets,
          repaidShares);
      r.Success? && s'.MarketOf(id) == r.value.market && r.value.badDebtAssets == badDebt
    case _ =>
      s'.MarketOf(id) == s1.MarketOf(id).(fee := s'.MarketOf(id).fee)
  }

  lemma LosesAtMost(s: State, s': State, id: Id, lost: nat)
    requires s'.MarketOf(id).totalSupplyAssets + lost == s.MarketOf(id).totalSupplyAssets
    requires s'.MarketOf(id).totalSupplyShares == s.MarketOf(id).totalSupplyShares
    ensures SharePriceFellBy(s, s', id, lost)
  {
  }

  lemma LiquidationKeepsSharePrice(s1: State, s': State, c: Call, id: Id, badDebt: nat)
    requires MarketInv(s1) && c.action.Liquidate? && FollowsAccrual(s1, s', c, id, badDebt)
    ensures SharePriceFellBy(s1, s', id, badDebt)
  {
    hide Debt, OwedUp, MarketInv, DebtsKept, Healthy, SharePriceFellBy, MarketUpdates.Liquidate;
    var borrower := c.action.borrower;
    InvAt(s1, id, borrower);
    SharesWithinTotals(s1, id, borrower);
    LiquidateFacts(s1.MarketOf(id), s1.PositionOf(id, borrower), c.env.price, id.lltv, c.action.seizedAssets,
                   c.action.repaidShares);
    LosesAtMost(s1, s', id, badDebt);
  }

  lemma UpdateKeepsSharePrice(s1: State, s': State, c: Call, id: Id, badDebt: nat)
    requires MarketInv(s1) && FollowsAccrual(s1, s', c, id, badDebt)
    ensures SharePriceFellBy(s1, s', id, badDebt)
  {
    hide PaidIn, PaidOut, PriceLeq, MarketInv, DebtsKept, Healthy, MarketUpdates.Supply, MarketUpdates.Withdraw,
      MarketUpdates.Borrow, MarketUpdates.Repay, MarketUpdates.Liquidate;
    var m := s1.MarketOf(id);
    FellByNothing(s1, s', id);
    match c.action {
      case Supply(_, assets, shares, onBehalf) =>
        SupplyFacts(m, s1.PositionOf(id, onBehalf), assets, shares);
      case Withdraw(_, assets, shares, onBehalf, _) =>
        WithdrawFacts(m, s1.PositionOf(id, onBehalf), assets, shares);
      case Borrow(_, assets, shares, onBehalf, _) =>
        BorrowFacts(m, s1.PositionOf(id, onBehalf), c.env.price, id.lltv, assets, shares);
        SharePriceOfSameTotals(s1, s', id);
      case Repay(_, assets, shares, onBehalf) =>
        RepayFacts(m, s1.PositionOf(id, onBehalf), assets, shares);
        SharePriceOfSameTotals(s1, s', id);
      case Liquidate(_, _, _, _) =>
        LiquidationKeepsSharePrice(s1, s', c, id, badDebt);
      case _ =>
        SharePriceOfSameTotals(s1, s', id);
    }
  }

  /** The supply share price never falls over a run in which no liquidation realizes bad debt in the market. */
  lemma SharePriceNeverFalls(s: State, frames: seq<Pull>, calls: seq<Call>, id: Id)
    requires Inv(s, frames)
    requires AdmissibleAlong(Points(s, frames, calls), (t, c) => BadDebtOf(t, c, id) == 0)
    ensures forall i :: 0 <= i < |Points(s, frames, calls)| ==> SharePriceLeq(s, Points(s, frames, calls)[i].state, id)
    ensures RunAll(s, calls).Success? ==> SharePriceLeq(s, RunAll(s, calls).value, id)
  {
    var p := (t: State) => SharePriceLeq(s, t, id);
    var ok := (t: State, c: Call) => BadDebtOf(t, c, id) == 0;
    assert StepKeeps(p, ok) by {
      forall t: State, fs: seq<Pull>, c: Call
        | Inv(t, fs) && p(t) && ok(t, c) && Enter(t, c.env, c.sender, c.action).Success?
        ensures p(Enter(t, c.env, c.sender, c.action).value.state)
      {
        hide Inv, SharePriceLeq, SharePriceFellBy, BadDebtOf, Enter;
        var t' := Enter(t, c.env, c.sender, c.action).value.state;
        CallKeepsSharePrice(t, fs, c, id);
        SharePriceTransitive(s, t, t', id, 0);
        FellByNothing(s, t', id);
      }
    }
    SharePriceOfSameTotals(s, s, id);
    hide Points, Inv, StepKeeps, SharePriceLeq, BadDebtOf;
    RunKeeps(p, ok, s, frames, calls);
  }

  // ---------------------------------------------------------------- who may change a position

  ghost predicate NoDelegate(s: State, user: Address) {
    forall delegate: Address :: (user, delegate) !in s.isAuthorized
  }

  /** The user calls, or a signature of theirs is used. */
  ghost predicate ActsFor(c: Call, user: Address) {
    c.sender == user || (c.action.SetAuthorizationWithSig? && c.action.signatory == user)
  }

  /** No fewer supply shares and no more debt; and no less collateral unless that is not asked for. */
  ghost predicate NoWorse(s: State, s': State, id: Id, user: Address, collateralToo: bool) {
    var p, p' := s.PositionOf(id, user), s'.PositionOf(id, user);
    && p.supplyShares <= p'.supplyShares
    && p'.borrowShares <= p.borrowShares
    && (collateralToo ==> p.collateral <= p'.collateral)
  }

  lemma AccrualKeepsPosition(s: State, env: Env, id: Id, user: Address)
    ensures AccrueState(s, env, id).Success? ==>
      var s' := AccrueState(s, env, id).value;
      && s'.PositionOf(id, user) == s.PositionOf(id, user).(supplyShares := s'.PositionOf(id, user).supplyShares)
      && s.PositionOf(id, user).supplyShares <= s'.PositionOf(id, user).supplyShares
      && s'.isAuthorized == s.isAuthorized
  {
    hide Down, Up, Accrue;
    if AccrueState(s, env, id).Success? {
      AccrueFacts(s.MarketOf(id), s.PositionOf(id, s.feeRecipient), env, id.irm);
    }
  }

  /** A liquidation leaves the borrower with no more debt and everyone else's position as it was. */
  lemma LiquidationTakesNoShares(s: State, frames: seq<Pull>, c: Call, id: Id, user: Address)
    requires Inv(s, frames)
    requires c.action.Liquidate? && c.action.id == id
    ensures Enter(s, c.env, c.sender, c.action).Success? ==>
      NoWorse(s, Enter(s, c.env, c.sender, c.action).value.state, id, user, c.action.borrower != user)
  {
    hide Down, Up, Inv, AccrueState, MarketInv, MarketUpdates.Liquidate;
    if Enter(s, c.env, c.sender, c.action).Success? {
      AccrualKeepsPosition(s, c.env, id, user);
      var s1 := AccrueState(s, c.env, id).value;
      InvParts(s, frames);
      AccrueStep(s, c.env, id);
      InvAt(s1, id, user);
      SharesWithinTotals(s1, id, c.action.borrower);
      LiquidateFacts(s1.MarketOf(id), s1.PositionOf(id, c.action.borrower), c.env.price, id.lltv,
                     c.action.seizedAssets, c.action.repaidShares);
    }
  }

  lemma SuppliesAndRepaymentsDoNoHarm(s: State, c: Call, user: Address)
    requires c.action.Supply? || c.action.Repay?
    ensures Enter(s, c.env, c.sender, c.action).Success? ==>
      NoWorse(s, Enter(s, c.env, c.sender, c.action).value.state, c.action.id, user, true)
  {
    hide Down, Up, AccrueState, MarketUpdates.Supply, MarketUpdates.Repay, DebtsKept, SupplyPriceLeq;
    if Enter(s, c.env, c.sender, c.action).Success? {
      var id := c.action.id;
      AccrualKeepsPosition(s, c.env, id, user);
      var s1 := AccrueState(s, c.env, id).value;
      SupplyFacts(s1.MarketOf(id), s1.PositionOf(id, c.action.onBehalf), c.action.assets, c.action.shares);
      RepayFacts(s1.MarketOf(id), s1.PositionOf(id, c.action.onBehalf), c.action.assets, c.action.shares);
    }
  }

  lemma PermittedCallsAreNotMade(s: State, c: Call, user: Address)
    requires c.action.Withdraw? || c.action.Borrow? || c.action.WithdrawCollateral?
    requires NoDelegate(s, user) && c.sender != user
    ensures Enter(s, c.env, c.sender, c.action).Success? ==>
      NoWorse(s, Enter(s, c.env, c.sender, c.action).value.state, c.action.id, user, true)
  {
    hide Down, Up, AccrueState, MarketUpdates.Withdraw, MarketUpdates.Borrow, MarketUpdates.WithdrawCollateral;
    AccrualKeepsPosition(s, c.env, c.action.id, user);
  }

  lemma OtherCallsDoNoHarm(s: State, c: Call, user: Address)
    requires c.action.SetFee? || c.action.CreateMarket? || c.action.SupplyCollateral? || c.action.AccrueInterest?
    ensures Enter(s, c.env, c.sender, c.action).Success? ==>
      NoWorse(s, Enter(s, c.env, c.sender, c.action).value.state, c.action.id, user, true)
  {
    hide Down, Up, AccrueState;
    AccrualKeepsPosition(s, c.env, c.action.id, user);
  }

  /** Supplying and repaying for someone, and other calls that need no permission, do not harm them. */
  lemma UnpermittedCallsDoNoHarm(s: State, c: Call, id: Id, user: Address)
    requires MarketOfAction(c.action) == Some(id) && !c.action.Liquidate?
    requires NoDelegate(s, user) && c.sender != user
    ensures Enter(s, c.env, c.sender, c.action).Success? ==>
      NoWorse(s, Enter(s, c.env, c.sender, c.action).value.state, id, user, true)
  {
    hide Enter, NoDelegate, NoWorse;
    if c.action.Supply? || c.action.Repay? {
      SuppliesAndRepaymentsDoNoHarm(s, c, user);
    } else if c.action.Withdraw? || c.action.Borrow? || c.action.WithdrawCollateral? {
      PermittedCallsAreNotMade(s, c, user);
    } else {
      OtherCallsDoNoHarm(s, c, user);
    }
  }

  /**
   * Without the user acting or having a delegate, a call can only add to their shares, pay their debt, or liquidate
   * them.
   */
  lemma OthersCannotHarm(s: State, frames: seq<Pull>, c: Call, id: Id, user: Address)
    requires Inv(s, frames)
    requires NoDelegate(s, user) && !ActsFor(c, user)
    ensures Enter(s, c.env, c.sender, c.action).Success? ==>
      var s' := Enter(s, c.env, c.sender, c.action).value.state;
      && NoDelegate(s', user)
      && NoWorse(s, s', id, user, !(c.action.Liquidate? && c.action.id == id && c.action.borrower == user))
  {
    hide Inv, Enter, NoDelegate;
    if Enter(s, c.env, c.sender, c.action).Success? {
      DelegatesUnchanged(s, c, user);
      if MarketOfAction(c.action) != Some(id) {
        OtherMarketsUntouched(s, c.env, c.sender, c.action, id, user);
      } else if c.action.Liquidate? {
        LiquidationTakesNoShares(s, frames, c, id, user);
      } else {
        UnpermittedCallsDoNoHarm(s, c, id, user);
      }
    }
  }

  lemma AuthorizationsKeptInMarkets(s: State, c: Call)
    requires c.action.Supply? || c.action.Withdraw? || c.action.Borrow? || c.action.Repay?
          || c.action.WithdrawCollateral? || c.action.Liquidate?
    ensures Enter(s, c.env, c.sender, c.action).Success? ==>
      Enter(s, c.env, c.sender, c.action).value.state.isAuthorized == s.isAuthorized
  {
    hide Down, Up, AccrueState, MarketUpdates.Supply, MarketUpdates.Withdraw, MarketUpdates.Borrow,
      MarketUpdates.Repay, MarketUpdates.SupplyCollateral, MarketUpdates.WithdrawCollateral, MarketUpdates.Liquidate;
    if Enter(s, c.env, c.sender, c.action).Success? {
      AccrualKeepsPosition(s, c.env, c.action.id, ZERO_ADDRESS);
    }
  }

  /** Market operations and token calls leave all authorizations alone. */
  lemma AuthorizationsKept(s: State, c: Call)
    requires !c.action.SetAuthorization? && !c.action.SetAuthorizationWithSig?
    ensures Enter(s, c.env, c.sender, c.action).Success? ==>
      Enter(s, c.env, c.sender, c.action).value.state.isAuthorized == s.isAuthorized
  {
    hide Down, Up, AccrueState, MarketUpdates.Supply, MarketUpdates.Withdraw, MarketUpdates.Borrow,
      MarketUpdates.Repay, MarketUpdates.SupplyCollateral, MarketUpdates.WithdrawCollateral, MarketUpdates.Liquidate;
    if Enter(s, c.env, c.sender, c.action).Success? {
      if c.action.Supply? || c.action.Withdraw? || c.action.Borrow? || c.action.Repay?
         || c.action.WithdrawCollateral? || c.action.Liquidate?
      {
        AuthorizationsKeptInMarkets(s, c);
      } else if c.action.SetFee? || c.action.AccrueInterest? {
        hide AccrueState;
        AccrualKeepsPosition(s, c.env, c.action.id, ZERO_ADDRESS);
      }
    }
  }

  lemma DelegatesUnchanged(s: State, c: Call, user: Address)
    requires NoDelegate(s, user) && !ActsFor(c, user)
    ensures Enter(s, c.env, c.sender, c.action).Success? ==>
      NoDelegate(Enter(s, c.env, c.sender, c.action).value.state, user)
  {
    if Enter(s, c.env, c.sender, c.action).Success? {
      if c.action.SetAuthorization? || c.action.SetAuthorizationWithSig? {
        var s' := Enter(s, c.env, c.sender, c.action).value.state;
        forall delegate: Address ensures (user, delegate) !in s'.isAuthorized {
          assert (user, delegate) !in s.isAuthorized;
        }
      } else {
        hide Enter;
        AuthorizationsKept(s, c);
      }
    }
  }

  /**
   * An account that does not act, signs nothing and has delegated to no one never loses supply shares and never owes
   * more shares, at any point of any run of others' calls.
   */
  lemma PassiveAccountsAreSafe(s: State, frames: seq<Pull>, calls: seq<Call>, id: Id, user: Address)
    requires Inv(s, frames) && NoDelegate(s, user)
    requires AdmissibleAlong(Points(s, frames, calls), (_, c) => !ActsFor(c, user))
    ensures forall i :: 0 <= i < |Points(s, frames, calls)| ==>
      NoWorse(s, Points(s, frames, calls)[i].state, id, user, false)
    ensures RunAll(s, calls).Success? ==> NoWorse(s, RunAll(s, calls).value, id, user, false)
  {
    hide Down, Up;
    var p := (t: State) => NoDelegate(t, user) && NoWorse(s, t, id, user, false);
    var ok := (t: State, c: Call) => !ActsFor(c, user);
    assert StepKeeps(p, ok) by {
      forall t: State, fs: seq<Pull>, c: Call
        | Inv(t, fs) && p(t) && ok(t, c) && Enter(t, c.env, c.sender, c.action).Success?
        ensures p(Enter(t, c.env, c.sender, c.action).value.state)
      {
        hide Inv, Enter, NoDelegate;
        OthersCannotHarm(t, fs, c, id, user);
      }
    }
    hide Points, Inv, StepKeeps;
    RunKeeps(p, ok, s, frames, calls);
  }

  /** ... and while price and time stand still and they are healthy, they lose no collateral either. */
  lemma PassiveHealthyAccountsKeepCollateral(s: State, frames: seq<Pull>, calls: seq<Call>, id: Id, user: Address,
                                             now: uint256, price: uint256)
    requires Inv(s, frames) && NoDelegate(s, user) && now != 0 && HealthyAt(s, id, user, now, price)
    requires AdmissibleAlong(Points(s, frames, calls), (_, c) => !ActsFor(c, user) && Still(c, id, now, price))
    ensures forall i :: 0 <= i < |Points(s, frames, calls)| ==>
      NoWorse(s, Points(s, frames, calls)[i].state, id, user, true)
    ensures RunAll(s, calls).Success? ==> NoWorse(s, RunAll(s, calls).value, id, user, true)
  {
    hide Healthy;
    var p := (t: State) => PassiveAndHealthy(s, t, id, user, now, price);
    var ok := (_: State, c: Call) => !ActsFor(c, user) && Still(c, id, now, price);
    assert StepKeeps(p, ok) && TokenBlind(p) by {
      hide PassiveAndHealthy;
      forall t: State, fs: seq<Pull>, c: Call
        | Inv(t, fs) && p(t) && ok(t, c) && Enter(t, c.env, c.sender, c.action).Success?
        ensures p(Enter(t, c.env, c.sender, c.action).value.state)
      {
        hide Inv, Enter;
        PassiveHealthyStep(s, t, fs, c, id, user, now, price);
      }
      forall t: State, t': State | p(t) && t' == t.(ledgers := t'.ledgers) ensures p(t') {
        PassiveTokenBlind(s, t, t', id, user, now, price);
      }
    }
    hide Points, Inv, StepKeeps, TokenBlind, HealthyAt;
    RunKeeps(p, ok, s, frames, calls);
  }

  ghost predicate PassiveAndHealthy(s: State, t: State, id: Id, user: Address, now: uint256, price: uint256) {
    NoDelegate(t, user) && HealthyAt(t, id, user, now, price) && NoWorse(s, t, id, user, true)
  }

  lemma PassiveHealthyStep(
      s: State, t: State, frames: seq<Pull>, c: Call, id: Id, user: Address, now: uint256, price: uint256)
    requires Inv(t, frames) && PassiveAndHealthy(s, t, id, user, now, price) && now != 0
    requires !ActsFor(c, user) && Still(c, id, now, price)
    ensures Enter(t, c.env, c.sender, c.action).Success? ==>
      PassiveAndHealthy(s, Enter(t, c.env, c.sender, c.action).value.state, id, user, now, price)
  {
    hide Inv, Enter, NoDelegate, HealthyAccount, ActsFor;
    if Enter(t, c.env, c.sender, c.action).Success? {
      OthersCannotHarm(t, frames, c, id, user);
      HealthyIsNotLiquidated(t, frames, c, id, user, now, price);
      InvParts(t, frames);
      if MarketOfAction(c.action) == Some(id) {
        HealthKeptInTheMarket(t, c.env, c.sender, c.action, id, user, price);
      } else {
        HealthElsewhere(t, c.env, c.sender, c.action, id, user, price);
      }
    }
  }

  lemma PassiveTokenBlind(s: State, t: State, t': State, id: Id, user: Address, now: uint256, price: uint256)
    requires PassiveAndHealthy(s, t, id, user, now, price) && t' == t.(ledgers := t'.ledgers)
    ensures PassiveAndHealthy(s, t', id, user, now, price)
  {
    hide Healthy;
  }

  lemma HealthyIsNotLiquidated(
      s: State, frames: seq<Pull>, c: Call, id: Id, user: Address, now: uint256, price: uint256)
    requires Inv(s, frames) && now != 0 && HealthyAt(s, id, user, now, price) && Still(c, id, now, price)
    ensures Enter(s, c.env, c.sender, c.action).Success? ==>
      !(c.action.Liquidate? && c.action.id == id && c.action.borrower == user)
  {
    hide Inv, Enter, HealthyAccount;
    if Enter(s, c.env, c.sender, c.action).Success? {
      if c.action.Liquidate? && c.action.id == id {
        InvParts(s, frames);
        HealthyIsNotSeized(s, c.env, c.sender, c.action, id, user, price);
      }
    }
  }

  // ---------------------------------------------------------------- debts of others

  /** Calls about the market are made in the block of its last update. */
  ghost predicate SameBlock(c: Call, id: Id, now: uint256) {
    MarketOfAction(c.action) == Some(id) ==> c.env.now == now
  }

  ghost predicate OwesAtMost(s: State, t: State, id: Id, user: Address) {
    NoDelegate(t, user) && DebtKept(s, t, id, user, false)
  }

  lemma DebtStep(s: State, t: State, frames: seq<Pull>, c: Call, id: Id, user: Address)
    requires Inv(t, frames) && OwesAtMost(s, t, id, user) && s.Created(id)
    requires !ActsFor(c, user) && SameBlock(c, id, s.MarketOf(id).lastUpdate)
    ensures Enter(t, c.env, c.sender, c.action).Success? ==>
      OwesAtMost(s, Enter(t, c.env, c.sender, c.action).value.state, id, user)
  {
    hide Inv, NoDelegate, Debt;
    if Enter(t, c.env, c.sender, c.action).Success? {
      DelegatesUnchanged(t, c, user);
      InvParts(t, frames);
      if MarketOfAction(c.action) == Some(id) {
        NotBorrowedFor(t, c, id, user);
        hide Enter;
        DebtKeptInTheMarket(t, c.env, c.sender, c.action, id, user);
      } else {
        hide Enter;
        OtherMarketsUntouched(t, c.env, c.sender, c.action, id, user);
      }
    }
  }

  lemma NotBorrowedFor(s: State, c: Call, id: Id, user: Address)
    requires NoDelegate(s, user) && !ActsFor(c, user)
    ensures Enter(s, c.env, c.sender, c.action).Success? ==> !(c.action.Borrow? && c.action.onBehalf == user)
  {
  }

  /**
   * Within one block the rounded-up debt of an account that does not act and has no delegate never rises, at any point
   * of any run of others' borrowing, repaying and liquidating, bad debt and totals floored at zero included.
   */
  lemma DebtsOfOthersNeverRise(s: State, frames: seq<Pull>, calls: seq<Call>, id: Id, user: Address)
    requires Inv(s, frames) && s.Created(id) && NoDelegate(s, user)
    requires AdmissibleAlong(Points(s, frames, calls), (_, c) => !ActsFor(c, user)
      && SameBlock(c, id, s.MarketOf(id).lastUpdate))
    ensures forall i :: 0 <= i < |Points(s, frames, calls)| ==>
      DebtKept(s, Points(s, frames, calls)[i].state, id, user, false)
    ensures RunAll(s, calls).Success? ==> DebtKept(s, RunAll(s, calls).value, id, user, false)
  {
    hide Down, Up;
    var p := (t: State) => OwesAtMost(s, t, id, user);
    var ok := (_: State, c: Call) => !ActsFor(c, user) && SameBlock(c, id, s.MarketOf(id).lastUpdate);
    hide Debt;
    assert OwesAtMost(s, s, id, user);
    assert StepKeeps(p, ok) && TokenBlind(p) by {
      forall t: State, fs: seq<Pull>, c: Call
        | Inv(t, fs) && p(t) && ok(t, c) && Enter(t, c.env, c.sender, c.action).Success?
        ensures p(Enter(t, c.env, c.sender, c.action).value.state)
      {
        hide Inv, Enter, OwesAtMost;
        DebtStep(s, t, fs, c, id, user);
      }
    }
    hide Points, Inv, StepKeeps, TokenBlind, DebtKept;
    RunKeeps(p, ok, s, frames, calls);
  }

  /** What a user's supply shares redeem for. */
  ghost function Redeemable(s: State, id: Id, user: Address): nat {
    var m := s.MarketOf(id);
    WorthDown(s.PositionOf(id, user).supplyShares, m.totalSupplyAssets, m.totalSupplyShares)
  }

  /** Hence what an untouched supplier can redeem never drops, as long as no bad debt is realized in the market. */
  lemma PassiveSuppliersKeepTheirValue(s: State, frames: seq<Pull>, calls: seq<Call>, id: Id, user: Address)
    requires Inv(s, frames) && NoDelegate(s, user)
    requires AdmissibleAlong(Points(s, frames, calls), (t, c) => !ActsFor(c, user) && BadDebtOf(t, c, id) == 0)
    requires RunAll(s, calls).Success?
    ensures Redeemable(s, id, user) <= Redeemable(RunAll(s, calls).value, id, user)
  {
    var points := Points(s, frames, calls);
    assert AdmissibleAlong(points, (_, c) => !ActsFor(c, user));
    assert AdmissibleAlong(points, (t, c) => BadDebtOf(t, c, id) == 0);
    hide Points, Inv, NoDelegate, AdmissibleAlong;
    PassiveAccountsAreSafe(s, frames, calls, id, user);
    SharePriceNeverFalls(s, frames, calls, id);
    var s' := RunAll(s, calls).value;
    var m, m' := s.MarketOf(id), s'.MarketOf(id);
    WorthMonotone(s.PositionOf(id, user).supplyShares, s'.PositionOf(id, user).supplyShares,
                  m.totalSupplyAssets, m.totalSupplyShares, m'.totalSupplyAssets, m'.totalSupplyShares);
  }

  // ---------------------------------------------------------------- suppliers' claims

  /** What each entry of a column of shares redeems for. */
  ghost function WorthColumn(column: map<(Id, Address), int>, a: nat, s: nat): map<(Id, Address), int>
    requires forall k :: k in column ==> 0 <= column[k]
  {
    map k <- column :: WorthDown(column[k], a, s)
  }

  lemma WorthSuperadditive(x: nat, y: nat, a: nat, s: nat)
    ensures WorthDown(x, a, s) + WorthDown(y, a, s) <= WorthDown(x + y, a, s)
  {
    assert x * (a + 1) + y * (a + 1) == (x + y) * (a + 1);
    DownSuperadditive(x, a + 1, y, a + 1, x + y, a + 1, s + VIRTUAL_SHARES);
  }

  /** Rounding every claim down separately never exceeds rounding their sum down. */
  lemma {:induction false} WorthOfSum(column: map<(Id, Address), int>, a: nat, s: nat)
    requires forall k :: k in column ==> 0 <= column[k]
    ensures 0 <= Total<(Id, Address)>(column)
    ensures Total<(Id, Address)>(WorthColumn(column, a, s)) <= WorthDown(Total<(Id, Address)>(column), a, s)
    decreases |column|
  {
    hide WorthDown;
    TotalNonNegative<(Id, Address)>(column);
    if column != map[] {
      var k :| k in column;
      var rest := column - {k};
      WorthOfSum(rest, a, s);
      TotalRemove<(Id, Address)>(column, k);
      TotalRemove<(Id, Address)>(WorthColumn(column, a, s), k);
      assert WorthColumn(column, a, s) - {k} == WorthColumn(rest, a, s);
      WorthSuperadditive(column[k], Total<(Id, Address)>(rest), a, s);
    } else {
      assert WorthColumn(column, a, s) == map[];
    }
  }

  /** All suppliers' claims together fit into the market's supplied assets. */
  lemma SupplierClaimsFit(s: State, id: Id)
    requires MarketInv(s)
    ensures var m := s.MarketOf(id);
      Total<(Id, Address)>(WorthColumn(SupplyColumn(s, id), m.totalSupplyAssets,
          m.totalSupplyShares)) <= m.totalSupplyAssets
  {
    var m := s.MarketOf(id);
    assert TotalsMatch(s, id);
    WorthOfSum(SupplyColumn(s, id), m.totalSupplyAssets, m.totalSupplyShares);
    ShareOfTotal(m.totalSupplyShares, m.totalSupplyAssets, m.totalSupplyShares);
  }
}
