/** Runs of nested calls, the points they pass through, and what holds at every one of these points. */
module MorphoRuns {
  import opened Wrappers
  import opened Words
  import opened MathLib
  import opened SharesMathLib
  import opened MarketUpdates
  import opened MarketFacts
  import opened MorphoSpec
  import opened MorphoInvariant

  // ---------------------------------------------------------------- points of a run

  /** A point of a run: the storage, the pulls that open callbacks still owe, and the call made next. */
  datatype Point = Point(state: State, frames: seq<Pull>, next: Option<Call>)

  /** All points of a run of calls, those inside callbacks included, whether or not these revert later. */
  ghost function Points(s: State, frames: seq<Pull>, calls: seq<Call>): seq<Point>
    decreases calls, 0
  {
    if calls == [] then [Point(s, frames, None)]
    else
      [Point(s, frames, Some(calls[0]))] + Inside(s, frames, calls[0]) +
      if Perform(s, calls[0]).Failure? && calls[0].mustSucceed then []
      else Points(Execute(s, calls[0]), frames, calls[1..])
  }

  /** The points inside one call: from the moment its callback starts until it returns. */
  ghost function Inside(s: State, frames: seq<Pull>, c: Call): seq<Point>
    decreases c, 1
  {
    match Enter(s, c.env, c.sender, c.action)
    case Failure(_) => []
    case Success(e) =>
      if HasCallback(c.action) then Points(e.state, frames + [e.pull], c.callback)
      else [Point(e.state, frames + [e.pull], None)]
  }

  /** A property that every step of an admissible call keeps, where the invariant holds. */
  ghost predicate StepKeeps(p: State -> bool, admissible: (State, Call) -> bool) {
    forall s: State, frames: seq<Pull>, c: Call ::
      Inv(s, frames) && p(s) && admissible(s, c) && Enter(s, c.env, c.sender, c.action).Success? ==>
        p(Enter(s, c.env, c.sender, c.action).value.state)
  }

  /** A property that does not depend on the tokens. */
  ghost predicate TokenBlind(p: State -> bool) {
    forall s: State, s': State :: p(s) && s' == s.(ledgers := s'.ledgers) ==> p(s')
  }

  ghost predicate AdmissibleAlong(points: seq<Point>, admissible: (State, Call) -> bool) {
    forall i :: 0 <= i < |points| && points[i].next.Some? ==> admissible(points[i].state, points[i].next.value)
  }

  ghost predicate HoldsAlong(points: seq<Point>, p: State -> bool) {
    forall i :: 0 <= i < |points| ==> Inv(points[i].state, points[i].frames) && p(points[i].state)
  }

  lemma AlongConcat(a: seq<Point>, b: seq<Point>, p: State -> bool, admissible: (State, Call) -> bool)
    ensures AdmissibleAlong(a + b, admissible) <==> AdmissibleAlong(a, admissible) && AdmissibleAlong(b, admissible)
    ensures HoldsAlong(a + b, p) <==> HoldsAlong(a, p) && HoldsAlong(b, p)
  {
    assert forall i :: 0 <= i < |a| ==> a[i] == (a + b)[i];
    assert forall i :: 0 <= i < |b| ==> b[i] == (a + b)[|a| + i];
  }

  /** Induction over call trees: what steps keep holds at every point, nested ones included, and at the end. */
  lemma {:induction false} RunKeeps(
      p: State -> bool, admissible: (State, Call) -> bool, s: State, frames: seq<Pull>, calls: seq<Call>)
    requires StepKeeps(p, admissible) && TokenBlind(p)
    requires Inv(s, frames) && p(s)
    requires AdmissibleAlong(Points(s, frames, calls), admissible)
    ensures HoldsAlong(Points(s, frames, calls), p)
    ensures RunAll(s, calls).Success? ==> Inv(RunAll(s, calls).value, frames) && p(RunAll(s, calls).value)
    decreases calls, 0
  {
    hide StepKeeps, TokenBlind, Inv, Enter;
    if calls != [] {
      var c := calls[0];
      var first := [Point(s, frames, Some(c))];
      var inside := Inside(s, frames, c);
      var rest := if Perform(s, c).Failure? && c.mustSucceed then [] else Points(Execute(s, c), frames, calls[1..]);
      assert Points(s, frames, calls) == first + inside + rest;
      AlongConcat(first + inside, rest, p, admissible);
      AlongConcat(first, inside, p, admissible);
      assert first[0].next == Some(c);
      CallKeeps(p, admissible, s, frames, c);
      if Perform(s, c).Success? || !c.mustSucceed {
        RunKeeps(p, admissible, Execute(s, c), frames, calls[1..]);
      }
      assert HoldsAlong(first, p);
    }
  }

  lemma {:induction false} CallKeeps(
      p: State -> bool, admissible: (State, Call) -> bool, s: State, frames: seq<Pull>, c: Call)
    requires StepKeeps(p, admissible) && TokenBlind(p)
    requires Inv(s, frames) && p(s) && admissible(s, c)
    requires AdmissibleAlong(Inside(s, frames, c), admissible)
    ensures HoldsAlong(Inside(s, frames, c), p)
    ensures Inv(Execute(s, c), frames) && p(Execute(s, c))
    decreases c, 1
  {
    hide TokenBlind, Inv, Enter, Settle;
    var r := Enter(s, c.env, c.sender, c.action);
    if r.Success? {
      var e := r.value;
      EnterKeeps(s, frames, c.env, c.sender, c.action);
      assert p(e.state);
      hide StepKeeps;
      if HasCallback(c.action) {
        RunKeeps(p, admissible, e.state, frames + [e.pull], c.callback);
        if RunAll(e.state, c.callback).Success? {
          SettleStep(p, RunAll(e.state, c.callback).value, frames, e.pull);
        }
      } else {
        SettleStep(p, e.state, frames, e.pull);
      }
    }
  }

  lemma SettleStep(p: State -> bool, s: State, frames: seq<Pull>, pull: Pull)
    requires TokenBlind(p) && Inv(s, frames + [pull]) && p(s)
    ensures Settle(s, pull).Success? ==> Inv(Settle(s, pull).value, frames) && p(Settle(s, pull).value)
  {
    if Settle(s, pull).Success? {
      SettleKeeps(s, frames, pull);
      assert Settle(s, pull).value == s.(ledgers := Settle(s, pull).value.ledgers);
    }
  }

  // ---------------------------------------------------------------- up to a point

  ghost predicate AdmissibleBefore(points: seq<Point>, n: nat, admissible: (State, Call) -> bool)
    requires n <= |points|
  {
    forall j :: 0 <= j < n && points[j].next.Some? ==> admissible(points[j].state, points[j].next.value)
  }

  ghost predicate HoldsUntil(points: seq<Point>, p: State -> bool, admissible: (State, Call) -> bool) {
    forall i :: 0 <= i < |points| && AdmissibleBefore(points, i, admissible) ==>
      Inv(points[i].state, points[i].frames) && p(points[i].state)
  }

  lemma UntilConcat(a: seq<Point>, b: seq<Point>, p: State -> bool, admissible: (State, Call) -> bool)
    requires HoldsUntil(a, p, admissible)
    requires AdmissibleAlong(a, admissible) ==> HoldsUntil(b, p, admissible)
    ensures HoldsUntil(a + b, p, admissible)
  {
    hide Inv;
    var c := a + b;
    forall i | 0 <= i < |c| && AdmissibleBefore(c, i, admissible) ensures Inv(c[i].state, c[i].frames)
        && p(c[i].state) {
      if i < |a| {
        assert AdmissibleBefore(a, i, admissible) by {
          assert forall j :: 0 <= j < i ==> a[j] == c[j];
        }
      } else {
        assert forall j :: 0 <= j < |a| ==> a[j] == c[j];
        assert AdmissibleBefore(b, i - |a|, admissible) by {
          assert forall j :: 0 <= j < i - |a| ==> b[j] == c[|a| + j];
        }
      }
    }
  }

  /** Induction up to a point: what admissible steps keep holds at every point that only admissible calls precede. */
  lemma {:induction false} RunKeepsUntil(
    p: State -> bool, admissible: (State, Call) -> bool, s: State, frames: seq<Pull>, calls: seq<Call>)
    requires StepKeeps(p, admissible) && TokenBlind(p)
    requires Inv(s, frames) && p(s)
    ensures HoldsUntil(Points(s, frames, calls), p, admissible)
    decreases calls, 0
  {
    hide StepKeeps, TokenBlind, Inv, Enter;
    if calls != [] {
      var c := calls[0];
      var first := [Point(s, frames, Some(c))];
      var inside := Inside(s, frames, c);
      var rest := if Perform(s, c).Failure? && c.mustSucceed then [] else Points(Execute(s, c), frames, calls[1..]);
      assert Points(s, frames, calls) == first + inside + rest;
      if AdmissibleAlong(first, admissible) {
        assert first[0].next == Some(c);
        CallKeepsUntil(p, admissible, s, frames, c);
      }
      UntilConcat(first, inside, p, admissible);
      AlongConcat(first, inside, p, admissible);
      if AdmissibleAlong(first + inside, admissible) {
        assert first[0].next == Some(c);
        CallKeeps(p, admissible, s, frames, c);
        RunKeepsUntil(p, admissible, Execute(s, c), frames, calls[1..]);
      }
      UntilConcat(first + inside, rest, p, admissible);
    }
  }

  lemma {:induction false} CallKeepsUntil(
    p: State -> bool, admissible: (State, Call) -> bool, s: State, frames: seq<Pull>, c: Call)
    requires StepKeeps(p, admissible) && TokenBlind(p)
    requires Inv(s, frames) && p(s) && admissible(s, c)
    ensures HoldsUntil(Inside(s, frames, c), p, admissible)
    decreases c, 1
  {
    hide TokenBlind, Inv, Enter;
    var r := Enter(s, c.env, c.sender, c.action);
    if r.Success? {
      EnterKeeps(s, frames, c.env, c.sender, c.action);
      assert p(r.value.state);
      hide StepKeeps;
      if HasCallback(c.action) {
        RunKeepsUntil(p, admissible, r.value.state, frames + [r.value.pull], c.callback);
      }
    }
  }

  // ---------------------------------------------------------------- the invariant at every point

  /** The invariant needs no admissibility: any run from a state that has it keeps it. */
  lemma RunKeepsInvariant(s: State, frames: seq<Pull>, calls: seq<Call>)
    requires Inv(s, frames)
    ensures HoldsAlong(Points(s, frames, calls), _ => true)
    ensures RunAll(s, calls).Success? ==> Inv(RunAll(s, calls).value, frames)
  {
    RunKeeps(_ => true, (_, _) => true, s, frames, calls);
  }

  /** Reachability: the invariant holds at every point of every run from genesis. */
  lemma InvariantAtEveryPoint(s: State, calls: seq<Call>, i: nat)
    requires Genesis(s)
    requires i < |Points(s, [], calls)|
    ensures var v := Points(s, [], calls)[i]; Inv(v.state, v.frames)
  {
    GenesisInv(s);
    RunKeepsInvariant(s, [], calls);
  }

  /**
   * Solvency through reentrancy: at every point of every nested run, and for every token, the contract's balance
   * and what open callbacks still owe cover all unborrowed supplies and all collateral.
   */
  lemma SolvencyAtEveryPoint(s: State, calls: seq<Call>, i: nat, token: Address)
    requires Genesis(s)
    requires i < |Points(s, [], calls)|
    ensures var v := Points(s, [], calls)[i];
      Liabilities(v.state, token) <= v.state.Balance(token, MORPHO) + Pending(v.frames, token)
  {
    InvariantAtEveryPoint(s, calls, i);
    var v := Points(s, [], calls)[i];
    assert Solvent(v.state, v.frames, token);
  }

  /** At top level nothing is pending, so the balance alone covers the liabilities. */
  lemma SolvencyAtTopLevel(s: State, calls: seq<Call>, token: Address)
    requires Genesis(s) && RunAll(s, calls).Success?
    ensures Liabilities(RunAll(s, calls).value, token) <= RunAll(s, calls).value.Balance(token, MORPHO)
  {
    GenesisInv(s);
    RunKeepsInvariant(s, [], calls);
    assert Solvent(RunAll(s, calls).value, [], token);
  }

  /** Always collateralised: nowhere in any run does an account owe shares without having collateral. */
  lemma CollateralisedAtEveryPoint(s: State, calls: seq<Call>, i: nat, id: Id, user: Address)
    requires Genesis(s)
    requires i < |Points(s, [], calls)|
    ensures var p := Points(s, [], calls)[i].state.PositionOf(id, user);
      p.borrowShares > 0 ==> p.collateral > 0
  {
    InvariantAtEveryPoint(s, calls, i);
    InvAt(Points(s, [], calls)[i].state, id, user);
  }

  // ---------------------------------------------------------------- health

  function MarketOfAction(action: Action): Option<Id> {
    match action
    case SetFee(id, _) => Some(id)
    case CreateMarket(id) => Some(id)
    case Supply(id, _, _, _) => Some(id)
    case Withdraw(id, _, _, _, _) => Some(id)
    case Borrow(id, _, _, _, _) => Some(id)
    case Repay(id, _, _, _) => Some(id)
    case SupplyCollateral(id, _, _) => Some(id)
    case WithdrawCollateral(id, _, _, _) => Some(id)
    case Liquidate(id, _, _, _) => Some(id)
    case AccrueInterest(id) => Some(id)
    case _ => None
  }

  /** Calls about this market are made at this time and, if the oracle answers, at this price. */
  ghost predicate Still(c: Call, id: Id, now: uint256, price: uint256) {
    MarketOfAction(c.action) == Some(id) ==>
      c.env.now == now && (c.env.price.Some? ==> c.env.price.value == price)
  }

  ghost predicate HealthyAccount(s: State, id: Id, user: Address, price: nat) {
    Healthy(s.MarketOf(id), s.PositionOf(id, user), price, id.lltv)
  }

  lemma OthersUntouchedOnTheSupplySide(s: State, env: Env, sender: Caller, action: Action, id: Id, user: Address)
    requires MarketOfAction(action) != Some(id)
    requires action.Supply? || action.Withdraw? || action.SetFee? || action.AccrueInterest?
    ensures Enter(s, env, sender, action).Success? ==>
      var s' := Enter(s, env, sender, action).value.state;
      s'.MarketOf(id) == s.MarketOf(id) && s'.PositionOf(id, user) == s.PositionOf(id, user)
  {
    hide AccrueState, MarketUpdates.Supply, MarketUpdates.Withdraw;
    if Enter(s, env, sender, action).Success? {
      AccrualElsewhere(s, env, action.id, id, user);
    }
  }

  lemma OthersUntouchedOnTheBorrowSide(s: State, env: Env, sender: Caller, action: Action, id: Id, user: Address)
    requires MarketOfAction(action) != Some(id)
    requires action.Borrow? || action.Repay? || action.WithdrawCollateral? || action.Liquidate?
    ensures Enter(s, env, sender, action).Success? ==>
      var s' := Enter(s, env, sender, action).value.state;
      s'.MarketOf(id) == s.MarketOf(id) && s'.PositionOf(id, user) == s.PositionOf(id, user)
  {
    hide AccrueState, MarketUpdates.Borrow, MarketUpdates.Repay, MarketUpdates.WithdrawCollateral,
      MarketUpdates.Liquidate;
    if Enter(s, env, sender, action).Success? {
      AccrualElsewhere(s, env, action.id, id, user);
    }
  }

  /** A call about one market leaves every other market and the positions in it alone. */
  lemma OtherMarketsUntouched(s: State, env: Env, sender: Caller, action: Action, id: Id, user: Address)
    requires MarketOfAction(action) != Some(id)
    ensures Enter(s, env, sender, action).Success? ==>
      var s' := Enter(s, env, sender, action).value.state;
      s'.MarketOf(id) == s.MarketOf(id) && s'.PositionOf(id, user) == s.PositionOf(id, user)
  {
    hide AccrueState, MarketUpdates.Supply, MarketUpdates.Withdraw, MarketUpdates.Borrow, MarketUpdates.Repay,
      MarketUpdates.SupplyCollateral, MarketUpdates.WithdrawCollateral, MarketUpdates.Liquidate;
    if Enter(s, env, sender, action).Success? {
      if action.Supply? || action.Withdraw? || action.SetFee? || action.AccrueInterest? {
        OthersUntouchedOnTheSupplySide(s, env, sender, action, id, user);
      } else if action.Borrow? || action.Repay? || action.WithdrawCollateral? || action.Liquidate? {
        OthersUntouchedOnTheBorrowSide(s, env, sender, action, id, user);
      }
    }
  }

  lemma AccrualElsewhere(s: State, env: Env, other: Id, id: Id, user: Address)
    requires other != id
    ensures AccrueState(s, env, other).Success? ==>
      var s' := AccrueState(s, env, other).value;
      && s'.MarketOf(id) == s.MarketOf(id) && s'.PositionOf(id, user) == s.PositionOf(id, user)
      && s'.isAuthorized == s.isAuthorized
  {
    hide Accrue;
  }

  /** Within one block an accrual changes nothing. */
  lemma NoTimeNoAccrual(s: State, env: Env, id: Id)
    requires env.now == s.MarketOf(id).lastUpdate
    ensures AccrueState(s, env, id) == Success(s)
  {
  }


  /**
   * The debt of an account rounded up is at most what it was, the market's time is the same, and so may be the
   * collateral.
   */
  ghost predicate DebtKept(s: State, s': State, id: Id, user: Address, collateralToo: bool) {
    var m, q, m', q' := s.MarketOf(id), s.PositionOf(id, user), s'.MarketOf(id), s'.PositionOf(id, user);
    && Debt(m', q'.borrowShares) <= Debt(m, q.borrowShares)
    && m'.lastUpdate == m.lastUpdate
    && (collateralToo ==> q.collateral <= q'.collateral)
  }

  /** Supplying, withdrawing and administration do not touch debts at all. */
  lemma DebtKeptBySuppliers(s: State, env: Env, sender: Caller, action: Action, id: Id, user: Address)
    requires MarketInv(s)
    requires MarketOfAction(action) == Some(id)
    requires !action.Borrow? && !action.Repay? && !action.Liquidate? && !action.SupplyCollateral?
      && !action.WithdrawCollateral?
    requires env.now == s.MarketOf(id).lastUpdate && s.Created(id)
    ensures Enter(s, env, sender, action).Success? ==>
      DebtKept(s, Enter(s, env, sender, action).value.state, id, user, true)
  {
    hide Down, Up, Healthy, MarketInv, AccrueState, SupplyPriceLeq, MarketUpdates.Supply, MarketUpdates.Withdraw,
      OwedUp;
    if Enter(s, env, sender, action).Success? {
      NoTimeNoAccrual(s, env, id);
      if action.Supply? {
        SupplyFacts(s.MarketOf(id), s.PositionOf(id, action.onBehalf), action.assets, action.shares);
      } else if action.Withdraw? {
        WithdrawFacts(s.MarketOf(id), s.PositionOf(id, action.onBehalf), action.assets, action.shares);
      }
    }
  }

  /** Borrowing and repaying raise no one else's debt, the latter even when the total is floored at zero. */
  lemma DebtKeptByDebtors(s: State, env: Env, sender: Caller, action: Action, id: Id, user: Address)
    requires MarketInv(s)
    requires MarketOfAction(action) == Some(id)
    requires (action.Borrow? && action.onBehalf != user) || action.Repay?
    requires env.now == s.MarketOf(id).lastUpdate && s.Created(id)
    ensures Enter(s, env, sender, action).Success? ==>
      DebtKept(s, Enter(s, env, sender, action).value.state, id, user, true)
  {
    hide Down, Up, Healthy, MarketInv, AccrueState, SupplyPriceLeq, Debt, MarketUpdates.Borrow, MarketUpdates.Repay;
    if Enter(s, env, sender, action).Success? {
      NoTimeNoAccrual(s, env, id);
      var s' := Enter(s, env, sender, action).value.state;
      var m, q := s.MarketOf(id), s.PositionOf(id, user);
      var m', q' := s'.MarketOf(id), s'.PositionOf(id, user);
      SharesWithinTotals(s, id, user);
      if action.Borrow? {
        BorrowFacts(m, s.PositionOf(id, action.onBehalf), env.price, id.lltv, action.assets, action.shares);
      } else {
        RepayFacts(m, s.PositionOf(id, action.onBehalf), action.assets, action.shares);
        if user != action.onBehalf { TwoShareWithinTotals(s, id, user, action.onBehalf); }
        DebtOfFewerShares(m, q'.borrowShares, q.borrowShares);
        SharesAfterBurn(m, q, m', q');
      }
    }
  }

  lemma DebtKeptByCollateral(s: State, env: Env, sender: Caller, action: Action, id: Id, user: Address)
    requires MarketInv(s)
    requires MarketOfAction(action) == Some(id)
    requires action.SupplyCollateral? || action.WithdrawCollateral?
    requires env.now == s.MarketOf(id).lastUpdate && s.Created(id)
    ensures Enter(s, env, sender, action).Success? ==>
      DebtKept(s, Enter(s, env, sender, action).value.state, id, user,
          !(action.WithdrawCollateral? && action.onBehalf == user))
  {
    hide Down, Up, Healthy, MarketInv, AccrueState, SupplyPriceLeq, Debt, MarketUpdates.WithdrawCollateral;
    if Enter(s, env, sender, action).Success? {
      NoTimeNoAccrual(s, env, id);
      var s' := Enter(s, env, sender, action).value.state;
      var m, q := s.MarketOf(id), s.PositionOf(id, user);
      var m', q' := s'.MarketOf(id), s'.PositionOf(id, user);
      if action.WithdrawCollateral? {
        WithdrawCollateralFacts(m, s.PositionOf(id, action.onBehalf), env.price, id.lltv, action.assets);
      }
    }
  }

  /** Liquidating one account raises no one's debt, bad debt included. */
  lemma DebtKeptByLiquidators(s: State, env: Env, sender: Caller, action: Action, id: Id, user: Address)
    requires MarketInv(s)
    requires MarketOfAction(action) == Some(id)
    requires action.Liquidate?
    requires env.now == s.MarketOf(id).lastUpdate && s.Created(id)
    ensures Enter(s, env, sender, action).Success? ==>
      DebtKept(s, Enter(s, env, sender, action).value.state, id, user, action.borrower != user)
  {
    hide Down, Up, Healthy, MarketInv, AccrueState, SupplyPriceLeq, Debt, MarketUpdates.Liquidate;
    if Enter(s, env, sender, action).Success? {
      NoTimeNoAccrual(s, env, id);
      var s' := Enter(s, env, sender, action).value.state;
      var m, q := s.MarketOf(id), s.PositionOf(id, user);
      var m', q' := s'.MarketOf(id), s'.PositionOf(id, user);
      InvAt(s, id, user);
      SharesWithinTotals(s, id, action.borrower);
      var p := s.PositionOf(id, action.borrower);
      LiquidateFacts(m, p, env.price, id.lltv, action.seizedAssets, action.repaidShares);
      if user != action.borrower {
        TwoShareWithinTotals(s, id, user, action.borrower);
      } else {
        DebtOfFewerShares(m, q'.borrowShares, q.borrowShares);
        SharesAfterBurn(m, q, m', q');
      }
    }
  }

  /** Within one block no call raises the rounded-up debt of an account, except the account's own borrowing. */
  lemma DebtKeptInTheMarket(s: State, env: Env, sender: Caller, action: Action, id: Id, user: Address)
    requires MarketInv(s)
    requires MarketOfAction(action) == Some(id)
    requires !(action.Borrow? && action.onBehalf == user)
    requires env.now == s.MarketOf(id).lastUpdate && s.Created(id)
    ensures Enter(s, env, sender, action).Success? ==>
      DebtKept(s, Enter(s, env, sender, action).value.state, id, user,
          !(action.WithdrawCollateral? && action.onBehalf == user) && !(action.Liquidate? && action.borrower == user))
  {
    hide Enter, MarketInv, DebtKept;
    if Enter(s, env, sender, action).Success? {
      if action.Borrow? || action.Repay? {
        DebtKeptByDebtors(s, env, sender, action, id, user);
      } else if action.SupplyCollateral? || action.WithdrawCollateral? {
        DebtKeptByCollateral(s, env, sender, action, id, user);
      } else if action.Liquidate? {
        DebtKeptByLiquidators(s, env, sender, action, id, user);
      } else {
        DebtKeptBySuppliers(s, env, sender, action, id, user);
      }
    }
  }

  lemma HealthFromDebt(s: State, s': State, id: Id, user: Address, price: nat)
    requires HealthyAccount(s, id, user, price) && DebtKept(s, s', id, user, true)
    ensures HealthyAccount(s', id, user, price) && s'.MarketOf(id).lastUpdate == s.MarketOf(id).lastUpdate
  {
    hide Healthy, Debt;
    HealthyMonotone(s.MarketOf(id), s.PositionOf(id, user), s'.MarketOf(id), s'.PositionOf(id, user), price, id.lltv);
  }

  /** An account's own borrowing and collateral withdrawals are checked, and a healthy account is not liquidated. */
  lemma OwnActionsAreChecked(s: State, env: Env, sender: Caller, action: Action, id: Id, user: Address, price: uint256)
    requires MarketInv(s)
    requires MarketOfAction(action) == Some(id)
    requires (action.Borrow? || action.WithdrawCollateral?) && action.onBehalf == user
    requires env.now == s.MarketOf(id).lastUpdate && s.Created(id)
    requires env.price.Some? ==> env.price.value == price
    ensures Enter(s, env, sender, action).Success? ==>
      var s' := Enter(s, env, sender, action).value.state;
      HealthyAccount(s', id, user, price) && s'.MarketOf(id).lastUpdate == env.now
  {
    hide Down, Up, Healthy, MarketInv, AccrueState, SupplyPriceLeq, Debt, MarketUpdates.Borrow,
      MarketUpdates.WithdrawCollateral;
    if Enter(s, env, sender, action).Success? {
      NoTimeNoAccrual(s, env, id);
      var s' := Enter(s, env, sender, action).value.state;
      var m, q := s.MarketOf(id), s.PositionOf(id, user);
      var m', q' := s'.MarketOf(id), s'.PositionOf(id, user);
      if action.Borrow? {
        BorrowFacts(m, q, env.price, id.lltv, action.assets, action.shares);
        OwnHealthCheck(m, q, env.price, price, id.lltv, action.assets, action.shares);
      } else {
        WithdrawCollateralFacts(m, q, env.price, id.lltv, action.assets);
        OwnWithdrawalCheck(m, q, env.price, price, id.lltv, action.assets);
      }
    }
  }

  lemma HealthyIsNotSeized(s: State, env: Env, sender: Caller, action: Action, id: Id, user: Address, price: uint256)
    requires MarketInv(s)
    requires MarketOfAction(action) == Some(id)
    requires action.Liquidate?
    requires env.now == s.MarketOf(id).lastUpdate && s.Created(id)
    requires env.price.Some? ==> env.price.value == price
    requires HealthyAccount(s, id, user, price)
    ensures Enter(s, env, sender, action).Success? ==> action.borrower != user
  {
    hide Down, Up, Healthy, MarketInv, AccrueState, Debt, MarketUpdates.Liquidate;
    if Enter(s, env, sender, action).Success? {
      NoTimeNoAccrual(s, env, id);
      InvAt(s, id, user);
      SharesWithinTotals(s, id, action.borrower);
      LiquidateFacts(s.MarketOf(id), s.PositionOf(id, action.borrower), env.price, id.lltv, action.seizedAssets,
          action.repaidShares);
    }
  }

  lemma HealthKeptInTheMarket(s: State, env: Env, sender: Caller, action: Action, id: Id, user: Address, price: uint256)
    requires MarketInv(s)
    requires MarketOfAction(action) == Some(id)
    requires env.now == s.MarketOf(id).lastUpdate && s.Created(id)
    requires env.price.Some? ==> env.price.value == price
    requires HealthyAccount(s, id, user, price)
    ensures Enter(s, env, sender, action).Success? ==>
      var s' := Enter(s, env, sender, action).value.state;
      HealthyAccount(s', id, user, price) && s'.MarketOf(id).lastUpdate == env.now
  {
    hide Enter, HealthyAccount, MarketInv, DebtKept;
    if Enter(s, env, sender, action).Success? {
      if (action.Borrow? || action.WithdrawCollateral?) && action.onBehalf == user {
        OwnActionsAreChecked(s, env, sender, action, id, user, price);
      } else {
        if action.Liquidate? {
          HealthyIsNotSeized(s, env, sender, action, id, user, price);
        }
        DebtKeptInTheMarket(s, env, sender, action, id, user);
        HealthFromDebt(s, Enter(s, env, sender, action).value.state, id, user, price);
      }
    }
  }

  /** After a burn the position's own shares still fit in the total and owe no more than before. */
  lemma SharesAfterBurn(m: Market, p: Position, m': Market, p': Position)
    requires DebtsKept(m, m', m'.totalBorrowShares)
    requires p'.borrowShares <= p.borrowShares && p'.borrowShares <= m'.totalBorrowShares
    requires Debt(m, p'.borrowShares) <= Debt(m, p.borrowShares)
    ensures Debt(m', p'.borrowShares) <= Debt(m, p.borrowShares)
  {
  }

  /** Borrowing passes the health check at the one price there is, or leaves no debt to check. */
  lemma OwnHealthCheck(
      m: Market, p: Position, answer: Option<uint256>, price: uint256, lltv: uint256, assets: uint256, shares: uint256)
    requires answer.Some? ==> answer.value == price
    ensures var r := MarketUpdates.Borrow(m, p, answer, lltv, assets, shares);
      r.Success? ==> Healthy(r.value.market, r.value.position, price, lltv)
  {
    hide Down, Up, MarketUpdates.Borrow, Healthy, DebtsKept;
    var r := MarketUpdates.Borrow(m, p, answer, lltv, assets, shares);
    if r.Success? {
      BorrowFacts(m, p, answer, lltv, assets, shares);
      if answer.None? {
        NoDebtIsHealthyAfterLoan(m, p, lltv, assets, shares, price);
      }
    }
  }

  /** Without an answer of the oracle only a loan that leaves no debt passes. */
  lemma NoDebtIsHealthyAfterLoan(
      m: Market, p: Position, lltv: uint256, assets: uint256, shares: uint256, price: uint256)
    ensures var r := MarketUpdates.Borrow(m, p, None, lltv, assets, shares);
      r.Success? ==> Healthy(r.value.market, r.value.position, price, lltv)
  {
    hide Healthy;
    var r := MarketUpdates.Borrow(m, p, None, lltv, assets, shares);
    if r.Success? {
      NoDebtIsHealthy(r.value.market, r.value.position, price, lltv);
    }
  }

  lemma OwnWithdrawalCheck(
      m: Market, p: Position, answer: Option<uint256>, price: uint256, lltv: uint256, assets: uint256)
    requires answer.Some? ==> answer.value == price
    ensures MarketUpdates.WithdrawCollateral(m, p, answer, lltv, assets).Success? ==>
      Healthy(m, MarketUpdates.WithdrawCollateral(m, p, answer, lltv, assets).value, price, lltv)
  {
    hide Down, Up;
    if MarketUpdates.WithdrawCollateral(m, p, answer, lltv, assets).Success? {
      WithdrawCollateralFacts(m, p, answer, lltv, assets);
      if answer.None? {
        NoDebtIsHealthy(m, MarketUpdates.WithdrawCollateral(m, p, answer, lltv, assets).value, price, lltv);
      }
    }
  }

  ghost predicate HealthyAt(s: State, id: Id, user: Address, now: uint256, price: uint256) {
    s.MarketOf(id).lastUpdate == now && HealthyAccount(s, id, user, price)
  }

  lemma HealthStep(id: Id, user: Address, now: uint256, price: uint256)
    requires now != 0
    ensures StepKeeps(s => HealthyAt(s, id, user, now, price), (_, c) => Still(c, id, now, price))
    ensures TokenBlind(s => HealthyAt(s, id, user, now, price))
  {
    hide Healthy, Inv;
    var p := (s: State) => HealthyAt(s, id, user, now, price);
    forall s: State, frames: seq<Pull>, c: Call
      | Inv(s, frames) && p(s) && Still(c, id, now, price) && Enter(s, c.env, c.sender, c.action).Success?
      ensures p(Enter(s, c.env, c.sender, c.action).value.state)
    {
      hide Enter, HealthyAccount;
      if MarketOfAction(c.action) == Some(id) {
        InvParts(s, frames);
        HealthKeptInTheMarket(s, c.env, c.sender, c.action, id, user, price);
      } else {
        HealthElsewhere(s, c.env, c.sender, c.action, id, user, price);
      }
    }
  }

  lemma HealthElsewhere(s: State, env: Env, sender: Caller, action: Action, id: Id, user: Address, price: nat)
    requires MarketOfAction(action) != Some(id)
    requires HealthyAccount(s, id, user, price)
    ensures Enter(s, env, sender, action).Success? ==>
      var s' := Enter(s, env, sender, action).value.state;
      HealthyAccount(s', id, user, price) && s'.MarketOf(id) == s.MarketOf(id)
  {
    hide Enter;
    if Enter(s, env, sender, action).Success? {
      OtherMarketsUntouched(s, env, sender, action, id, user);
    }
  }

  /**
   * Healthy stays healthy: while the oracle's price stands and no time passes, no call by anyone, nested or not,
   * makes a healthy account unhealthy at any point.
   */
  lemma HealthyStaysHealthy(
      s: State, frames: seq<Pull>, calls: seq<Call>, id: Id, user: Address, now: uint256, price: uint256)
    requires Inv(s, frames) && now != 0
    requires HealthyAt(s, id, user, now, price)
    requires AdmissibleAlong(Points(s, frames, calls), (_, c) => Still(c, id, now, price))
    ensures forall i :: 0 <= i < |Points(s, frames, calls)| ==>
      HealthyAt(Points(s, frames, calls)[i].state, id, user, now, price)
    ensures RunAll(s, calls).Success? ==> HealthyAt(RunAll(s, calls).value, id, user, now, price)
  {
    HealthStep(id, user, now, price);
    hide Points, HealthyAt, Inv, StepKeeps, TokenBlind;
    RunKeeps(t => HealthyAt(t, id, user, now, price), (_, c) => Still(c, id, now, price), s, frames, calls);
  }
}
