/** What each call does to the storage and to the tokens, exactly, and when it is let through. */
module MorphoAnswers {
  import opened Wrappers
  import opened Words
  import opened Totals
  import opened MathLib
  import opened SharesMathLib
  import opened MarketUpdates
  import opened MarketFacts
  import opened MarketAnswers
  import opened Erc20
  import opened MorphoSpec
  import opened MorphoInvariant
  import opened MorphoRuns
  import opened MorphoTheorems
  import opened MorphoExits

  // ---------------------------------------------------------------- vocabulary

  /** But for one market, one position in it, and the tokens, the storage is as it was. */
  ghost predicate OnlyThere(s: State, s': State, id: Id, user: Address) {
    && s' == s.(market := s'.market, position := s'.position, ledgers := s'.ledgers)
    && (forall i: Id :: i != id ==> s'.MarketOf(i) == s.MarketOf(i))
    && (forall i: Id, u: Address :: i != id || u != user ==> s'.PositionOf(i, u) == s.PositionOf(i, u))
  }

  // ---------------------------------------------------------------- interest

  lemma PutIsOnlyThere(s: State, id: Id, m: Market, user: Address, p: Position)
    ensures OnlyThere(s, s.Put(id, m, user, p), id, user)
    ensures OnlyThere(s, s.SetMarket(id, m), id, user)
    ensures OnlyThere(s, s, id, user)
  {
  }

  lemma NoTimeSameMarket(m: Market, recipient: Position, env: Env, irm: Address)
    requires env.now == m.lastUpdate
    ensures Accrue(m, recipient, env, irm) == Success(Accrual(m, None))
  {
  }

  /** The accrued market and the fee recipient's position are written, and nothing else. */
  lemma AccrualWrites(s: State, env: Env, id: Id)
    ensures AccrueState(s, env, id).Success? ==>
      var s1, a := AccrueState(s, env, id).value, Accrue(s.MarketOf(id), s.PositionOf(id, s.feeRecipient), env, id.irm);
      && OnlyThere(s, s1, id, s.feeRecipient) && s1.ledgers == s.ledgers
      && a.Success?
      && s1.MarketOf(id) == a.value.market
      && s1.PositionOf(id, s.feeRecipient)
           == if a.value.fees.Some? then a.value.fees.value else s.PositionOf(id, s.feeRecipient)
  {
    hide Accrue, OnlyThere;
    var m, q := s.MarketOf(id), s.PositionOf(id, s.feeRecipient);
    var a := Accrue(m, q, env, id.irm);
    if a.Success? {
      PutIsOnlyThere(s, id, a.value.market, s.feeRecipient, if a.value.fees.Some? then a.value.fees.value else q);
      if env.now == m.lastUpdate {
        NoTimeSameMarket(m, q, env, id.irm);
      }
    }
  }

  /**
   * An accrual adds the interest to both sides of its market, and the shares that the fee part of it buys to the
   * position of the fee recipient. It touches nothing else.
   */
  lemma AccrualAnswer(s: State, env: Env, id: Id)
    ensures AccrueState(s, env, id).Success? ==>
      var s1 := AccrueState(s, env, id).value;
      var m, m1 := s.MarketOf(id), s1.MarketOf(id);
      var interest := Interest(m, env, id.irm);
      var fee := Down(interest, m.fee, WAD);
      && fee <= m1.totalSupplyAssets == m.totalSupplyAssets + interest
      && var minted := Down(fee, m.totalSupplyShares + VIRTUAL_SHARES, m1.totalSupplyAssets - fee + 1);
      && OnlyThere(s, s1, id, s.feeRecipient) && s1.ledgers == s.ledgers
      && PositionMoves(s.PositionOf(id, s.feeRecipient), s1.PositionOf(id, s.feeRecipient), minted, 0, 0)
      && MarketMoves(m.(lastUpdate := m1.lastUpdate), m1, interest, minted, interest, 0)
      && (env.now <= MAX_UINT128 ==> m1.lastUpdate == env.now)
  {
    hide Down, Up, Accrue, AccrueState, OnlyThere, Interest, Truncate128;
    if env.now <= MAX_UINT128 { SmallTime(env.now); }
    AccrualWrites(s, env, id);
    AccrualExactly(s.MarketOf(id), s.PositionOf(id, s.feeRecipient), env, id.irm);
    AccrueFacts(s.MarketOf(id), s.PositionOf(id, s.feeRecipient), env, id.irm);
  }

  // ---------------------------------------------------------------- positions and markets

  /** The storage that the update of a call starts from: only depositing collateral and flash loans do not accrue. */
  function Base(s: State, env: Env, action: Action): Result<State, Error> {
    match MarketOfAction(action)
    case None => Success(s)
    case Some(id) => if action.SupplyCollateral? || action.CreateMarket? then Success(s) else AccrueState(s, env, id)
  }

  /** What a call does to positions and markets, in terms of the amounts it returns if it returns any. */
  ghost predicate Changes(s: State, s': State, env: Env, action: Action, r: Returned) {
    && (!action.Supply? && !action.Withdraw? && !action.Borrow? && !action.Repay? && !action.Liquidate? ==>
        r == NOTHING)
    && match action
    case Supply(id, assets, shares, onBehalf) =>
      var m := s.MarketOf(id);
      && (r.first, r.second) == PaidIn(assets, shares, m.totalSupplyAssets, m.totalSupplyShares)
      && OnlyThere(s, s', id, onBehalf)
      && PositionMoves(s.PositionOf(id, onBehalf), s'.PositionOf(id, onBehalf), r.second, 0, 0)
      && MarketMoves(m, s'.MarketOf(id), r.first, r.second, 0, 0)
    case Withdraw(id, assets, shares, onBehalf, _) =>
      var m := s.MarketOf(id);
      && (r.first, r.second) == PaidOut(assets, shares, m.totalSupplyAssets, m.totalSupplyShares)
      && OnlyThere(s, s', id, onBehalf)
      && PositionMoves(s.PositionOf(id, onBehalf), s'.PositionOf(id, onBehalf), 0 - r.second, 0, 0)
      && MarketMoves(m, s'.MarketOf(id), 0 - r.first, 0 - r.second, 0, 0)
    case Borrow(id, assets, shares, onBehalf, _) =>
      var m := s.MarketOf(id);
      && (r.first, r.second) == PaidOut(assets, shares, m.totalBorrowAssets, m.totalBorrowShares)
      && OnlyThere(s, s', id, onBehalf)
      && PositionMoves(s.PositionOf(id, onBehalf), s'.PositionOf(id, onBehalf), 0, r.second, 0)
      && MarketMoves(m, s'.MarketOf(id), 0, 0, r.first, r.second)
    case Repay(id, assets, shares, onBehalf) =>
      var m := s.MarketOf(id);
      && (r.first, r.second) == PaidIn(assets, shares, m.totalBorrowAssets, m.totalBorrowShares)
      && OnlyThere(s, s', id, onBehalf)
      && PositionMoves(s.PositionOf(id, onBehalf), s'.PositionOf(id, onBehalf), 0, 0 - r.second, 0)
      && MarketMoves(m, s'.MarketOf(id), 0, 0, 0 - Smaller(m.totalBorrowAssets, r.first), 0 - r.second)
    case SupplyCollateral(id, assets, onBehalf) =>
      && OnlyThere(s, s', id, onBehalf)
      && PositionMoves(s.PositionOf(id, onBehalf), s'.PositionOf(id, onBehalf), 0, 0, assets)
      && s'.MarketOf(id) == s.MarketOf(id)
    case WithdrawCollateral(id, assets, onBehalf, _) =>
      && OnlyThere(s, s', id, onBehalf)
      && PositionMoves(s.PositionOf(id, onBehalf), s'.PositionOf(id, onBehalf), 0, 0, 0 - assets)
      && s'.MarketOf(id) == s.MarketOf(id)
    case Liquidate(id, borrower, seizedAssets, repaidShares) =>
      var factor := LiquidationIncentiveFactor(id.lltv);
      && OnlyThere(s, s', id, borrower)
      && env.price.Some? && factor.Success? && factor.value > 0 && (seizedAssets == 0 ==> env.price.value > 0)
      && !Healthy(s.MarketOf(id), s.PositionOf(id, borrower), env.price.value, id.lltv)
      && LiquidationMoves(s.MarketOf(id), s.PositionOf(id, borrower), s'.MarketOf(id), s'.PositionOf(id, borrower),
                          env.price.value, factor.value, seizedAssets, repaidShares, r.first, r.second)
    case SetFee(id, newFee) =>
      && OnlyThere(s, s', id, ZERO_ADDRESS)
      && s'.PositionOf(id, ZERO_ADDRESS) == s.PositionOf(id, ZERO_ADDRESS)
      && s'.MarketOf(id).fee == newFee
      && MarketMoves(s.MarketOf(id).(fee := s'.MarketOf(id).fee), s'.MarketOf(id), 0, 0, 0, 0)
    case CreateMarket(id) =>
      && OnlyThere(s, s', id, ZERO_ADDRESS)
      && s'.PositionOf(id, ZERO_ADDRESS) == s.PositionOf(id, ZERO_ADDRESS)
      && (env.now <= MAX_UINT128 ==> s'.MarketOf(id).lastUpdate == env.now)
      && MarketMoves(s.MarketOf(id).(lastUpdate := s'.MarketOf(id).lastUpdate), s'.MarketOf(id), 0, 0, 0, 0)
    case SetOwner(newOwner) => s' == s.(owner := newOwner)
    case SetFeeRecipient(newFeeRecipient) => s' == s.(feeRecipient := newFeeRecipient)
    case EnableIrm(irm) => s' == s.(isIrmEnabled := s.isIrmEnabled + {irm})
    case EnableLltv(lltv) => s' == s.(isLltvEnabled := s.isLltvEnabled + {lltv})
    case SetAuthorization(_, _) => s' == s.(isAuthorized := s'.isAuthorized)
    case SetAuthorizationWithSig(_, _) => s' == s.(isAuthorized := s'.isAuthorized, nonce := s'.nonce)
    case AccrueInterest(_) => s' == s
    case _ => s' == s.(ledgers := s'.ledgers)
  }

  lemma SuppliesAnswer(s: State, c: Call)
    requires c.action.Supply?
    ensures var r, b := Enter(s, c.env, c.sender, c.action), Base(s, c.env, c.action);
      r.Success? ==> b.Success? && Changes(b.value, r.value.state, c.env, c.action, r.value.returned)
  {
    hide Down, Up, AccrueState, MarketUpdates.Supply, SupplyPriceLeq, PaidIn;
    if Enter(s, c.env, c.sender, c.action).Success? {
      var id, s1 := c.action.id, AccrueState(s, c.env, c.action.id).value;
      var m, p := s1.MarketOf(id), s1.PositionOf(id, c.action.onBehalf);
      SupplyFacts(m, p, c.action.assets, c.action.shares);
    }
  }

  lemma WithdrawalsAnswer(s: State, c: Call)
    requires c.action.Withdraw?
    ensures var r, b := Enter(s, c.env, c.sender, c.action), Base(s, c.env, c.action);
      r.Success? ==> b.Success? && Changes(b.value, r.value.state, c.env, c.action, r.value.returned)
  {
    hide Down, Up, AccrueState, MarketUpdates.Withdraw, SupplyPriceLeq, PaidOut;
    if Enter(s, c.env, c.sender, c.action).Success? {
      var id, s1 := c.action.id, AccrueState(s, c.env, c.action.id).value;
      var m, p := s1.MarketOf(id), s1.PositionOf(id, c.action.onBehalf);
      WithdrawFacts(m, p, c.action.assets, c.action.shares);
    }
  }

  lemma LoansAnswer(s: State, c: Call)
    requires c.action.Borrow?
    ensures var r, b := Enter(s, c.env, c.sender, c.action), Base(s, c.env, c.action);
      r.Success? ==> b.Success? && Changes(b.value, r.value.state, c.env, c.action, r.value.returned)
  {
    hide Down, Up, AccrueState, MarketUpdates.Borrow, PaidOut, DebtsKept, Healthy;
    if Enter(s, c.env, c.sender, c.action).Success? {
      var id, s1 := c.action.id, AccrueState(s, c.env, c.action.id).value;
      var m, p := s1.MarketOf(id), s1.PositionOf(id, c.action.onBehalf);
      BorrowFacts(m, p, c.env.price, id.lltv, c.action.assets, c.action.shares);
    }
  }

  lemma RepaymentsAnswer(s: State, c: Call)
    requires c.action.Repay?
    ensures var r, b := Enter(s, c.env, c.sender, c.action), Base(s, c.env, c.action);
      r.Success? ==> b.Success? && Changes(b.value, r.value.state, c.env, c.action, r.value.returned)
  {
    hide Down, Up, AccrueState, MarketUpdates.Repay, PaidIn, DebtsKept;
    if Enter(s, c.env, c.sender, c.action).Success? {
      var id, s1 := c.action.id, AccrueState(s, c.env, c.action.id).value;
      var m, p := s1.MarketOf(id), s1.PositionOf(id, c.action.onBehalf);
      RepayFacts(m, p, c.action.assets, c.action.shares);
    }
  }

  lemma CollateralAnswer(s: State, c: Call)
    requires c.action.SupplyCollateral? || c.action.WithdrawCollateral?
    ensures var r, b := Enter(s, c.env, c.sender, c.action), Base(s, c.env, c.action);
      r.Success? ==> b.Success? && Changes(b.value, r.value.state, c.env, c.action, r.value.returned)
  {
    hide Down, Up, AccrueState, MarketUpdates.WithdrawCollateral, Healthy;
    var r := Enter(s, c.env, c.sender, c.action);
    if r.Success? && c.action.WithdrawCollateral? {
      var id, s1 := c.action.id, AccrueState(s, c.env, c.action.id).value;
      WithdrawCollateralFacts(s1.MarketOf(id), s1.PositionOf(id, c.action.onBehalf), c.env.price, id.lltv,
                              c.action.assets);
    }
  }

  lemma LiquidationsAnswer(s: State, c: Call)
    requires MarketInv(s) && c.action.Liquidate?
    ensures var r, b := Enter(s, c.env, c.sender, c.action), Base(s, c.env, c.action);
      r.Success? ==> b.Success? && Changes(b.value, r.value.state, c.env, c.action, r.value.returned)
  {
    hide Down, Up, AccrueState, MarketUpdates.Liquidate, Healthy, MarketInv, LiquidationMoves,
      LiquidationIncentiveFactor;
    if Enter(s, c.env, c.sender, c.action).Success? {
      var a, id, s1 := c.action, c.action.id, AccrueState(s, c.env, c.action.id).value;
      AccrueStep(s, c.env, id);
      InvAt(s1, id, a.borrower);
      SharesWithinTotals(s1, id, a.borrower);
      var m, p := s1.MarketOf(id), s1.PositionOf(id, a.borrower);
      IncentiveFactorBounds(id.lltv);
      LiquidationMovesExactly(m, p, c.env.price, id.lltv, a.seizedAssets, a.repaidShares);
    }
  }

  lemma MarketAdministrationAnswers(s: State, c: Call)
    requires c.action.SetFee? || c.action.CreateMarket? || c.action.AccrueInterest?
    ensures var r, b := Enter(s, c.env, c.sender, c.action), Base(s, c.env, c.action);
      r.Success? ==> b.Success? && Changes(b.value, r.value.state, c.env, c.action, r.value.returned)
  {
    hide AccrueState;
  }

  lemma OtherCallsAnswer(s: State, c: Call)
    requires MarketOfAction(c.action).None?
    ensures var r, b := Enter(s, c.env, c.sender, c.action), Base(s, c.env, c.action);
      r.Success? ==> b.Success? && Changes(b.value, r.value.state, c.env, c.action, r.value.returned)
  {
  }

  /** Every call changes exactly what it is for, counted from the storage after the accrual. */
  lemma CallAnswer(s: State, c: Call)
    requires MarketInv(s)
    ensures var r, b := Enter(s, c.env, c.sender, c.action), Base(s, c.env, c.action);
      r.Success? ==> b.Success? && Changes(b.value, r.value.state, c.env, c.action, r.value.returned)
  {
    hide Enter, Base, Changes;
    if c.action.Supply? {
      SuppliesAnswer(s, c);
    } else if c.action.Withdraw? {
      WithdrawalsAnswer(s, c);
    } else if c.action.Borrow? {
      LoansAnswer(s, c);
    } else if c.action.Repay? {
      RepaymentsAnswer(s, c);
    } else if c.action.SupplyCollateral? || c.action.WithdrawCollateral? {
      CollateralAnswer(s, c);
    } else if c.action.Liquidate? {
      LiquidationsAnswer(s, c);
    } else if c.action.SetFee? || c.action.CreateMarket? || c.action.AccrueInterest? {
      MarketAdministrationAnswers(s, c);
    } else {
      OtherCallsAnswer(s, c);
    }
  }

  /** The shares of debt a liquidation repays. */
  ghost function RepaidBy(m: Market, price: uint256, id: Id, seizedAssets: uint256, repaidShares: uint256): nat {
    var factor := LiquidationIncentiveFactor(id.lltv);
    if seizedAssets > 0 && factor.Success? && factor.value > 0 then RepaidFor(seizedAssets, m, price, factor.value)
    else repaidShares
  }

  /**
   * What suppliers lose in a liquidation is at most what the shares that the borrower has left owe, rounded up: at most
   * any number of assets that pays for them. While collateral remains they lose nothing.
   */
  lemma SuppliersLoseAtMostTheDebtLeft(s: State, frames: seq<Pull>, c: Call, n: nat)
    requires Inv(s, frames) && c.action.Liquidate?
    ensures var r, a := Enter(s, c.env, c.sender, c.action), AccrueState(s, c.env, c.action.id);
      r.Success? ==>
        && a.Success? && c.env.price.Some?
        && var (id, s', user) := (c.action.id, r.value.state, c.action.borrower);
        var m, p := a.value.MarketOf(id), a.value.PositionOf(id, user);
        var lost := m.totalSupplyAssets - s'.MarketOf(id).totalSupplyAssets;
        var repaid := RepaidBy(m, c.env.price.value, id, c.action.seizedAssets, c.action.repaidShares);
        && lost == BadDebtOf(s, c, id)
        && repaid <= p.borrowShares
        && lost <= Debt(m, p.borrowShares - repaid)
        && (s'.PositionOf(id, user).collateral > 0 ==> lost == 0)
        && ((p.borrowShares - repaid) * (m.totalBorrowAssets + 1) <= n * (m.totalBorrowShares + VIRTUAL_SHARES) ==>
            lost <= n)
  {
    hide Down, Up, AccrueState, Inv, MarketInv, Healthy, RepaidFor, MarketUpdates.Liquidate,
      LiquidationIncentiveFactor, LiquidationMoves, OwedUp;
    if Enter(s, c.env, c.sender, c.action).Success? {
      var a, id, s1 := c.action, c.action.id, AccrueState(s, c.env, c.action.id).value;
      InvParts(s, frames);
      AccrueStep(s, c.env, id);
      InvAt(s1, id, a.borrower);
      SharesWithinTotals(s1, id, a.borrower);
      var m, p := s1.MarketOf(id), s1.PositionOf(id, a.borrower);
      IncentiveFactorBounds(id.lltv);
      LiquidateFacts(m, p, c.env.price, id.lltv, a.seizedAssets, a.repaidShares);
      LiquidationAnswer(m, p, c.env.price, id.lltv, a.seizedAssets, a.repaidShares);
      var repaid := RepaidBy(m, c.env.price.value, id, a.seizedAssets, a.repaidShares);
      DebtLeast(m, p.borrowShares - repaid, n);
    }
  }

  lemma DebtLeast(m: Market, x: nat, n: nat)
    ensures Debt(m, x) <= n <==> x * (m.totalBorrowAssets + 1) <= n * (m.totalBorrowShares + VIRTUAL_SHARES)
  {
    hide Up;
    UpLeast(x, m.totalBorrowAssets + 1, m.totalBorrowShares + VIRTUAL_SHARES, n);
  }

  // ---------------------------------------------------------------- tokens

  /** An amount of a token that goes from one account to another. */
  datatype Payment = Payment(token: Address, from: Address, to: Address, amount: nat)

  /** What the contract sends out before the callback of a call, in terms of the amounts it returns. */
  function Sent(c: Call, r: Returned): seq<Payment> {
    match c.action
    case Withdraw(id, _, _, _, receiver) => [Payment(id.loanToken, MORPHO, receiver, r.first)]
    case Borrow(id, _, _, _, receiver) => [Payment(id.loanToken, MORPHO, receiver, r.first)]
    case WithdrawCollateral(id, assets, _, receiver) => [Payment(id.collateralToken, MORPHO, receiver, assets)]
    case Liquidate(id, _, _, _) => [Payment(id.collateralToken, MORPHO, c.sender, r.first)]
    case FlashLoan(token, assets) => [Payment(token, MORPHO, c.sender, assets)]
    case _ => []
  }

  /** What it takes from the caller after the callback. */
  function Taken(c: Call, r: Returned): seq<Payment> {
    match c.action
    case Supply(id, _, _, _) => [Payment(id.loanToken, c.sender, MORPHO, r.first)]
    case Repay(id, _, _, _) => [Payment(id.loanToken, c.sender, MORPHO, r.first)]
    case SupplyCollateral(id, assets, _) => [Payment(id.collateralToken, c.sender, MORPHO, assets)]
    case Liquidate(id, _, _, _) => [Payment(id.loanToken, c.sender, MORPHO, r.second)]
    case FlashLoan(token, assets) => [Payment(token, c.sender, MORPHO, assets)]
    case _ => []
  }

  /** The change of an account's balance of a token by some payments. */
  function Net(payments: seq<Payment>, token: Address, account: Address): int {
    if payments == [] then 0 else NetOfOne(payments[0], token, account) + Net(payments[1..], token, account)
  }

  function NetOfOne(p: Payment, token: Address, account: Address): int {
    if p.token != token then 0
    else (if p.to == account then p.amount else 0) - (if p.from == account then p.amount else 0)
  }

  ghost predicate Paid(s: State, s': State, payments: seq<Payment>) {
    forall token: Address, account: Address ::
      s'.Balance(token, account) == s.Balance(token, account) + Net(payments, token, account)
  }

  /** Calls to the tokens are not the contract's. */
  ghost predicate ToTheContract(action: Action) {
    !action.TokenTransfer? && !action.TokenTransferFrom? && !action.TokenApprove? && !action.TokenSetBalance?
  }

  lemma PushPays(s: State, token: Address, to: Address, amount: uint256)
    ensures Push(s, token, to, amount).Success? ==>
      Paid(s, Push(s, token, to, amount).value, [Payment(token, MORPHO, to, amount)])
  {
    if Push(s, token, to, amount).Success? {
      MoveFacts(s.ledgers[token], MORPHO, to, amount);
    }
  }

  /** A pull also uses up as much of what the payer has approved. */
  lemma PullPays(s: State, token: Address, from: Address, amount: uint256)
    ensures PullFrom(s, token, from, amount).Success? ==>
      var s' := PullFrom(s, token, from, amount).value;
      && Paid(s, s', [Payment(token, from, MORPHO, amount)])
      && token in s.ledgers && s'.ledgers.Keys == s.ledgers.Keys
      && s'.ledgers[token].Allowance(from, MORPHO) == s.ledgers[token].Allowance(from, MORPHO) - amount
  {
    if PullFrom(s, token, from, amount).Success? {
      TransferFromFacts(s.ledgers[token], MORPHO, from, MORPHO, amount);
    }
  }

  lemma NothingPaid(s: State, s': State)
    requires s'.ledgers == s.ledgers
    ensures Paid(s, s', [])
  {
  }

  lemma PaidFromTheSameTokens(s: State, s1: State, s2: State, payments: seq<Payment>)
    requires s1.ledgers == s.ledgers && Paid(s1, s2, payments)
    ensures Paid(s, s2, payments)
  {
    hide Net;
    forall token: Address, account: Address
      ensures s2.Balance(token, account) == s.Balance(token, account) + Net(payments, token, account)
    {
      assert s1.Balance(token, account) == s.Balance(token, account);
    }
  }

  lemma AccrualKeepsTokensAndNonces(s: State, env: Env, id: Id)
    ensures AccrueState(s, env, id).Success? ==>
      AccrueState(s, env, id).value.ledgers == s.ledgers && AccrueState(s, env, id).value.nonce == s.nonce
  {
    hide Accrue;
  }

  /** Before its callback a call that sends something out sends exactly its payments ... */
  lemma SendersPay(s: State, c: Call)
    requires Sent(c, NOTHING) != []
    ensures var e := Enter(s, c.env, c.sender, c.action);
      e.Success? ==>
        && Paid(s, e.value.state, Sent(c, e.value.returned))
        && e.value.pull == PullOf(c, e.value.returned)
  {
    hide Paid, AccrueState, Push, Net, MarketUpdates.Withdraw, MarketUpdates.Borrow,
      MarketUpdates.WithdrawCollateral, MarketUpdates.Liquidate;
    var e := Enter(s, c.env, c.sender, c.action);
    if e.Success? {
      var s2, r := e.value.state, e.value.returned;
      var s1 := Unsent(s, c);
      var payment := Sent(c, r)[0];
      var amount: uint256 := payment.amount;
      assert s1.ledgers == s.ledgers && Push(s1, payment.token, payment.to, amount) == Success(s2) by {
        if MarketOfAction(c.action).Some? { AccrualKeepsTokensAndNonces(s, c.env, c.action.id); }
      }
      PushPays(s1, payment.token, payment.to, amount);
      PaidFromTheSameTokens(s, s1, s2, Sent(c, r));
    }
  }

  /** The storage right before the transfer out of the contract. */
  ghost function Unsent(s: State, c: Call): State {
    match Base(s, c.env, c.action)
    case Failure(_) => s
    case Success(s1) =>
      match c.action
      case Withdraw(id, assets, shares, onBehalf, _) =>
        (match MarketUpdates.Withdraw(s1.MarketOf(id), s1.PositionOf(id, onBehalf), assets, shares)
         case Success(u) => s1.Put(id, u.market, onBehalf, u.position)
         case Failure(_) => s)
      case Borrow(id, assets, shares, onBehalf, _) =>
        (match MarketUpdates.Borrow(s1.MarketOf(id), s1.PositionOf(id, onBehalf), c.env.price, id.lltv, assets, shares)
         case Success(u) => s1.Put(id, u.market, onBehalf, u.position)
         case Failure(_) => s)
      case WithdrawCollateral(id, assets, onBehalf, _) =>
        (match MarketUpdates.WithdrawCollateral(s1.MarketOf(id), s1.PositionOf(id, onBehalf), c.env.price, id.lltv,
                                                assets)
         case Success(p) => s1.SetPosition(id, onBehalf, p)
         case Failure(_) => s)
      case Liquidate(id, borrower, seizedAssets, repaidShares) =>
        (match MarketUpdates.Liquidate(s1.MarketOf(id), s1.PositionOf(id, borrower), c.env.price, id.lltv, seizedAssets,
                                       repaidShares)
         case Success(l) => s1.Put(id, l.market, borrower, l.position)
         case Failure(_) => s)
      case _ => s
  }

  /** The payment that a call takes after its callback, as the contract keeps it in mind. */
  function PullOf(c: Call, r: Returned): Pull {
    match c.action
    case Supply(id, _, _, _) => Pull(id.loanToken, c.sender, r.first)
    case Repay(id, _, _, _) => Pull(id.loanToken, c.sender, r.first)
    case SupplyCollateral(id, assets, _) => Pull(id.collateralToken, c.sender, assets)
    case Liquidate(id, _, _, _) => Pull(id.loanToken, c.sender, r.second)
    case FlashLoan(token, assets) => Pull(token, c.sender, assets)
    case _ => NoPull
  }

  /** ... other calls send nothing; and each is to take its payment from its caller. */
  lemma EnterPays(s: State, c: Call)
    requires ToTheContract(c.action)
    ensures var e := Enter(s, c.env, c.sender, c.action);
      e.Success? ==>
        && Paid(s, e.value.state, Sent(c, e.value.returned))
        && e.value.pull == PullOf(c, e.value.returned)
  {
    hide Paid, AccrueState, Push, Net, MarketUpdates.Supply, MarketUpdates.Repay;
    var e := Enter(s, c.env, c.sender, c.action);
    if Sent(c, NOTHING) != [] {
      hide Enter;
      SendersPay(s, c);
    } else if e.Success? {
      if MarketOfAction(c.action).Some? { AccrualKeepsTokensAndNonces(s, c.env, c.action.id); }
      NothingPaid(s, e.value.state);
    }
  }

  lemma {:induction false} NetConcat(a: seq<Payment>, b: seq<Payment>, token: Address, account: Address)
    ensures Net(a + b, token, account) == Net(a, token, account) + Net(b, token, account)
  {
    if a == [] {
      assert a + b == b;
    } else {
      assert (a + b)[0] == a[0] && (a + b)[1..] == a[1..] + b;
      NetConcat(a[1..], b, token, account);
    }
  }

  /** A call that makes no calls back moves exactly the tokens it sends and takes, and no others. */
  lemma PlainCallPays(s: State, c: Call)
    requires ToTheContract(c.action) && c.callback == []
    ensures Perform(s, c).Success? ==>
      Paid(s, Execute(s, c), Sent(c, Perform(s, c).value.returned) + Taken(c, Perform(s, c).value.returned))
  {
    hide Enter, Paid;
    if Perform(s, c).Success? {
      var e := Enter(s, c.env, c.sender, c.action).value;
      var r, s' := e.returned, Execute(s, c);
      EnterPays(s, c);
      var sent, taken := Sent(c, r), Taken(c, r);
      assert RunAll(e.state, []) == Success(e.state);
      assert Paid(e.state, s', taken) by {
        if e.pull.Pull? {
          PullPays(e.state, e.pull.token, e.pull.from, e.pull.amount);
        } else {
          NothingPaid(e.state, s');
        }
      }
      PaidTogether(s, e.state, s', sent, taken);
    }
  }

  lemma PaidTogether(s: State, s1: State, s2: State, a: seq<Payment>, b: seq<Payment>)
    requires Paid(s, s1, a) && Paid(s1, s2, b)
    ensures Paid(s, s2, a + b)
  {
    hide Net;
    forall token: Address, account: Address
      ensures s2.Balance(token, account) == s.Balance(token, account) + Net(a + b, token, account)
    {
      NetConcat(a, b, token, account);
      assert s1.Balance(token, account) == s.Balance(token, account) + Net(a, token, account);
      assert s2.Balance(token, account) == s1.Balance(token, account) + Net(b, token, account);
    }
  }

  /** With callbacks of any kind in between, a call still sends first and takes last exactly these payments. */
  lemma CallPays(s: State, c: Call)
    requires c.action.Supply? || c.action.Repay? || c.action.SupplyCollateral? || c.action.Liquidate?
          || c.action.FlashLoan?
    ensures Perform(s, c).Success? ==>
      var e, r := Enter(s, c.env, c.sender, c.action).value, Perform(s, c).value.returned;
      && Paid(s, e.state, Sent(c, r))
      && RunAll(e.state, c.callback).Success?
      && Paid(RunAll(e.state, c.callback).value, Execute(s, c), Taken(c, r))
  {
    hide Enter, Paid;
    if Perform(s, c).Success? {
      var e := Enter(s, c.env, c.sender, c.action).value;
      EnterPays(s, c);
      PullPays(RunAll(e.state, c.callback).value, e.pull.token, e.pull.from, e.pull.amount);
    }
  }

  // ---------------------------------------------------------------- when calls are let through

  lemma PushSucceeds(s: State, token: Address, to: Address, amount: uint256)
    requires TokenInv(s)
    ensures Push(s, token, to, amount).Success? <==> token in s.ledgers && amount <= s.Balance(token, MORPHO)
  {
    if token in s.ledgers {
      MoveSucceeds(s.ledgers[token], MORPHO, to, amount);
    }
  }

  /** A payment can be taken exactly from those who have the tokens and have approved the contract. */
  lemma PullSucceeds(s: State, token: Address, from: Address, amount: uint256)
    requires TokenInv(s)
    ensures PullFrom(s, token, from, amount).Success? <==>
      token in s.ledgers && amount <= s.ledgers[token].Allowance(from, MORPHO) && amount <= s.Balance(token, from)
  {
    if token in s.ledgers && amount <= s.ledgers[token].Allowance(from, MORPHO) {
      var l := s.ledgers[token];
      MoveSucceeds(l.(allowance := l.allowance[(from, MORPHO) := l.Allowance(from, MORPHO) - amount]), from, MORPHO,
                   amount);
    }
  }

  /** The contract holds at least any one account's collateral. */
  lemma BalanceCoversCollateral(s: State, id: Id, user: Address)
    requires Inv(s, [])
    ensures s.PositionOf(id, user).collateral <= s.Balance(id.collateralToken, MORPHO)
  {
    var t := id.collateralToken;
    assert Solvent(s, [], t);
    forall i | i in LoanColumn(s, t) ensures 0 <= LoanColumn(s, t)[i] {
      assert Sound(s.MarketOf(i));
    }
    TotalNonNegative<Id>(LoanColumn(s, t));
    if (id, user) in s.position {
      TotalAtLeast<(Id, Address)>(CollateralColumn(s, t), (id, user));
    } else {
      TotalNonNegative<(Id, Address)>(CollateralColumn(s, t));
    }
  }

  /** What a call must satisfy whatever its amounts: the market exists, exactly one amount is given, and the accrual. */
  ghost predicate Opens(s: State, env: Env, id: Id, first: nat, second: nat) {
    && s.Created(id) && (first == 0) != (second == 0)
    && AccrualFits(s.MarketOf(id), s.PositionOf(id, s.feeRecipient), env, id.irm)
  }

  ghost predicate MaySpend(s: State, sender: Address, onBehalf: Address, receiver: Address, token: Address) {
    s.SenderAuthorized(sender, onBehalf) && receiver != ZERO_ADDRESS && token in s.ledgers
  }

  lemma AccrualSucceeds(s: State, env: Env, id: Id)
    requires MarketInv(s)
    ensures AccrueState(s, env, id).Success? <==>
      AccrualFits(s.MarketOf(id), s.PositionOf(id, s.feeRecipient), env, id.irm)
  {
    hide MarketInv, AccrualFits, Accrue;
    InvAt(s, id, s.feeRecipient);
    AccrueSucceeds(s.MarketOf(id), s.PositionOf(id, s.feeRecipient), env, id.irm);
  }

  /** A supply is let through exactly if the amounts fit; it needs nobody's permission. */
  lemma SupplyLetThrough(
      s: State, env: Env, sender: Caller, id: Id, assets: uint256, shares: uint256, onBehalf: Address)
    requires MarketInv(s)
    ensures EnterSupply(s, env, sender, id, assets, shares, onBehalf).Success? <==>
      && Opens(s, env, id, assets, shares) && onBehalf != ZERO_ADDRESS
      && AccrueState(s, env, id).Success?
      && var m, p := AccrueState(s, env, id).value.MarketOf(id), AccrueState(s, env, id).value.PositionOf(id, onBehalf);
      && var (paid, minted) := PaidIn(assets, shares, m.totalSupplyAssets, m.totalSupplyShares);
      && InFits(assets, shares, m.totalSupplyAssets, m.totalSupplyShares)
      && m.totalSupplyAssets + paid <= MAX_UINT128 && m.totalSupplyShares + minted <= MAX_UINT128
  {
    hide Down, Up, AccrueState, MarketInv, AccrualFits, MarketUpdates.Supply, PaidIn, InFits;
    AccrualSucceeds(s, env, id);
    if s.Created(id) && AccrueState(s, env, id).Success? {
      var s1 := AccrueState(s, env, id).value;
      AccrueStep(s, env, id);
      SharesWithinTotals(s1, id, onBehalf);
      SupplySucceeds(s1.MarketOf(id), s1.PositionOf(id, onBehalf), assets, shares);
    }
  }

  /** A repayment is let through up to what is owed, and needs nobody's permission. */
  lemma RepayLetThrough(s: State, env: Env, sender: Caller, id: Id, assets: uint256, shares: uint256, onBehalf: Address)
    requires MarketInv(s)
    ensures EnterRepay(s, env, sender, id, assets, shares, onBehalf).Success? <==>
      && Opens(s, env, id, assets, shares) && onBehalf != ZERO_ADDRESS
      && AccrueState(s, env, id).Success?
      && var m, p := AccrueState(s, env, id).value.MarketOf(id), AccrueState(s, env, id).value.PositionOf(id, onBehalf);
      && InFits(assets, shares, m.totalBorrowAssets, m.totalBorrowShares)
      && PaidIn(assets, shares, m.totalBorrowAssets, m.totalBorrowShares).1 <= p.borrowShares
  {
    hide Down, Up, AccrueState, MarketInv, AccrualFits, MarketUpdates.Repay, PaidIn, InFits;
    AccrualSucceeds(s, env, id);
    if s.Created(id) && AccrueState(s, env, id).Success? {
      var s1 := AccrueState(s, env, id).value;
      AccrueStep(s, env, id);
      SharesWithinTotals(s1, id, onBehalf);
      RepaySucceeds(s1.MarketOf(id), s1.PositionOf(id, onBehalf), assets, shares);
    }
  }

  lemma AccruedLiquidity(s: State, env: Env, id: Id)
    requires Inv(s, []) && s.Created(id)
    ensures AccrueState(s, env, id).Success? ==>
      var s1 := AccrueState(s, env, id).value;
      && MarketInv(s1) && TokenInv(s1) && s1.ledgers == s.ledgers
      && Liquidity(s1.MarketOf(id)) <= s1.Balance(id.loanToken, MORPHO)
      && forall user: Address :: s1.PositionOf(id, user).collateral <= s1.Balance(id.collateralToken, MORPHO)
  {
    hide Down, Up, AccrueState, MarketInv;
    if AccrueState(s, env, id).Success? {
      AccrualAnswer(s, env, id);
      AccrueStep(s, env, id);
      assert id in s.market;
      BalanceCoversMarket(s, id);
      forall user: Address
        ensures AccrueState(s, env, id).value.PositionOf(id, user).collateral <= s.Balance(id.collateralToken, MORPHO)
      {
        BalanceCoversCollateral(s, id, user);
      }
    }
  }

  /**
   * At top level a withdrawal is let through exactly if the sender may act for the account, the account has the shares,
   * and their worth is not lent out; the contract then always has the tokens.
   */
  lemma WithdrawLetThrough(
      s: State, env: Env, sender: Caller, id: Id, assets: uint256, shares: uint256, onBehalf: Address,
      receiver: Address)
    requires Inv(s, [])
    ensures EnterWithdraw(s, env, sender, id, assets, shares, onBehalf, receiver).Success? <==>
      && Opens(s, env, id, assets, shares) && MaySpend(s, sender, onBehalf, receiver, id.loanToken)
      && AccrueState(s, env, id).Success?
      && var m, p := AccrueState(s, env, id).value.MarketOf(id), AccrueState(s, env, id).value.PositionOf(id, onBehalf);
      && var (paid, burnt) := PaidOut(assets, shares, m.totalSupplyAssets, m.totalSupplyShares);
      && OutFits(assets, shares, m.totalSupplyAssets, m.totalSupplyShares)
      && burnt <= p.supplyShares && paid <= Liquidity(m)
  {
    hide Down, Up, AccrueState, Inv, MarketInv, AccrualFits, MarketUpdates.Withdraw, PaidOut, OutFits, Push,
      SupplyPriceLeq;
    InvParts(s, []);
    AccrualSucceeds(s, env, id);
    if s.Created(id) && AccrueState(s, env, id).Success? {
      var s1 := AccrueState(s, env, id).value;
      AccruedLiquidity(s, env, id);
      SharesWithinTotals(s1, id, onBehalf);
      InvAt(s1, id, onBehalf);
      var m, p := s1.MarketOf(id), s1.PositionOf(id, onBehalf);
      WithdrawSucceeds(m, p, assets, shares);
      WithdrawFacts(m, p, assets, shares);
      var u := MarketUpdates.Withdraw(m, p, assets, shares);
      if u.Success? {
        PutTokens(s1, id, u.value.market, onBehalf, u.value.position);
        PushSucceeds(s1.Put(id, u.value.market, onBehalf, u.value.position), id.loanToken, receiver, u.value.assets);
      }
    }
  }

  lemma PutTokens(s: State, id: Id, m: Market, user: Address, p: Position)
    requires TokenInv(s)
    ensures TokenInv(s.Put(id, m, user, p)) && TokenInv(s.SetPosition(id, user, p))
  {
  }

  /** Likewise a loan: the borrower must be healthy after it, and the assets not lent out already. */
  lemma BorrowLetThrough(
      s: State, env: Env, sender: Caller, id: Id, assets: uint256, shares: uint256, onBehalf: Address,
      receiver: Address)
    requires Inv(s, [])
    ensures EnterBorrow(s, env, sender, id, assets, shares, onBehalf, receiver).Success? <==>
      && Opens(s, env, id, assets, shares) && MaySpend(s, sender, onBehalf, receiver, id.loanToken)
      && AccrueState(s, env, id).Success?
      && var m, p := AccrueState(s, env, id).value.MarketOf(id), AccrueState(s, env, id).value.PositionOf(id, onBehalf);
      && LoanLetThrough(m, p, env.price, id.lltv, assets, shares)
  {
    hide Down, Up, AccrueState, Inv, MarketInv, AccrualFits, MarketUpdates.Borrow, PaidOut, OutFits, Push, DebtsKept,
      LoanLetThrough, Healthy;
    InvParts(s, []);
    AccrualSucceeds(s, env, id);
    if s.Created(id) && AccrueState(s, env, id).Success? {
      var s1 := AccrueState(s, env, id).value;
      AccruedLiquidity(s, env, id);
      var m, p := s1.MarketOf(id), s1.PositionOf(id, onBehalf);
      LoanSucceeds(m, p, env.price, id.lltv, assets, shares);
      BorrowFacts(m, p, env.price, id.lltv, assets, shares);
      var u := MarketUpdates.Borrow(m, p, env.price, id.lltv, assets, shares);
      if u.Success? {
        PutTokens(s1, id, u.value.market, onBehalf, u.value.position);
        PushSucceeds(s1.Put(id, u.value.market, onBehalf, u.value.position), id.loanToken, receiver, u.value.assets);
      }
    }
  }

  /** The health condition holds, of quotes that fit, unless there is no debt. */
  ghost predicate Sufficient(m: Market, p: Position, price: Option<uint256>, lltv: uint256) {
    p.borrowShares == 0 ||
    (price.Some? && HealthFits(m, p, price.value, lltv) && Healthy(m, p, price.value, lltv))
  }

  ghost predicate LoanLetThrough(
      m: Market, p: Position, price: Option<uint256>, lltv: uint256, assets: uint256, shares: uint256) {
    var (paid, minted) := PaidOut(assets, shares, m.totalBorrowAssets, m.totalBorrowShares);
    && OutFits(assets, shares, m.totalBorrowAssets, m.totalBorrowShares)
    && p.borrowShares + minted <= MAX_UINT128 && m.totalBorrowShares + minted <= MAX_UINT128
    && paid <= Liquidity(m)
    && Sufficient(m.(totalBorrowAssets := m.totalBorrowAssets + paid,
                     totalBorrowShares := m.totalBorrowShares + minted),
                  p.(borrowShares := p.borrowShares + minted), price, lltv)
  }

  lemma LoanSucceeds(m: Market, p: Position, price: Option<uint256>, lltv: uint256, assets: uint256, shares: uint256)
    ensures MarketUpdates.Borrow(m, p, price, lltv, assets, shares).Success? <==>
      LoanLetThrough(m, p, price, lltv, assets, shares)
  {
    hide Down, Up, PaidOut, OutFits, IsHealthy, MarketUpdates.Borrow, HealthFits, Healthy;
    BorrowSucceeds(m, p, price, lltv, assets, shares);
    var (paid, minted) := PaidOut(assets, shares, m.totalBorrowAssets, m.totalBorrowShares);
    if p.borrowShares + minted <= MAX_UINT128 && m.totalBorrowShares + minted <= MAX_UINT128 && paid <= Liquidity(m) {
      HealthDecided(m.(totalBorrowAssets := m.totalBorrowAssets + paid,
                       totalBorrowShares := m.totalBorrowShares + minted),
                    p.(borrowShares := p.borrowShares + minted), price, lltv);
    }
  }

  /** Collateral is let out exactly if it is there and what remains suffices. */
  lemma WithdrawCollateralLetThrough(
      s: State, env: Env, sender: Caller, id: Id, assets: uint256, onBehalf: Address, receiver: Address)
    requires Inv(s, [])
    ensures EnterWithdrawCollateral(s, env, sender, id, assets, onBehalf, receiver).Success? <==>
      && Opens(s, env, id, assets, 0) && MaySpend(s, sender, onBehalf, receiver, id.collateralToken)
      && AccrueState(s, env, id).Success?
      && var m, p := AccrueState(s, env, id).value.MarketOf(id), AccrueState(s, env, id).value.PositionOf(id, onBehalf);
      && assets <= p.collateral
      && Sufficient(m, p.(collateral := p.collateral - assets), env.price, id.lltv)
  {
    hide AccrueState, Inv, MarketInv, AccrualFits, MarketUpdates.WithdrawCollateral, Push, Sufficient, Healthy,
      IsHealthy;
    InvParts(s, []);
    AccrualSucceeds(s, env, id);
    if s.Created(id) && AccrueState(s, env, id).Success? {
      var s1 := AccrueState(s, env, id).value;
      AccruedLiquidity(s, env, id);
      var m, p := s1.MarketOf(id), s1.PositionOf(id, onBehalf);
      RemainingSucceeds(m, p, env.price, id.lltv, assets);
      var r := MarketUpdates.WithdrawCollateral(m, p, env.price, id.lltv, assets);
      if r.Success? {
        PutTokens(s1, id, m, onBehalf, r.value);
        PushSucceeds(s1.SetPosition(id, onBehalf, r.value), id.collateralToken, receiver, assets);
      }
    }
  }

  lemma RemainingSucceeds(m: Market, p: Position, price: Option<uint256>, lltv: uint256, assets: uint256)
    ensures MarketUpdates.WithdrawCollateral(m, p, price, lltv, assets).Success? <==>
      && assets <= p.collateral
      && Sufficient(m, p.(collateral := p.collateral - assets), price, lltv)
  {
    hide Down, Up, IsHealthy, MarketUpdates.WithdrawCollateral, HealthFits, Healthy;
    WithdrawCollateralSucceeds(m, p, price, lltv, assets);
    if assets <= p.collateral {
      HealthDecided(m, p.(collateral := p.collateral - assets), price, lltv);
    }
  }

  /**
   * A liquidation is let through, for anyone, exactly if the oracle answers, the position is unhealthy, and the amounts
   * are within its debt and its collateral.
   */
  lemma LiquidateLetThrough(
      s: State, env: Env, sender: Caller, id: Id, borrower: Address, seizedAssets: uint256, repaidShares: uint256)
    requires Inv(s, [])
    ensures EnterLiquidate(s, env, sender, id, borrower, seizedAssets, repaidShares).Success? <==>
      && Opens(s, env, id, seizedAssets, repaidShares)
      && id.collateralToken in s.ledgers && env.price.Some?
      && AccrueState(s, env, id).Success?
      && var m, p := AccrueState(s, env, id).value.MarketOf(id), AccrueState(s, env, id).value.PositionOf(id, borrower);
      && LiquidationLetThrough(m, p, env.price.value, id.lltv, seizedAssets, repaidShares)
  {
    hide Down, Up, AccrueState, Inv, MarketInv, AccrualFits, MarketUpdates.Liquidate, Push, DebtsKept, Healthy,
      LiquidationLetThrough, PriceLeq;
    InvParts(s, []);
    AccrualSucceeds(s, env, id);
    if s.Created(id) && AccrueState(s, env, id).Success? {
      var s1 := AccrueState(s, env, id).value;
      AccruedLiquidity(s, env, id);
      AccrueStep(s, env, id);
      SharesWithinTotals(s1, id, borrower);
      InvAt(s1, id, borrower);
      var m, p := s1.MarketOf(id), s1.PositionOf(id, borrower);
      LiquidateFacts(m, p, env.price, id.lltv, seizedAssets, repaidShares);
      if env.price.Some? {
        LiquidationSucceeds(m, p, env.price.value, id.lltv, seizedAssets, repaidShares);
      }
      var l := MarketUpdates.Liquidate(m, p, env.price, id.lltv, seizedAssets, repaidShares);
      if l.Success? {
        PutTokens(s1, id, l.value.market, borrower, l.value.position);
        PushSucceeds(s1.Put(id, l.value.market, borrower, l.value.position), id.collateralToken, sender,
                     l.value.seizedAssets);
      }
    }
  }

  /** Collateral is taken for anyone from anyone; a flash loan needs the tokens to be there. */
  lemma DepositLetThrough(
      s: State, env: Env, sender: Caller, id: Id, token: Address, assets: uint256, onBehalf: Address)
    requires TokenInv(s)
    ensures Enter(s, env, sender, Action.SupplyCollateral(id, assets, onBehalf)).Success? <==>
      && s.Created(id) && assets != 0 && onBehalf != ZERO_ADDRESS
      && s.PositionOf(id, onBehalf).collateral + assets <= MAX_UINT128
    ensures Enter(s, env, sender, Action.FlashLoan(token, assets)).Success? <==>
      assets != 0 && token in s.ledgers && assets <= s.Balance(token, MORPHO)
  {
    hide Push;
    PushSucceeds(s, token, sender, assets);
  }

  /** Who may change which setting to what. */
  lemma SettingLetThrough(s: State, env: Env, sender: Caller, address: Address, lltv: uint256, id: Id)
    requires MarketInv(s)
    ensures Enter(s, env, sender, Action.SetOwner(address)).Success? <==> sender == s.owner && address != s.owner
    ensures Enter(s, env, sender, Action.SetFeeRecipient(address)).Success?
       <==> sender == s.owner && address != s.feeRecipient
    ensures Enter(s, env, sender, Action.EnableIrm(address)).Success?
       <==> sender == s.owner && address !in s.isIrmEnabled
    ensures Enter(s, env, sender, Action.EnableLltv(lltv)).Success?
       <==> sender == s.owner && lltv !in s.isLltvEnabled && lltv < WAD
    ensures Enter(s, env, sender, Action.CreateMarket(id)).Success? <==>
      && id.irm in s.isIrmEnabled && id.lltv in s.isLltvEnabled && !s.Created(id)
      && (id.irm == ZERO_ADDRESS || env.rate.Some?)
  {
  }

  lemma FeeLetThrough(s: State, env: Env, sender: Caller, id: Id, fee: uint256)
    requires MarketInv(s)
    ensures Enter(s, env, sender, Action.SetFee(id, fee)).Success? <==>
      && sender == s.owner && s.Created(id) && fee != s.MarketOf(id).fee && fee <= MAX_FEE
      && AccrualFits(s.MarketOf(id), s.PositionOf(id, s.feeRecipient), env, id.irm)
    ensures Enter(s, env, sender, Action.AccrueInterest(id)).Success? <==>
      s.Created(id) && AccrualFits(s.MarketOf(id), s.PositionOf(id, s.feeRecipient), env, id.irm)
  {
    hide AccrueState, MarketInv, AccrualFits;
    AccrualSucceeds(s, env, id);
  }

  // ---------------------------------------------------------------- nested calls

  /** The storage after the first `i` calls, whether or not they revert. */
  function After(s: State, calls: seq<Call>, i: nat): State
    requires i <= |calls|
    decreases i
  {
    if i == 0 then s else After(Execute(s, calls[0]), calls[1..], i - 1)
  }

  /** The calls of a callback are made in order, and it goes through exactly if those that must succeed do. */
  lemma {:induction false} CallbackAnswer(s: State, calls: seq<Call>)
    ensures RunAll(s, calls).Success? <==>
      forall i :: 0 <= i < |calls| && calls[i].mustSucceed ==> Perform(After(s, calls, i), calls[i]).Success?
    ensures RunAll(s, calls).Success? ==> RunAll(s, calls).value == After(s, calls, |calls|)
    decreases |calls|
  {
    hide Perform, Execute;
    if calls != [] {
      var s1, rest := Execute(s, calls[0]), calls[1..];
      CallbackAnswer(s1, rest);
      assert After(s, calls, 0) == s;
      forall i | 0 <= i < |rest| ensures rest[i] == calls[i + 1] && After(s1, rest, i) == After(s, calls, i + 1) {
      }
      if RunAll(s1, rest).Success? && !(Perform(s, calls[0]).Failure? && calls[0].mustSucceed) {
        forall i | 0 <= i < |calls| && calls[i].mustSucceed ensures Perform(After(s, calls, i), calls[i]).Success? {
          if i > 0 {
            assert rest[i - 1] == calls[i];
          }
        }
      }
    }
  }

  // ---------------------------------------------------------------- permissions

  /** A signed authorization works once: it takes its place in the signer's sequence and sets what it says. */
  lemma SignatureAnswer(s: State, env: Env, sender: Caller, a: Authorization, signatory: Address)
    ensures var e := Enter(s, env, sender, Action.SetAuthorizationWithSig(a, signatory));
      && (e.Success? <==>
          && env.now <= a.deadline && a.nonce == s.NonceOf(a.authorizer) < MAX_UINT256
          && signatory == a.authorizer != ZERO_ADDRESS)
      && (e.Success? ==>
          var s' := e.value.state;
          && s' == s.(nonce := s'.nonce, isAuthorized := s'.isAuthorized)
          && (forall user: Address ::
              s'.NonceOf(user) == s.NonceOf(user) + (if user == a.authorizer then 1 else 0))
          && (forall from: Address, to: Address ::
              (from, to) in s'.isAuthorized <==>
                if (from, to) == (a.authorizer, a.authorized) then a.isAuthorized else (from, to) in s.isAuthorized))
  {
  }

  lemma AuthorizationAnswer(s: State, env: Env, sender: Caller, authorized: Address, flag: bool)
    ensures var e := Enter(s, env, sender, Action.SetAuthorization(authorized, flag));
      && (e.Success? <==> flag != ((sender, authorized) in s.isAuthorized))
      && (e.Success? ==>
          var s' := e.value.state;
          && s' == s.(isAuthorized := s'.isAuthorized)
          && (forall from: Address, to: Address ::
              (from, to) in s'.isAuthorized <==>
                if (from, to) == (sender, authorized) then flag else (from, to) in s.isAuthorized))
  {
  }

  lemma NoncesGrow(s: State, c: Call, user: Address)
    requires MarketInv(s)
    ensures var e := Enter(s, c.env, c.sender, c.action);
      e.Success? ==> s.NonceOf(user) <= e.value.state.NonceOf(user)
  {
    hide MarketInv, Changes, Base;
    if c.action.SetAuthorizationWithSig? {
      SignatureAnswer(s, c.env, c.sender, c.action.authorization, c.action.signatory);
    } else {
      hide Enter;
      CallAnswer(s, c);
      if Enter(s, c.env, c.sender, c.action).Success? {
        BaseKeeps(s, c.env, c.action);
        ChangesKeep(Base(s, c.env, c.action).value, Enter(s, c.env, c.sender, c.action).value.state, c.env, c.action,
                    Enter(s, c.env, c.sender, c.action).value.returned);
      }
    }
  }

  ghost predicate OwnersAction(action: Action) {
    action.SetOwner? || action.SetFeeRecipient? || action.SetFee? || action.EnableIrm? || action.EnableLltv?
  }

  /** The owner, the fee recipient, the enabled rate models and limits, and the fees of all markets. */
  ghost predicate SameConfiguration(s: State, s': State) {
    && s'.owner == s.owner && s'.feeRecipient == s.feeRecipient
    && s'.isIrmEnabled == s.isIrmEnabled && s'.isLltvEnabled == s.isLltvEnabled
    && forall id: Id :: s'.MarketOf(id).fee == s.MarketOf(id).fee
  }

  lemma BaseKeeps(s: State, env: Env, action: Action)
    ensures var b := Base(s, env, action);
      b.Success? ==> b.value.nonce == s.nonce && SameConfiguration(s, b.value)
  {
    hide Up, AccrueState, Down, Interest;
    if MarketOfAction(action).Some? {
      AccrualAnswer(s, env, MarketOfAction(action).value);
    }
  }

  lemma ChangesKeep(s: State, s': State, env: Env, action: Action, r: Returned)
    requires Changes(s, s', env, action, r)
    ensures !action.SetAuthorizationWithSig? ==> s'.nonce == s.nonce
    ensures !OwnersAction(action) ==> SameConfiguration(s, s')
  {
    hide PaidIn, PaidOut, LiquidationMoves, Healthy, LiquidationIncentiveFactor, Smaller;
    if action.Liquidate? {
      var id, factor := action.id, LiquidationIncentiveFactor(action.id.lltv).value;
      LiquidationKeepsFee(
        s.MarketOf(id), s.PositionOf(id, action.borrower), s'.MarketOf(id), s'.PositionOf(id, action.borrower),
        env.price.value, factor, action.seizedAssets, action.repaidShares, r.first, r.second);
    }
  }

  lemma LiquidationKeepsFee(
      m: Market, p: Position, m': Market, p': Position, price: nat, lif: nat, seizedAssets: nat, repaidShares: nat,
      seized: nat, paid: nat)
    requires lif > 0 && (seizedAssets == 0 ==> price > 0)
    requires LiquidationMoves(m, p, m', p', price, lif, seizedAssets, repaidShares, seized, paid)
    ensures m'.fee == m.fee
  {
    hide RepaidFor, SeizedFor, OwedUp;
  }

  /** Once used, a signed authorization is refused at every point of every run that follows. */
  lemma SignaturesWorkOnce(
      s: State, frames: seq<Pull>, calls: seq<Call>, i: nat, a: Authorization, env: Env, sender: Caller,
      signatory: Address)
    requires Inv(s, frames) && a.nonce < s.NonceOf(a.authorizer)
    requires i < |Points(s, frames, calls)|
    ensures var t := Points(s, frames, calls)[i].state;
      Enter(t, env, sender, Action.SetAuthorizationWithSig(a, signatory)).Failure?
  {
    var p := (t: State) => a.nonce < t.NonceOf(a.authorizer);
    var ok := (_: State, _: Call) => true;
    assert StepKeeps(p, ok) by {
      forall t: State, fs: seq<Pull>, c: Call
        | Inv(t, fs) && p(t) && ok(t, c) && Enter(t, c.env, c.sender, c.action).Success?
        ensures p(Enter(t, c.env, c.sender, c.action).value.state)
      {
        hide MarketInv, Enter;
        NoncesGrow(t, c, a.authorizer);
      }
    }
    hide Points, Inv, StepKeeps;
    RunKeeps(p, ok, s, frames, calls);
    hide Enter;
    SignatureAnswer(Points(s, frames, calls)[i].state, env, sender, a, signatory);
  }

  // ---------------------------------------------------------------- configuration

  lemma OthersConfigureNothing(s: State, c: Call)
    requires MarketInv(s) && c.sender != s.owner
    ensures var e := Enter(s, c.env, c.sender, c.action); e.Success? ==> SameConfiguration(s, e.value.state)
  {
    hide MarketInv, Changes, Base;
    if Enter(s, c.env, c.sender, c.action).Success? {
      OwnerOnly(s, c);
      hide Enter;
      CallAnswer(s, c);
      BaseKeeps(s, c.env, c.action);
      ChangesKeep(Base(s, c.env, c.action).value, Enter(s, c.env, c.sender, c.action).value.state, c.env, c.action,
                  Enter(s, c.env, c.sender, c.action).value.returned);
    }
  }

  lemma OwnerOnly(s: State, c: Call)
    requires c.sender != s.owner
    ensures Enter(s, c.env, c.sender, c.action).Success? ==> !OwnersAction(c.action)
  {
  }

  /** Over any run in which the owner makes no call, at every point of it, the configuration is what it was. */
  lemma OnlyTheOwnerConfigures(s: State, frames: seq<Pull>, calls: seq<Call>)
    requires Inv(s, frames)
    requires AdmissibleAlong(Points(s, frames, calls), (_, c: Call) => c.sender != s.owner)
    ensures forall i :: 0 <= i < |Points(s, frames, calls)| ==> SameConfiguration(s, Points(s, frames, calls)[i].state)
    ensures RunAll(s, calls).Success? ==> SameConfiguration(s, RunAll(s, calls).value)
  {
    var p := (t: State) => SameConfiguration(s, t);
    var ok := (_: State, c: Call) => c.sender != s.owner;
    assert StepKeeps(p, ok) by {
      forall t: State, fs: seq<Pull>, c: Call
        | Inv(t, fs) && p(t) && ok(t, c) && Enter(t, c.env, c.sender, c.action).Success?
        ensures p(Enter(t, c.env, c.sender, c.action).value.state)
      {
        hide MarketInv, Enter;
        OthersConfigureNothing(t, c);
      }
    }
    hide Points, Inv, StepKeeps;
    RunKeeps(p, ok, s, frames, calls);
  }
}
