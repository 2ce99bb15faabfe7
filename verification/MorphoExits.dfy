/** Getting money out: supplying and withdrawing, borrowing and repaying, and leaving a market without loans. */
module MorphoExits {
  import opened Wrappers
  import opened Words
  import opened Arithmetic
  import opened Totals
  import opened MathLib
  import opened SharesMathLib
  import opened MarketUpdates
  import opened MarketFacts
  import opened Erc20
  import opened MorphoSpec
  import opened MorphoInvariant
  import opened MorphoRuns
  import opened MorphoTheorems

  // ---------------------------------------------------------------- there and back

  lemma WithdrawnShares(m: Market, p: Position, shares: uint256)
    ensures var w := MarketUpdates.Withdraw(m, p, 0, shares);
      w.Success? ==> w.value.assets == WorthDown(shares, m.totalSupplyAssets, m.totalSupplyShares)
  {
    hide MarketUpdates.Withdraw, Down, Up, SupplyPriceLeq;
    WithdrawFacts(m, p, 0, shares);
  }

  lemma RepaidShares(m: Market, p: Position, shares: uint256)
    ensures var r := MarketUpdates.Repay(m, p, 0, shares);
      r.Success? ==> r.value.assets == OwedUp(shares, m.totalBorrowAssets, m.totalBorrowShares)
  {
    hide MarketUpdates.Repay, Down, Up, DebtsKept;
    RepayFacts(m, p, 0, shares);
  }

  /** The rounding of what is paid in is for less than one share, or one asset. */
  lemma PaidInNearly(assets: nat, shares: nat, a: nat, s: nat)
    ensures var (paid, counted) := PaidIn(assets, shares, a, s);
      paid * (s + VIRTUAL_SHARES) < counted * (a + 1) + (if assets > 0 then a + 1 else s + VIRTUAL_SHARES)
  {
    hide Down, Up;
    DownBounds(assets, s + VIRTUAL_SHARES, a + 1);
    UpBounds(shares, a + 1, s + VIRTUAL_SHARES);
  }

  lemma PaidOutNearly(assets: nat, shares: nat, a: nat, s: nat)
    ensures var (paid, counted) := PaidOut(assets, shares, a, s);
      counted * (a + 1) < paid * (s + VIRTUAL_SHARES) + (if assets > 0 then a + 1 else s + VIRTUAL_SHARES)
  {
    hide Down, Up;
    UpBounds(assets, s + VIRTUAL_SHARES, a + 1);
    DownBounds(shares, a + 1, s + VIRTUAL_SHARES);
  }

  /**
   * The amount is short of the other one by less than an asset and the price of one share in a market with these
   * totals, which had `paid` assets less before; and by at most one asset if that was what the rounding was for.
   */
  ghost predicate NearlyEqual(short: nat, long: nat, a: nat, s: nat, paid: nat, byAssets: bool) {
    && short <= long
    && (byAssets ==> long * (s + VIRTUAL_SHARES) < (short + 1) * (s + VIRTUAL_SHARES) + (a - paid + 1))
    && (!byAssets ==> long <= short + 1)
  }

  lemma SupplyThenWithdrawInMarket(m: Market, p: Position, assets: uint256, shares: uint256, q: Position)
    ensures var u := MarketUpdates.Supply(m, p, assets, shares);
      u.Success? ==>
        var m' := u.value.market;
        var w := MarketUpdates.Withdraw(m', q, 0, u.value.shares);
        w.Success? ==>
          NearlyEqual(w.value.assets, u.value.assets, m'.totalSupplyAssets, m'.totalSupplyShares, u.value.assets,
                      assets > 0)
  {
    hide Down, Up, MarketUpdates.Supply, MarketUpdates.Withdraw, SupplyPriceLeq, WorthDown, PaidIn;
    var u := MarketUpdates.Supply(m, p, assets, shares);
    if u.Success? {
      var a, s := m.totalSupplyAssets, m.totalSupplyShares;
      SupplyFacts(m, p, assets, shares);
      PaidInRounding(assets, shares, a, s);
      PaidInNearly(assets, shares, a, s);
      WithdrawnShares(u.value.market, q, u.value.shares);
      MintedRedeemForNoMore(a, s, u.value.assets, u.value.shares);
      MintedRedeemForNearly(a, s, u.value.assets, u.value.shares, if assets > 0 then a + 1 else s + VIRTUAL_SHARES);
    }
  }

  lemma BorrowThenRepayInMarket(
      m: Market, p: Position, price: Option<uint256>, lltv: uint256, assets: uint256, shares: uint256, q: Position)
    ensures var u := MarketUpdates.Borrow(m, p, price, lltv, assets, shares);
      u.Success? ==>
        var m' := u.value.market;
        var r := MarketUpdates.Repay(m', q, 0, u.value.shares);
        r.Success? ==>
          NearlyEqual(u.value.assets, r.value.assets, m'.totalBorrowAssets, m'.totalBorrowShares, u.value.assets,
                      assets > 0)
  {
    hide Down, Up, MarketUpdates.Borrow, MarketUpdates.Repay, OwedUp, IsHealthy, Healthy, DebtsKept, PaidOut;
    var u := MarketUpdates.Borrow(m, p, price, lltv, assets, shares);
    if u.Success? {
      var a, s := m.totalBorrowAssets, m.totalBorrowShares;
      BorrowFacts(m, p, price, lltv, assets, shares);
      PaidOutRounding(assets, shares, a, s);
      PaidOutNearly(assets, shares, a, s);
      RepaidShares(u.value.market, q, u.value.shares);
      BorrowedCostNoLess(a, s, u.value.assets, u.value.shares);
      BorrowedCostNearly(a, s, u.value.assets, u.value.shares, if assets > 0 then a + 1 else s + VIRTUAL_SHARES);
    }
  }

  /**
   * Whoever supplies and then, before anything else happens in the market and in the same block, withdraws the shares
   * minted for it, by whichever account and to whomever, gets back what was paid in but for the roundings: at most one
   * asset less if the supply was given in shares, and less than one asset and one share's price less otherwise.
   */
  lemma SupplyThenWithdraw(
      s: State, env: Env, sender: Caller, id: Id, assets: uint256, shares: uint256, onBehalf: Address,
      s': State, env': Env, sender': Caller, from: Address, receiver: Address)
    requires env'.now == env.now <= MAX_UINT128
    ensures var e := EnterSupply(s, env, sender, id, assets, shares, onBehalf);
      e.Success? && s'.MarketOf(id) == e.value.state.MarketOf(id) ==>
        var m', paid := s'.MarketOf(id), e.value.returned.first;
        var w := EnterWithdraw(s', env', sender', id, 0, e.value.returned.second, from, receiver);
        w.Success? ==>
          NearlyEqual(w.value.returned.first, paid, m'.totalSupplyAssets, m'.totalSupplyShares, paid, assets > 0)
  {
    hide Down, Up, MarketUpdates.Supply, MarketUpdates.Withdraw, AccrueState, NearlyEqual, PaidIn, SupplyPriceLeq;
    var e := EnterSupply(s, env, sender, id, assets, shares, onBehalf);
    if e.Success? && s'.MarketOf(id) == e.value.state.MarketOf(id) {
      var s1 := AccrueState(s, env, id).value;
      AccrualSetsTheTime(s, env, id);
      SupplyFacts(s1.MarketOf(id), s1.PositionOf(id, onBehalf), assets, shares);
      NoTimeNoAccrual(s', env', id);
      SupplyThenWithdrawInMarket(s1.MarketOf(id), s1.PositionOf(id, onBehalf), assets, shares, s'.PositionOf(id, from));
    }
  }

  /** Likewise, borrowing and then repaying the shares of debt costs what was received and little more. */
  lemma BorrowThenRepay(s: State, env: Env, sender: Caller, id: Id, assets: uint256, shares: uint256, onBehalf: Address,
                        receiver: Address, s': State, env': Env, sender': Caller, debtor: Address)
    requires env'.now == env.now <= MAX_UINT128
    ensures var e := EnterBorrow(s, env, sender, id, assets, shares, onBehalf, receiver);
      e.Success? && s'.MarketOf(id) == e.value.state.MarketOf(id) ==>
        var m', received := s'.MarketOf(id), e.value.returned.first;
        var r := EnterRepay(s', env', sender', id, 0, e.value.returned.second, debtor);
        r.Success? ==>
          NearlyEqual(received, r.value.returned.first, m'.totalBorrowAssets, m'.totalBorrowShares, received,
                      assets > 0)
  {
    hide Down, Up, MarketUpdates.Borrow, MarketUpdates.Repay, AccrueState, Healthy, DebtsKept, NearlyEqual, PaidOut;
    var e := EnterBorrow(s, env, sender, id, assets, shares, onBehalf, receiver);
    if e.Success? && s'.MarketOf(id) == e.value.state.MarketOf(id) {
      var s1 := AccrueState(s, env, id).value;
      AccrualSetsTheTime(s, env, id);
      BorrowFacts(s1.MarketOf(id), s1.PositionOf(id, onBehalf), env.price, id.lltv, assets, shares);
      NoTimeNoAccrual(s', env', id);
      BorrowThenRepayInMarket(s1.MarketOf(id), s1.PositionOf(id, onBehalf), env.price, id.lltv, assets, shares,
                              s'.PositionOf(id, debtor));
    }
  }

  lemma AccrualSetsTheTime(s: State, env: Env, id: Id)
    requires env.now <= MAX_UINT128
    ensures var a := AccrueState(s, env, id); a.Success? ==> a.value.MarketOf(id).lastUpdate == env.now
  {
    hide Down, Up, Accrue, Truncate128;
    SmallTime(env.now);
    AccrueFacts(s.MarketOf(id), s.PositionOf(id, s.feeRecipient), env, id.irm);
  }

  // ---------------------------------------------------------------- everyone can leave an idle market

  /** The answer of the test rate model for a market without loans. */
  lemma IdleRate(m: Market)
    requires m.totalBorrowAssets == 0
    ensures BorrowRateView(m) == Success(0)
  {
  }

  lemma IdleAccrual(m: Market, recipient: Position, env: Env, irm: Address)
    requires m.totalBorrowAssets == 0 && m.fee <= MAX_FEE
    requires m.lastUpdate <= env.now <= MAX_UINT128 && env.rate == Some(0)
    ensures var r := Accrue(m, recipient, env, irm);
      && r.Success?
      && r.value.market == m.(lastUpdate := env.now)
      && (r.value.fees.Some? ==> r.value.fees.value == recipient)
  {
    assert WTaylorCompounded(0, env.now - m.lastUpdate) == Success(0);
    assert ChargeFee(m, recipient, 0).Success? ==> ChargeFee(m, recipient, 0).value.market == m;
  }

  /** Every account of the market as it was, and the market but for its time. */
  ghost predicate SameButTime(s: State, s': State, id: Id) {
    && s' == s.(market := s'.market, position := s'.position)
    && s'.MarketOf(id) == s.MarketOf(id).(lastUpdate := s'.MarketOf(id).lastUpdate)
    && forall user: Address :: s'.PositionOf(id, user) == s.PositionOf(id, user)
  }

  ghost predicate Idle(s: State, id: Id, now: uint256) {
    && s.Created(id)
    && s.MarketOf(id).totalBorrowAssets == 0
    && s.MarketOf(id).lastUpdate <= now <= MAX_UINT128
    && id.loanToken in s.ledgers
  }

  lemma IdleAccrualState(s: State, env: Env, id: Id)
    requires MarketInv(s) && Idle(s, id, env.now) && env.rate == Some(0)
    ensures AccrueState(s, env, id).Success?
    ensures SameButTime(s, AccrueState(s, env, id).value, id)
    ensures AccrueState(s, env, id).value.MarketOf(id).lastUpdate == env.now
  {
    hide Accrue;
    InvAt(s, id, ZERO_ADDRESS);
    IdleAccrual(s.MarketOf(id), s.PositionOf(id, s.feeRecipient), env, id.irm);
  }

  /** Redeeming all of one's shares in a market without loans passes every check but that of the token transfer. */
  lemma IdleWithdrawal(m: Market, p: Position, shares: uint256)
    requires m.totalBorrowAssets == 0
    requires 0 < shares == p.supplyShares <= m.totalSupplyShares
    ensures MarketUpdates.Withdraw(m, p, 0, shares).Success?
    ensures MarketUpdates.Withdraw(m, p, 0, shares).value.assets <= m.totalSupplyAssets
  {
    ShareOfTotal(shares, m.totalSupplyAssets, m.totalSupplyShares);
    DownFits(shares, m.totalSupplyAssets + 1, MAX_UINT128, MAX_UINT128 + 1);
  }

  lemma DownFits(x: nat, y: nat, xMax: nat, yMax: nat)
    requires x <= xMax && y <= yMax
    ensures x * y <= xMax * yMax
  {
    MulMonotone(x, xMax, y);
    MulMonotone(y, yMax, xMax);
    assert y * xMax == xMax * y;
    assert yMax * xMax == xMax * yMax;
  }

  /** The contract holds at least the unborrowed supplies of each market. */
  lemma BalanceCoversMarket(s: State, id: Id)
    requires Inv(s, []) && id in s.market
    ensures Liquidity(s.MarketOf(id)) <= s.Balance(id.loanToken, MORPHO)
  {
    var t := id.loanToken;
    assert Solvent(s, [], t);
    forall i | i in LoanColumn(s, t) ensures 0 <= LoanColumn(s, t)[i] {
      assert Sound(s.MarketOf(i));
    }
    TotalAtLeast<Id>(LoanColumn(s, t), id);
    TotalNonNegative<(Id, Address)>(CollateralColumn(s, t));
  }

  /** An authorized sender redeems all shares of a user to a receiver, at a time of their own. */
  datatype Exit = Exit(env: Env, sender: Caller, user: Address, receiver: Address)

  function RedeemAll(s: State, id: Id, x: Exit): Call {
    Call(x.env, x.sender, Action.Withdraw(id, 0, s.PositionOf(id, x.user).supplyShares, x.user, x.receiver), [], true)
  }

  ghost predicate Ready(s: State, id: Id, x: Exit) {
    && x.receiver != ZERO_ADDRESS
    && s.PositionOf(id, x.user).supplyShares > 0
    && s.SenderAuthorized(x.sender, x.user)
    && x.env.rate == Some(0)
  }

  /** Nothing but the user's shares, the totals and the token change: the receiver gets what the shares are worth. */
  ghost predicate Left(s: State, s': State, id: Id, x: Exit) {
    && s'.PositionOf(id, x.user).supplyShares == 0
    && (x.receiver != MORPHO ==>
      s'.Balance(id.loanToken, x.receiver) == s.Balance(id.loanToken, x.receiver) + Redeemable(s, id, x.user))
    && (forall other: Address :: other != x.user ==> s'.PositionOf(id, other) == s.PositionOf(id, other))
    && s'.isAuthorized == s.isAuthorized
  }

  /** The storage after such a call, before looking at the invariant. */
  lemma RedeemAllEnters(s: State, id: Id, x: Exit)
    requires Inv(s, []) && Idle(s, id, x.env.now) && Ready(s, id, x)
    ensures var r :=
      EnterWithdraw(s, x.env, x.sender, id, 0, s.PositionOf(id, x.user).supplyShares, x.user, x.receiver);
      && r.Success?
      && r.value.pull == NoPull
      && Left(s, r.value.state, id, x)
      && Idle(r.value.state, id, x.env.now)
  {
    hide Down, Up, AccrueState, MarketUpdates.Withdraw, MarketInv, Redeemable;
    var shares := s.PositionOf(id, x.user).supplyShares;
    IdleAccrualState(s, x.env, id);
    AccrueStep(s, x.env, id);
    var s1 := AccrueState(s, x.env, id).value;
    var m, p := s1.MarketOf(id), s1.PositionOf(id, x.user);
    SharesWithinTotals(s, id, x.user);
    IdleWithdrawal(m, p, shares);
    WithdrawFacts(m, p, 0, shares);
    var u := MarketUpdates.Withdraw(m, p, 0, shares).value;
    BalanceCoversMarket(s, id);
    MoveSucceeds(s.ledgers[id.loanToken], MORPHO, x.receiver, u.assets);
    MoveFacts(s.ledgers[id.loanToken], MORPHO, x.receiver, u.assets);
    WithdrawnIsRedeemable(s, s1, id, x.user);
  }

  lemma RedeemAllSucceeds(s: State, id: Id, x: Exit)
    requires Inv(s, []) && Idle(s, id, x.env.now) && Ready(s, id, x)
    ensures var c := RedeemAll(s, id, x);
      && Perform(s, c).Success?
      && Left(s, Execute(s, c), id, x)
      && Idle(Execute(s, c), id, x.env.now)
      && Inv(Execute(s, c), [])
  {
    hide EnterWithdraw, Inv, Left, Idle, Ready;
    var c := RedeemAll(s, id, x);
    RedeemAllEnters(s, id, x);
    EnterKeeps(s, [], x.env, x.sender, c.action);
    var e := Enter(s, x.env, x.sender, c.action).value;
    assert [] + [e.pull] == [NoPull];
    SettleKeeps(e.state, [], e.pull);
  }

  lemma WithdrawnIsRedeemable(s: State, s1: State, id: Id, user: Address)
    requires SameButTime(s, s1, id)
    ensures var w :=
      MarketUpdates.Withdraw(s1.MarketOf(id), s1.PositionOf(id, user), 0, s.PositionOf(id, user).supplyShares);
      w.Success? ==> w.value.assets == Redeemable(s, id, user)
  {
    WithdrawnShares(s1.MarketOf(id), s1.PositionOf(id, user), s.PositionOf(id, user).supplyShares);
  }

  /** The calls by which the given users, in this order, each have all their shares redeemed. */
  function RedeemEach(s: State, id: Id, exits: seq<Exit>): seq<Call> {
    if exits == [] then [] else [RedeemAll(s, id, exits[0])] + RedeemEach(s, id, exits[1..])
  }

  lemma {:induction false} RedeemEachSame(s: State, s': State, id: Id, exits: seq<Exit>)
    requires forall i :: 0 <= i < |exits| ==>
      s'.PositionOf(id, exits[i].user).supplyShares == s.PositionOf(id, exits[i].user).supplyShares
    ensures RedeemEach(s', id, exits) == RedeemEach(s, id, exits)
  {
    if exits != [] {
      assert s'.PositionOf(id, exits[0].user).supplyShares == s.PositionOf(id, exits[0].user).supplyShares;
      RedeemEachSame(s, s', id, exits[1..]);
    }
  }

  /** The users are different, and the calls are made one after the other, from `now` on. */
  ghost predicate InTurn(exits: seq<Exit>, now: uint256) {
    && (forall i, j :: 0 <= i < j < |exits| ==> exits[i].user != exits[j].user)
    && (forall i, j :: 0 <= i < j < |exits| ==> exits[i].env.now <= exits[j].env.now)
    && (forall i :: 0 <= i < |exits| ==> now <= exits[i].env.now <= MAX_UINT128)
  }

  /**
   * While nothing is borrowed, so that the test rate model answers zero, all suppliers' full share balances can be
   * withdrawn one after the other, in any order, at any times, by any authorized senders and to any receivers, and no
   * withdrawal reverts.
   */
  lemma {:induction false} EveryoneCanLeaveAnIdleMarket(s: State, now: uint256, id: Id, exits: seq<Exit>)
    requires Inv(s, []) && Idle(s, id, now) && InTurn(exits, now)
    requires forall i :: 0 <= i < |exits| ==> Ready(s, id, exits[i])
    ensures RunAll(s, RedeemEach(s, id, exits)).Success?
    ensures var s' := RunAll(s, RedeemEach(s, id, exits)).value;
      && (forall i :: 0 <= i < |exits| ==> s'.PositionOf(id, exits[i].user).supplyShares == 0)
      && (forall other: Address :: (forall i :: 0 <= i < |exits| ==> exits[i].user != other) ==>
        s'.PositionOf(id, other) == s.PositionOf(id, other))
    decreases |exits|
  {
    hide Inv, Perform;
    if exits != [] {
      var x, rest := exits[0], exits[1..];
      var c := RedeemAll(s, id, x);
      assert Ready(s, id, x);
      RedeemAllSucceeds(s, id, x);
      var s' := Execute(s, c);
      assert forall i :: 0 <= i < |rest| ==> rest[i] == exits[i + 1] && rest[i].user != x.user;
      RestIsReady(s, s', id, x, exits);
      RedeemEachSame(s, s', id, rest);
      EveryoneCanLeaveAnIdleMarket(s', x.env.now, id, rest);
      var calls := RedeemEach(s, id, exits);
      assert calls[0] == c && calls[1..] == RedeemEach(s', id, rest);
      assert RunAll(s, calls) == RunAll(s', calls[1..]);
    }
  }

  lemma RestIsReady(s: State, s': State, id: Id, x: Exit, exits: seq<Exit>)
    requires exits != [] && x == exits[0] && Left(s, s', id, x)
    requires forall i, j :: 0 <= i < j < |exits| ==> exits[i].user != exits[j].user
    requires forall i :: 0 <= i < |exits| ==> Ready(s, id, exits[i])
    ensures forall i :: 0 <= i < |exits[1..]| ==> Ready(s', id, exits[1..][i])
  {
    forall i | 0 <= i < |exits[1..]| ensures Ready(s', id, exits[1..][i]) {
      assert exits[1..][i] == exits[i + 1] && Ready(s, id, exits[i + 1]);
    }
  }

  lemma IdleRateAt(s: State, id: Id, now: uint256)
    requires Idle(s, id, now)
    ensures BorrowRateView(s.MarketOf(id)) == Success(0)
  {
    IdleRate(s.MarketOf(id));
  }
}
