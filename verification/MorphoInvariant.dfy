/**
 * What every step of the lending contract keeps: share totals, coverage of debts, and solvency, the last one
 * counting the transfers that open callbacks still owe.
 */
module MorphoInvariant {
  import opened Words
  import opened Totals
  import opened MathLib
  import opened MarketUpdates
  import opened MarketFacts
  import opened Erc20
  import opened MorphoSpec

  // ---------------------------------------------------------------- sums over the storage

  ghost function SupplyColumn(s: State, id: Id): map<(Id, Address), int> {
    map k <- s.position :: if k.0 == id then s.position[k].supplyShares else 0
  }

  ghost function BorrowColumn(s: State, id: Id): map<(Id, Address), int> {
    map k <- s.position :: if k.0 == id then s.position[k].borrowShares else 0
  }

  ghost function CollateralColumn(s: State, token: Address): map<(Id, Address), int> {
    map k <- s.position :: if k.0.collateralToken == token then s.position[k].collateral else 0
  }

  ghost function LoanColumn(s: State, token: Address): map<Id, int> {
    map id <- s.market :: if id.loanToken == token then Liquidity(s.market[id]) else 0
  }

  /** What the contract owes in one token: unborrowed supplies and deposited collateral. */
  ghost function Liabilities(s: State, token: Address): int {
    Total<Id>(LoanColumn(s, token)) + Total<(Id, Address)>(CollateralColumn(s, token))
  }

  /** What open callbacks will still bring in, in one token. */
  ghost function Pending(frames: seq<Pull>, token: Address): nat {
    if frames == [] then 0
    else Pending(frames[..|frames| - 1], token) + PendingOne(frames[|frames| - 1], token)
  }

  ghost function PendingOne(pull: Pull, token: Address): nat {
    if pull.Pull? && pull.token == token then pull.amount else 0
  }

  lemma PendingPush(frames: seq<Pull>, pull: Pull, token: Address)
    ensures Pending(frames + [pull], token) == Pending(frames, token) + PendingOne(pull, token)
  {
    assert (frames + [pull])[..|frames|] == frames;
  }

  // ---------------------------------------------------------------- the invariant

  /** The shares of all users add up to the market's totals. */
  ghost predicate TotalsMatch(s: State, id: Id) {
    && Total<(Id, Address)>(SupplyColumn(s, id)) == s.MarketOf(id).totalSupplyShares
    && Total<(Id, Address)>(BorrowColumn(s, id)) == s.MarketOf(id).totalBorrowShares
  }

  ghost predicate MarketInv(s: State) {
    && (forall id: Id :: TotalsMatch(s, id))
    && (forall id: Id :: Sound(s.MarketOf(id)))
    && (forall id: Id :: id in s.market ==> id.lltv < WAD)
    && (forall lltv :: lltv in s.isLltvEnabled ==> lltv < WAD)
    && (forall id: Id, user: Address :: Covered(s.PositionOf(id, user)))
  }

  /** Balances add up in every token, and the contract has approved no one. */
  ghost predicate TokenInv(s: State) {
    && (forall token: Address :: token in s.ledgers ==> s.ledgers[token].Backed())
    && (forall token: Address, spender: Address :: token in s.ledgers ==>
        s.ledgers[token].Allowance(MORPHO, spender) == 0)
  }

  ghost predicate Solvent(s: State, frames: seq<Pull>, token: Address) {
    Liabilities(s, token) <= s.Balance(token, MORPHO) + Pending(frames, token)
  }

  ghost predicate Inv(s: State, frames: seq<Pull>) {
    && MarketInv(s)
    && TokenInv(s)
    && (forall token: Address :: Solvent(s, frames, token))
  }

  /** The contract right after its construction, among tokens of which it may already hold some. */
  ghost predicate Genesis(s: State) {
    && s.owner != ZERO_ADDRESS && s.feeRecipient == ZERO_ADDRESS
    && s.position == map[] && s.market == map[] && s.nonce == map[]
    && s.isIrmEnabled == {} && s.isLltvEnabled == {} && s.isAuthorized == {}
    && TokenInv(s)
  }

  lemma GenesisInv(s: State)
    requires Genesis(s)
    ensures Inv(s, [])
  {
    forall id: Id ensures TotalsMatch(s, id) {
      assert SupplyColumn(s, id) == map[] && BorrowColumn(s, id) == map[];
    }
    forall token: Address ensures Solvent(s, [], token) {
      assert LoanColumn(s, token) == map[] && CollateralColumn(s, token) == map[];
    }
  }

  // ---------------------------------------------------------------- how the sums follow an update

  lemma PutTotals(s: State, id: Id, m: Market, user: Address, p: Position, i: Id)
    ensures var s' := s.Put(id, m, user, p);
      var q := s.PositionOf(id, user);
      && Total<(Id, Address)>(SupplyColumn(s', i)) ==
         Total<(Id, Address)>(SupplyColumn(s, i)) + (if i == id then p.supplyShares - q.supplyShares else 0)
      && Total<(Id, Address)>(BorrowColumn(s', i)) ==
         Total<(Id, Address)>(BorrowColumn(s, i)) + (if i == id then p.borrowShares - q.borrowShares else 0)
  {
    var s' := s.Put(id, m, user, p);
    var supplied := if i == id then p.supplyShares else 0;
    assert SupplyColumn(s', i) == SupplyColumn(s, i)[(id, user) := supplied];
    TotalUpdate<(Id, Address)>(SupplyColumn(s, i), (id, user), supplied);
    var borrowed := if i == id then p.borrowShares else 0;
    assert BorrowColumn(s', i) == BorrowColumn(s, i)[(id, user) := borrowed];
    TotalUpdate<(Id, Address)>(BorrowColumn(s, i), (id, user), borrowed);
  }

  lemma PutCollateral(s: State, id: Id, m: Market, user: Address, p: Position, token: Address)
    ensures Total<(Id, Address)>(CollateralColumn(s.Put(id, m, user, p), token)) ==
            Total<(Id, Address)>(CollateralColumn(s, token))
            + (if id.collateralToken == token then p.collateral - s.PositionOf(id, user).collateral else 0)
  {
    var s' := s.Put(id, m, user, p);
    var held := if id.collateralToken == token then p.collateral else 0;
    assert CollateralColumn(s', token) == CollateralColumn(s, token)[(id, user) := held];
    TotalUpdate<(Id, Address)>(CollateralColumn(s, token), (id, user), held);
  }

  lemma PutLoans(s: State, s': State, id: Id, m: Market, token: Address)
    requires s'.market == s.market[id := m]
    ensures Total<Id>(LoanColumn(s', token)) ==
            Total<Id>(LoanColumn(s, token))
            + (if id.loanToken == token then Liquidity(m) - Liquidity(s.MarketOf(id)) else 0)
  {
    var lent := if id.loanToken == token then Liquidity(m) else 0;
    assert LoanColumn(s', token) == LoanColumn(s, token)[id := lent];
    TotalUpdate<Id>(LoanColumn(s, token), id, lent);
  }

  lemma PutLiabilities(s: State, id: Id, m: Market, user: Address, p: Position, token: Address)
    ensures Liabilities(s.Put(id, m, user, p), token) == Liabilities(s, token)
      + (if id.loanToken == token then Liquidity(m) - Liquidity(s.MarketOf(id)) else 0)
      + (if id.collateralToken == token then p.collateral - s.PositionOf(id, user).collateral else 0)
  {
    PutCollateral(s, id, m, user, p, token);
    PutLoans(s, s.Put(id, m, user, p), id, m, token);
  }

  /** A known market's position can be written together with the market as it was. */
  lemma SetPositionAsPut(s: State, id: Id, user: Address, p: Position)
    requires id in s.market
    ensures s.SetPosition(id, user, p) == s.Put(id, s.MarketOf(id), user, p)
  {
    assert s.market[id := s.MarketOf(id)] == s.market;
  }

  // ---------------------------------------------------------------- steps

  /** From s to s' the invariant of the markets is kept, and the liabilities grow by at most what is given. */
  ghost predicate Step(s: State, s': State, id: Id, loaned: int, collateral: int) {
    && MarketInv(s')
    && s'.ledgers == s.ledgers
    && forall token: Address ::
         Liabilities(s', token) <= Liabilities(s, token)
           + (if token == id.loanToken then loaned else 0)
           + (if token == id.collateralToken then collateral else 0)
  }

  lemma PutStep(s: State, id: Id, m: Market, user: Address, p: Position, loaned: int, collateral: int)
    requires MarketInv(s) && id.lltv < WAD
    requires Sound(m) && Covered(p)
    requires Balanced(s.MarketOf(id), s.PositionOf(id, user), m, p)
    requires Liquidity(m) - Liquidity(s.MarketOf(id)) <= loaned
    requires p.collateral - s.PositionOf(id, user).collateral <= collateral
    ensures Step(s, s.Put(id, m, user, p), id, loaned, collateral)
  {
    var s' := s.Put(id, m, user, p);
    forall i: Id ensures TotalsMatch(s', i) {
      assert TotalsMatch(s, i);
      PutTotals(s, id, m, user, p, i);
    }
    forall i: Id ensures Sound(s'.MarketOf(i)) {
      assert Sound(s.MarketOf(i));
    }
    forall i: Id, u: Address ensures Covered(s'.PositionOf(i, u)) {
      assert Covered(s.PositionOf(i, u));
    }
    forall token: Address
      ensures Liabilities(s', token) <= Liabilities(s, token)
        + (if token == id.loanToken then loaned else 0) + (if token == id.collateralToken then collateral else 0)
    {
      PutLiabilities(s, id, m, user, p, token);
    }
  }

  lemma SetMarketStep(s: State, id: Id, m: Market)
    requires MarketInv(s) && id.lltv < WAD
    requires Sound(m)
    requires Balanced(s.MarketOf(id), EMPTY_POSITION, m, EMPTY_POSITION)
    requires Liquidity(m) <= Liquidity(s.MarketOf(id))
    ensures Step(s, s.SetMarket(id, m), id, 0, 0)
  {
    var s' := s.SetMarket(id, m);
    forall i: Id ensures TotalsMatch(s', i) && Sound(s'.MarketOf(i)) {
      assert TotalsMatch(s, i) && Sound(s.MarketOf(i));
      assert SupplyColumn(s', i) == SupplyColumn(s, i) && BorrowColumn(s', i) == BorrowColumn(s, i);
    }
    forall i: Id, u: Address ensures Covered(s'.PositionOf(i, u)) {
      assert Covered(s.PositionOf(i, u));
    }
    forall token: Address ensures Liabilities(s', token) <= Liabilities(s, token) {
      assert CollateralColumn(s', token) == CollateralColumn(s, token);
      PutLoans(s, s', id, m, token);
    }
  }

  /** What the invariant says of one market and one position. */
  lemma InvAt(s: State, id: Id, user: Address)
    requires MarketInv(s)
    ensures Sound(s.MarketOf(id)) && Covered(s.PositionOf(id, user))
    ensures id in s.market ==> id.lltv < WAD
  {
  }

  lemma StepKeepsMarkets(s: State, s': State, id: Id, loaned: int, collateral: int)
    requires Step(s, s', id, loaned, collateral)
    ensures MarketInv(s') && s'.ledgers == s.ledgers
  {
  }

  lemma AccrueStep(s: State, env: Env, id: Id)
    requires MarketInv(s) && s.Created(id)
    ensures AccrueState(s, env, id).Success? ==>
      var s' := AccrueState(s, env, id).value;
      && Step(s, s', id, 0, 0)
      && MarketInv(s') && id in s'.market && id.lltv < WAD
  {
    hide Down, Up, Accrue, MarketInv, Step;
    if AccrueState(s, env, id).Success? {
      var m, q := s.MarketOf(id), s.PositionOf(id, s.feeRecipient);
      InvAt(s, id, s.feeRecipient);
      AccrueFacts(m, q, env, id.irm);
      var a := Accrue(m, q, env, id.irm).value;
      if env.now != m.lastUpdate {
        if a.fees.Some? {
          PutStep(s, id, a.market, s.feeRecipient, a.fees.value, 0, 0);
        } else {
          SetMarketStep(s, id, a.market);
        }
      } else {
        NoStep(s, id);
      }
      StepKeepsMarkets(s, AccrueState(s, env, id).value, id, 0, 0);
    }
  }

  /** A user's shares are part of the totals. */
  lemma SharesWithinTotals(s: State, id: Id, user: Address)
    requires MarketInv(s)
    ensures s.PositionOf(id, user).borrowShares <= s.MarketOf(id).totalBorrowShares
    ensures s.PositionOf(id, user).supplyShares <= s.MarketOf(id).totalSupplyShares
  {
    assert TotalsMatch(s, id);
    if (id, user) in s.position {
      TotalAtLeast<(Id, Address)>(BorrowColumn(s, id), (id, user));
      TotalAtLeast<(Id, Address)>(SupplyColumn(s, id), (id, user));
    }
  }

  lemma TwoShareWithinTotals(s: State, id: Id, user: Address, other: Address)
    requires MarketInv(s) && user != other
    ensures s.PositionOf(id, user).borrowShares
      + s.PositionOf(id, other).borrowShares <= s.MarketOf(id).totalBorrowShares
  {
    assert TotalsMatch(s, id);
    SharesWithinTotals(s, id, user);
    SharesWithinTotals(s, id, other);
    if (id, user) in s.position && (id, other) in s.position {
      TotalAtLeastTwo<(Id, Address)>(BorrowColumn(s, id), (id, user), (id, other));
    }
  }

  // ---------------------------------------------------------------- token transfers

  lemma PushFacts(s: State, token: Address, to: Address, amount: uint256)
    requires TokenInv(s)
    ensures Push(s, token, to, amount).Success? ==>
      var s' := Push(s, token, to, amount).value;
      && s' == s.(ledgers := s'.ledgers)
      && TokenInv(s')
      && (forall t: Address :: s'.Balance(t, MORPHO) >= s.Balance(t, MORPHO) - (if t == token then amount else 0))
  {
    if Push(s, token, to, amount).Success? {
      MoveFacts(s.ledgers[token], MORPHO, to, amount);
      var s' := Push(s, token, to, amount).value;
      forall t: Address, spender: Address | t in s'.ledgers ensures s'.ledgers[t].Allowance(MORPHO, spender) == 0 {
        assert s.ledgers[t].Allowance(MORPHO, spender) == 0;
      }
    }
  }

  /** Pulling from the contract itself is impossible for lack of an allowance, except for nothing. */
  lemma PullFacts(s: State, token: Address, from: Address, amount: uint256)
    requires TokenInv(s)
    ensures PullFrom(s, token, from, amount).Success? ==>
      var s' := PullFrom(s, token, from, amount).value;
      && s' == s.(ledgers := s'.ledgers)
      && TokenInv(s')
      && (forall t: Address :: s'.Balance(t, MORPHO) == s.Balance(t, MORPHO) + (if t == token then amount else 0))
  {
    if PullFrom(s, token, from, amount).Success? {
      TransferFromFacts(s.ledgers[token], MORPHO, from, MORPHO, amount);
    }
  }

  /** The tokens do not enter the sums over the contract's own storage. */
  lemma LedgersIrrelevant(s: State, s': State)
    requires s' == s.(ledgers := s'.ledgers)
    ensures MarketInv(s) ==> MarketInv(s')
    ensures forall token: Address :: Liabilities(s', token) == Liabilities(s, token)
  {
    SameMarketsSameInvariant(s, s');
  }

  lemma SameMarketsSameInvariant(s: State, s': State)
    requires s'.position == s.position && s'.market == s.market && s'.isLltvEnabled == s.isLltvEnabled
    ensures MarketInv(s) ==> MarketInv(s')
    ensures forall token: Address :: Liabilities(s', token) == Liabilities(s, token)
  {
    if MarketInv(s) {
      forall id: Id ensures TotalsMatch(s', id) && Sound(s'.MarketOf(id)) {
        assert TotalsMatch(s, id) && Sound(s.MarketOf(id));
        assert SupplyColumn(s', id) == SupplyColumn(s, id) && BorrowColumn(s', id) == BorrowColumn(s, id);
      }
      forall id: Id, user: Address ensures Covered(s'.PositionOf(id, user)) {
        assert Covered(s.PositionOf(id, user));
      }
    }
    forall token: Address ensures Liabilities(s', token) == Liabilities(s, token) {
      assert LoanColumn(s', token) == LoanColumn(s, token);
      assert CollateralColumn(s', token) == CollateralColumn(s, token);
    }
  }

  // ---------------------------------------------------------------- every call keeps the invariant

  /** In every token, what is newly owed and what is sent out comes to at most what the pull brings in. */
  ghost predicate CoveredByPull(id: Id, loaned: int, collateral: int, pull: Pull, token: Address, amount: nat) {
    forall t: Address ::
      (if t == id.loanToken then loaned else 0) + (if t == id.collateralToken then collateral else 0)
        + (if t == token then amount else 0) <= PendingOne(pull, t)
  }

  /** A step whose growth in liabilities is covered by the pull it opens. */
  lemma StepWithPull(
      s: State, s1: State, s2: State, frames: seq<Pull>, id: Id, loaned: int, collateral: int, pull: Pull)
    requires Inv(s, frames)
    requires Step(s, s1, id, 0, 0) && Step(s1, s2, id, loaned, collateral)
    requires CoveredByPull(id, loaned, collateral, pull, 0, 0)
    ensures Inv(s2, frames + [pull])
  {
    forall t: Address ensures Solvent(s2, frames + [pull], t) {
      assert Solvent(s, frames, t);
      PendingPush(frames, pull, t);
    }
  }

  /** A step after which `amount` of `token` leaves the contract, having been owed no longer or being pulled back. */
  lemma StepWithPush(s: State, s1: State, s2: State, frames: seq<Pull>, id: Id, loaned: int, collateral: int,
                     pull: Pull, token: Address, to: Address, amount: uint256)
    requires Inv(s, frames)
    requires Step(s, s1, id, 0, 0) && Step(s1, s2, id, loaned, collateral)
    requires CoveredByPull(id, loaned, collateral, pull, token, amount)
    ensures Push(s2, token, to, amount).Success? ==> Inv(Push(s2, token, to, amount).value, frames + [pull])
  {
    if Push(s2, token, to, amount).Success? {
      var s3 := Push(s2, token, to, amount).value;
      PushFacts(s2, token, to, amount);
      LedgersIrrelevant(s2, s3);
      forall t: Address ensures Solvent(s3, frames + [pull], t) {
        assert Solvent(s, frames, t);
        PendingPush(frames, pull, t);
      }
    }
  }

  lemma InvParts(s: State, frames: seq<Pull>)
    requires Inv(s, frames)
    ensures MarketInv(s) && TokenInv(s)
  {
  }

  lemma NoStep(s: State, id: Id)
    requires MarketInv(s)
    ensures Step(s, s, id, 0, 0)
  {
  }

  lemma SupplyKeeps(
      s: State, frames: seq<Pull>, env: Env, sender: Caller, id: Id, assets: uint256, shares: uint256,
      onBehalf: Address)
    requires Inv(s, frames)
    ensures EnterSupply(s, env, sender, id, assets, shares, onBehalf).Success? ==>
      var e := EnterSupply(s, env, sender, id, assets, shares, onBehalf).value;
      Inv(e.state, frames + [e.pull])
  {
    hide Down, Up, MarketUpdates.Supply, AccrueState, Push, MarketInv, Step, Inv, SupplyPriceLeq, DebtsKept, Healthy;
    if EnterSupply(s, env, sender, id, assets, shares, onBehalf).Success? {
      var e := EnterSupply(s, env, sender, id, assets, shares, onBehalf).value;
      InvParts(s, frames);
      AccrueStep(s, env, id);
      var s1 := AccrueState(s, env, id).value;
      var m, p := s1.MarketOf(id), s1.PositionOf(id, onBehalf);
      InvAt(s1, id, onBehalf);
      SupplyFacts(m, p, assets, shares);
      var u := MarketUpdates.Supply(m, p, assets, shares).value;
      PutStep(s1, id, u.market, onBehalf, u.position, u.assets, 0);
      StepWithPull(s, s1, e.state, frames, id, u.assets, 0, e.pull);
    }
  }

  lemma WithdrawKeeps(
      s: State, frames: seq<Pull>, env: Env, sender: Caller, id: Id, assets: uint256, shares: uint256,
      onBehalf: Address, receiver: Address)
    requires Inv(s, frames)
    ensures EnterWithdraw(s, env, sender, id, assets, shares, onBehalf, receiver).Success? ==>
      var e := EnterWithdraw(s, env, sender, id, assets, shares, onBehalf, receiver).value;
      Inv(e.state, frames + [e.pull])
  {
    hide Down, Up, MarketUpdates.Withdraw, AccrueState, Push, MarketInv, Step, Inv, SupplyPriceLeq, DebtsKept, Healthy;
    if EnterWithdraw(s, env, sender, id, assets, shares, onBehalf, receiver).Success? {
      var e := EnterWithdraw(s, env, sender, id, assets, shares, onBehalf, receiver).value;
      InvParts(s, frames);
      AccrueStep(s, env, id);
      var s1 := AccrueState(s, env, id).value;
      var m, p := s1.MarketOf(id), s1.PositionOf(id, onBehalf);
      InvAt(s1, id, onBehalf);
      WithdrawFacts(m, p, assets, shares);
      var u := MarketUpdates.Withdraw(m, p, assets, shares).value;
      var sent: int := u.assets;
      PutStep(s1, id, u.market, onBehalf, u.position, -sent, 0);
      StepWithPush(s, s1, s1.Put(id, u.market, onBehalf, u.position), frames, id, -sent, 0, e.pull, id.loanToken,
          receiver, u.assets);
    }
  }

  lemma BorrowKeeps(
      s: State, frames: seq<Pull>, env: Env, sender: Caller, id: Id, assets: uint256, shares: uint256,
      onBehalf: Address, receiver: Address)
    requires Inv(s, frames)
    ensures EnterBorrow(s, env, sender, id, assets, shares, onBehalf, receiver).Success? ==>
      var e := EnterBorrow(s, env, sender, id, assets, shares, onBehalf, receiver).value;
      Inv(e.state, frames + [e.pull])
  {
    hide Down, Up, MarketUpdates.Borrow, AccrueState, Push, MarketInv, Step, Inv, SupplyPriceLeq, DebtsKept, Healthy;
    if EnterBorrow(s, env, sender, id, assets, shares, onBehalf, receiver).Success? {
      var e := EnterBorrow(s, env, sender, id, assets, shares, onBehalf, receiver).value;
      InvParts(s, frames);
      AccrueStep(s, env, id);
      var s1 := AccrueState(s, env, id).value;
      var m, p := s1.MarketOf(id), s1.PositionOf(id, onBehalf);
      InvAt(s1, id, onBehalf);
      BorrowFacts(m, p, env.price, id.lltv, assets, shares);
      var u := MarketUpdates.Borrow(m, p, env.price, id.lltv, assets, shares).value;
      var sent: int := u.assets;
      PutStep(s1, id, u.market, onBehalf, u.position, -sent, 0);
      StepWithPush(s, s1, s1.Put(id, u.market, onBehalf, u.position), frames, id, -sent, 0, e.pull, id.loanToken,
          receiver, u.assets);
    }
  }

  lemma RepayKeeps(
      s: State, frames: seq<Pull>, env: Env, sender: Caller, id: Id, assets: uint256, shares: uint256,
      onBehalf: Address)
    requires Inv(s, frames)
    ensures EnterRepay(s, env, sender, id, assets, shares, onBehalf).Success? ==>
      var e := EnterRepay(s, env, sender, id, assets, shares, onBehalf).value;
      Inv(e.state, frames + [e.pull])
  {
    hide Down, Up, MarketUpdates.Repay, AccrueState, Push, MarketInv, Step, Inv, SupplyPriceLeq, DebtsKept, Healthy;
    if EnterRepay(s, env, sender, id, assets, shares, onBehalf).Success? {
      var e := EnterRepay(s, env, sender, id, assets, shares, onBehalf).value;
      InvParts(s, frames);
      AccrueStep(s, env, id);
      var s1 := AccrueState(s, env, id).value;
      var m, p := s1.MarketOf(id), s1.PositionOf(id, onBehalf);
      InvAt(s1, id, onBehalf);
      RepayFacts(m, p, assets, shares);
      var u := MarketUpdates.Repay(m, p, assets, shares).value;
      PutStep(s1, id, u.market, onBehalf, u.position, u.assets, 0);
      StepWithPull(s, s1, e.state, frames, id, u.assets, 0, e.pull);
    }
  }

  lemma SupplyCollateralKeeps(s: State, frames: seq<Pull>, sender: Caller, id: Id, assets: uint256, onBehalf: Address)
    requires Inv(s, frames)
    ensures EnterSupplyCollateral(s, sender, id, assets, onBehalf).Success? ==>
      var e := EnterSupplyCollateral(s, sender, id, assets, onBehalf).value;
      Inv(e.state, frames + [e.pull])
  {
    if EnterSupplyCollateral(s, sender, id, assets, onBehalf).Success? {
      var e := EnterSupplyCollateral(s, sender, id, assets, onBehalf).value;
      var m, p := s.MarketOf(id), s.PositionOf(id, onBehalf);
      var p' := MarketUpdates.SupplyCollateral(p, assets).value;
      assert Sound(m) && Covered(p);
      SetPositionAsPut(s, id, onBehalf, p');
      PutStep(s, id, m, onBehalf, p', 0, assets);
      NoStep(s, id);
      StepWithPull(s, s, e.state, frames, id, 0, assets, e.pull);
    }
  }

  lemma WithdrawCollateralKeeps(
      s: State, frames: seq<Pull>, env: Env, sender: Caller, id: Id, assets: uint256, onBehalf: Address,
      receiver: Address)
    requires Inv(s, frames)
    ensures EnterWithdrawCollateral(s, env, sender, id, assets, onBehalf, receiver).Success? ==>
      var e := EnterWithdrawCollateral(s, env, sender, id, assets, onBehalf, receiver).value;
      Inv(e.state, frames + [e.pull])
  {
    hide Down, Up, MarketUpdates.WithdrawCollateral, AccrueState, Push, MarketInv, Step, Inv, SupplyPriceLeq,
      DebtsKept, Healthy;
    if EnterWithdrawCollateral(s, env, sender, id, assets, onBehalf, receiver).Success? {
      var e := EnterWithdrawCollateral(s, env, sender, id, assets, onBehalf, receiver).value;
      InvParts(s, frames);
      AccrueStep(s, env, id);
      var s1 := AccrueState(s, env, id).value;
      var m, p := s1.MarketOf(id), s1.PositionOf(id, onBehalf);
      InvAt(s1, id, onBehalf);
      WithdrawCollateralFacts(m, p, env.price, id.lltv, assets);
      var p' := MarketUpdates.WithdrawCollateral(m, p, env.price, id.lltv, assets).value;
      SetPositionAsPut(s1, id, onBehalf, p');
      var sent: int := assets;
      PutStep(s1, id, m, onBehalf, p', 0, -sent);
      StepWithPush(s, s1, s1.SetPosition(id, onBehalf, p'), frames, id, 0, -sent, e.pull, id.collateralToken, receiver,
          assets);
    }
  }

  lemma LiquidateKeeps(
      s: State, frames: seq<Pull>, env: Env, sender: Caller, id: Id, borrower: Address, seizedAssets: uint256,
      repaidShares: uint256)
    requires Inv(s, frames)
    ensures EnterLiquidate(s, env, sender, id, borrower, seizedAssets, repaidShares).Success? ==>
      var e := EnterLiquidate(s, env, sender, id, borrower, seizedAssets, repaidShares).value;
      Inv(e.state, frames + [e.pull])
  {
    hide Down, Up, MarketUpdates.Liquidate, AccrueState, Push, MarketInv, Step, Inv, SupplyPriceLeq, DebtsKept, Healthy;
    if EnterLiquidate(s, env, sender, id, borrower, seizedAssets, repaidShares).Success? {
      var e := EnterLiquidate(s, env, sender, id, borrower, seizedAssets, repaidShares).value;
      InvParts(s, frames);
      AccrueStep(s, env, id);
      var s1 := AccrueState(s, env, id).value;
      var m, p := s1.MarketOf(id), s1.PositionOf(id, borrower);
      InvAt(s1, id, borrower);
      SharesWithinTotals(s1, id, borrower);
      LiquidateFacts(m, p, env.price, id.lltv, seizedAssets, repaidShares);
      var l := MarketUpdates.Liquidate(m, p, env.price, id.lltv, seizedAssets, repaidShares).value;
      var sent: int := l.seizedAssets;
      PutStep(s1, id, l.market, borrower, l.position, l.repaidAssets, -sent);
      StepWithPush(s, s1, s1.Put(id, l.market, borrower, l.position), frames, id, l.repaidAssets, -sent,
                   e.pull, id.collateralToken, sender, l.seizedAssets);
    }
  }

  lemma FlashLoanKeeps(s: State, frames: seq<Pull>, sender: Caller, token: Address, assets: uint256)
    requires Inv(s, frames)
    ensures EnterFlashLoan(s, sender, token, assets).Success? ==>
      var e := EnterFlashLoan(s, sender, token, assets).value;
      Inv(e.state, frames + [e.pull])
  {
    if EnterFlashLoan(s, sender, token, assets).Success? {
      var e := EnterFlashLoan(s, sender, token, assets).value;
      var id := MarketParams(token, token, ZERO_ADDRESS, ZERO_ADDRESS, 0);
      NoStep(s, id);
      StepWithPush(s, s, s, frames, id, 0, 0, e.pull, token, sender, assets);
    }
  }

  /** Actions that change no position, no market's totals and no token. */
  lemma AdminKeeps(s: State, frames: seq<Pull>, env: Env, sender: Caller, action: Action)
    requires Inv(s, frames)
    requires action.SetOwner? || action.EnableIrm? || action.EnableLltv? || action.SetFeeRecipient?
          || action.SetAuthorization? || action.SetAuthorizationWithSig?
    ensures Enter(s, env, sender, action).Success? ==>
      var e := Enter(s, env, sender, action).value; Inv(e.state, frames + [e.pull])
  {
    if Enter(s, env, sender, action).Success? {
      var e := Enter(s, env, sender, action).value;
      var s0 := s.(isLltvEnabled := e.state.isLltvEnabled);
      assert MarketInv(s0) by {
        forall id: Id ensures TotalsMatch(s0, id) && Sound(s0.MarketOf(id)) {
          assert TotalsMatch(s, id) && Sound(s.MarketOf(id));
          assert SupplyColumn(s0, id) == SupplyColumn(s, id) && BorrowColumn(s0, id) == BorrowColumn(s, id);
        }
        forall id: Id, user: Address ensures Covered(s0.PositionOf(id, user)) {
          assert Covered(s.PositionOf(id, user));
        }
      }
      SameMarketsSameInvariant(s0, e.state);
      forall t: Address ensures Solvent(e.state, frames + [e.pull], t) {
        assert Solvent(s, frames, t);
        PendingPush(frames, e.pull, t);
        assert LoanColumn(s0, t) == LoanColumn(s, t) && CollateralColumn(s0, t) == CollateralColumn(s, t);
      }
    }
  }

  lemma MarketAdminKeeps(s: State, frames: seq<Pull>, env: Env, sender: Caller, action: Action)
    requires Inv(s, frames)
    requires action.SetFee? || action.CreateMarket? || action.AccrueInterest?
    ensures Enter(s, env, sender, action).Success? ==>
      var e := Enter(s, env, sender, action).value; Inv(e.state, frames + [e.pull])
  {
    hide Down, Up, Accrue;
    if Enter(s, env, sender, action).Success? {
      var e := Enter(s, env, sender, action).value;
      var id := action.id;
      if action.CreateMarket? {
        assert Sound(s.MarketOf(id));
        SetMarketStep(s, id, e.state.MarketOf(id));
        NoStep(s, id);
        StepWithPull(s, s, e.state, frames, id, 0, 0, NoPull);
      } else {
        AccrueStep(s, env, id);
        var s1 := AccrueState(s, env, id).value;
        assert Sound(s1.MarketOf(id));
        if action.SetFee? {
          SetMarketStep(s1, id, s1.MarketOf(id).(fee := action.newFee));
        } else {
          NoStep(s1, id);
        }
        StepWithPull(s, s1, e.state, frames, id, 0, 0, NoPull);
      }
    }
  }

  /** Replacing one token's ledger by one in which the contract has no less and has still approved no one. */
  lemma LedgerStep(s: State, s': State, frames: seq<Pull>, token: Address, l: Ledger)
    requires Inv(s, frames) && token in s.ledgers
    requires s' == s.(ledgers := s.ledgers[token := l])
    requires l.Backed() && s.ledgers[token].Balance(MORPHO) <= l.Balance(MORPHO)
    requires forall spender: Address :: l.Allowance(MORPHO, spender) <= s.ledgers[token].Allowance(MORPHO, spender)
    ensures Inv(s', frames + [NoPull])
  {
    LedgersIrrelevant(s, s');
    forall t: Address, spender: Address | t in s'.ledgers ensures s'.ledgers[t].Allowance(MORPHO, spender) == 0 {
      assert s.ledgers[t].Allowance(MORPHO, spender) == 0;
    }
    forall t: Address ensures Solvent(s', frames + [NoPull], t) {
      assert Solvent(s, frames, t);
      PendingPush(frames, NoPull, t);
    }
  }

  /** Token calls by others cannot take the contract's tokens: it made no approval and sends nothing itself. */
  lemma TokenKeeps(s: State, frames: seq<Pull>, env: Env, sender: Caller, action: Action)
    requires Inv(s, frames)
    requires action.TokenTransfer? || action.TokenTransferFrom? || action.TokenApprove? || action.TokenSetBalance?
    ensures Enter(s, env, sender, action).Success? ==>
      var e := Enter(s, env, sender, action).value; Inv(e.state, frames + [e.pull])
  {
    if Enter(s, env, sender, action).Success? {
      var e := Enter(s, env, sender, action).value;
      var token := action.token;
      var l, l' := s.ledgers[token], e.state.ledgers[token];
      assert l.Backed();
      match action {
        case TokenTransfer(_, to, amount) =>
          MoveFacts(l, sender, to, amount);
        case TokenTransferFrom(_, from, to, amount) =>
          assert l.Allowance(MORPHO, sender) == 0;
          TransferFromFacts(l, sender, from, to, amount);
        case TokenApprove(_, spender, amount) =>
        case TokenSetBalance(_, account, amount) =>
          SetBalanceFacts(l, account, amount);
      }
      hide *;
      LedgerStep(s, e.state, frames, token, l');
    }
  }

  /** Whatever the call, if it gets to its callback the invariant holds there with its own pull pending. */
  lemma EnterKeeps(s: State, frames: seq<Pull>, env: Env, sender: Caller, action: Action)
    requires Inv(s, frames)
    ensures Enter(s, env, sender, action).Success? ==>
      var e := Enter(s, env, sender, action).value; Inv(e.state, frames + [e.pull])
  {
    if Enter(s, env, sender, action).Success? {
      match action
      case Supply(id, assets, shares, onBehalf) => SupplyKeeps(s, frames, env, sender, id, assets, shares, onBehalf);
      case Withdraw(id, assets, shares, onBehalf, receiver) =>
          WithdrawKeeps(s, frames, env, sender, id, assets, shares, onBehalf, receiver);
      case Borrow(id, assets, shares, onBehalf, receiver) =>
          BorrowKeeps(s, frames, env, sender, id, assets, shares, onBehalf, receiver);
      case Repay(id, assets, shares, onBehalf) => RepayKeeps(s, frames, env, sender, id, assets, shares, onBehalf);
      case SupplyCollateral(id, assets, onBehalf) => SupplyCollateralKeeps(s, frames, sender, id, assets, onBehalf);
      case WithdrawCollateral(id, assets, onBehalf, receiver) =>
          WithdrawCollateralKeeps(s, frames, env, sender, id, assets, onBehalf, receiver);
      case Liquidate(id, borrower, seizedAssets, repaidShares) =>
          LiquidateKeeps(s, frames, env, sender, id, borrower, seizedAssets, repaidShares);
      case FlashLoan(token, assets) => FlashLoanKeeps(s, frames, sender, token, assets);
      case SetFee(_, _) => MarketAdminKeeps(s, frames, env, sender, action);
      case CreateMarket(_) => MarketAdminKeeps(s, frames, env, sender, action);
      case AccrueInterest(_) => MarketAdminKeeps(s, frames, env, sender, action);
      case TokenTransfer(_, _, _) => TokenKeeps(s, frames, env, sender, action);
      case TokenTransferFrom(_, _, _, _) => TokenKeeps(s, frames, env, sender, action);
      case TokenApprove(_, _, _) => TokenKeeps(s, frames, env, sender, action);
      case TokenSetBalance(_, _, _) => TokenKeeps(s, frames, env, sender, action);
      case _ => AdminKeeps(s, frames, env, sender, action);
    }
  }

  /** When the pull is made, its frame closes. */
  lemma SettleKeeps(s: State, frames: seq<Pull>, pull: Pull)
    requires Inv(s, frames + [pull])
    ensures Settle(s, pull).Success? ==> Inv(Settle(s, pull).value, frames)
  {
    if Settle(s, pull).Success? {
      var s' := Settle(s, pull).value;
      if pull.Pull? {
        PullFacts(s, pull.token, pull.from, pull.amount);
      }
      LedgersIrrelevant(s, s');
      forall t: Address ensures Solvent(s', frames, t) {
        assert Solvent(s, frames + [pull], t);
        PendingPush(frames, pull, t);
      }
    }
  }
}
