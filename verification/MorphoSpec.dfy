/**
 * The lending contract as functions from storage to storage: what one external call does before its callback,
 * what the callback's nested calls do, and how the call settles.
 */
module MorphoSpec {
  import opened Wrappers
  import opened Words
  import opened MathLib
  import opened MarketUpdates
  import opened Erc20

  /** The contract's own address; no outside account has it. */
  const MORPHO: Address := 1

  type Caller = a: Address | a != MORPHO witness 2

  datatype MarketParams = MarketParams(
    loanToken: Address,
    collateralToken: Address,
    oracle: Address,
    irm: Address,
    lltv: uint256)

  /** Hashing the parameters is taken to be injective, so the parameters are their own id. */
  type Id = MarketParams

  datatype Authorization = Authorization(
    authorizer: Address,
    authorized: Address,
    isAuthorized: bool,
    nonce: uint256,
    deadline: uint256)

  // ---------------------------------------------------------------- storage

  /** The contract's storage and that of the tokens it deals with. Absent map entries are zero. */
  datatype State = State(
    owner: Address,
    feeRecipient: Address,
    position: map<(Id, Address), Position>,
    market: map<Id, Market>,
    isIrmEnabled: set<Address>,
    isLltvEnabled: set<uint256>,
    isAuthorized: set<(Address, Address)>,
    nonce: map<Address, uint256>,
    ledgers: map<Address, Ledger>)
  {
    function PositionOf(id: Id, user: Address): Position {
      if (id, user) in position then position[(id, user)] else EMPTY_POSITION
    }

    function MarketOf(id: Id): Market {
      if id in market then market[id] else EMPTY_MARKET
    }

    function NonceOf(user: Address): uint256 {
      if user in nonce then nonce[user] else 0
    }

    predicate Created(id: Id) {
      MarketOf(id).lastUpdate != 0
    }

    predicate SenderAuthorized(sender: Address, onBehalf: Address) {
      sender == onBehalf || (onBehalf, sender) in isAuthorized
    }

    function SetPosition(id: Id, user: Address, p: Position): State {
      this.(position := position[(id, user) := p])
    }

    function SetMarket(id: Id, m: Market): State {
      this.(market := market[id := m])
    }

    function Put(id: Id, m: Market, user: Address, p: Position): State {
      SetMarket(id, m).SetPosition(id, user, p)
    }

    function Balance(token: Address, account: Address): uint256 {
      if token in ledgers then ledgers[token].Balance(account) else 0
    }
  }

  /** A token transfer out of the contract. A token without code makes it revert. */
  function Push(s: State, token: Address, to: Address, amount: uint256): Result<State, Error> {
    var hasCode := token in s.ledgers;
    :- Need(hasCode, NoCode);
    var ledger :- s.ledgers[token].Transfer(MORPHO, to, amount);
    Success(s.(ledgers := s.ledgers[token := ledger]))
  }

  /** A token transfer into the contract, from what `from` has approved. */
  function PullFrom(s: State, token: Address, from: Address, amount: uint256): Result<State, Error> {
    var hasCode := token in s.ledgers;
    :- Need(hasCode, NoCode);
    var ledger :- s.ledgers[token].TransferFrom(MORPHO, from, MORPHO, amount);
    Success(s.(ledgers := s.ledgers[token := ledger]))
  }

  // ---------------------------------------------------------------- calls

  datatype Action =
    | SetOwner(newOwner: Address)
    | EnableIrm(irm: Address)
    | EnableLltv(lltv: uint256)
    | SetFee(id: Id, newFee: uint256)
    | SetFeeRecipient(newFeeRecipient: Address)
    | CreateMarket(id: Id)
    | Supply(id: Id, assets: uint256, shares: uint256, onBehalf: Address)
    | Withdraw(id: Id, assets: uint256, shares: uint256, onBehalf: Address, receiver: Address)
    | Borrow(id: Id, assets: uint256, shares: uint256, onBehalf: Address, receiver: Address)
    | Repay(id: Id, assets: uint256, shares: uint256, onBehalf: Address)
    | SupplyCollateral(id: Id, assets: uint256, onBehalf: Address)
    | WithdrawCollateral(id: Id, assets: uint256, onBehalf: Address, receiver: Address)
    | Liquidate(id: Id, borrower: Address, seizedAssets: uint256, repaidShares: uint256)
    | FlashLoan(token: Address, assets: uint256)
    | SetAuthorization(authorized: Address, newIsAuthorized: bool)
    | SetAuthorizationWithSig(authorization: Authorization, signatory: Address)
    | AccrueInterest(id: Id)
      // calls to the tokens, by anyone but the contract
    | TokenTransfer(token: Address, to: Address, amount: uint256)
    | TokenTransferFrom(token: Address, from: Address, to: Address, amount: uint256)
    | TokenApprove(token: Address, spender: Address, amount: uint256)
    | TokenSetBalance(token: Address, account: Caller, amount: uint256)

  /** Liquidations take two amounts back to the caller; other calls up to two as well. */
  datatype Returned = Returned(first: uint256, second: uint256)

  /**
   * One external call: who makes it, what it asks for, what the outside answers, and what the caller does in the
   * callback if there is one. A nested call that reverts takes the callback down with it if `mustSucceed`.
   */
  datatype Call = Call(env: Env, sender: Caller, action: Action, callback: seq<Call>, mustSucceed: bool)

  /** A transfer the contract will pull in when the callback returns. */
  datatype Pull = NoPull | Pull(token: Address, from: Address, amount: uint256)

  /** The storage when the callback starts, the transfer pending until it ends, and the amounts returned. */
  datatype Entered = Entered(state: State, pull: Pull, returned: Returned)

  const NOTHING := Returned(0, 0)

  function Done(s: State): Result<Entered, Error> {
    Success(Entered(s, NoPull, NOTHING))
  }

  // ---------------------------------------------------------------- interest

  function AccrueState(s: State, env: Env, id: Id): Result<State, Error> {
    var a :- Accrue(s.MarketOf(id), s.PositionOf(id, s.feeRecipient), env, id.irm);
    if env.now == s.MarketOf(id).lastUpdate then Success(s)
    else if a.fees.Some? then Success(s.Put(id, a.market, s.feeRecipient, a.fees.value))
    else Success(s.SetMarket(id, a.market))
  }

  // ---------------------------------------------------------------- what a call does before its callback

  function EnterSupply(
      s: State, env: Env, sender: Caller, id: Id, assets: uint256, shares: uint256, onBehalf: Address)
    : Result<Entered, Error> {
    var created := s.Created(id);
    :- Need(created, MarketNotCreated);
    :- Need((assets == 0) != (shares == 0), InconsistentInput);
    :- Need(onBehalf != ZERO_ADDRESS, ZeroAddress);
    var s1 :- AccrueState(s, env, id);
    var u :- MarketUpdates.Supply(s1.MarketOf(id), s1.PositionOf(id, onBehalf), assets, shares);
    Success(Entered(s1.Put(id, u.market, onBehalf, u.position), Pull(id.loanToken, sender, u.assets),
        Returned(u.assets, u.shares)))
  }

  function EnterWithdraw(
      s: State, env: Env, sender: Caller, id: Id, assets: uint256, shares: uint256, onBehalf: Address,
      receiver: Address)
    : Result<Entered, Error> {
    var created := s.Created(id);
    :- Need(created, MarketNotCreated);
    :- Need((assets == 0) != (shares == 0), InconsistentInput);
    :- Need(receiver != ZERO_ADDRESS, ZeroAddress);
    :- Need(s.SenderAuthorized(sender, onBehalf), Unauthorized);
    var s1 :- AccrueState(s, env, id);
    var u :- MarketUpdates.Withdraw(s1.MarketOf(id), s1.PositionOf(id, onBehalf), assets, shares);
    var s2 :- Push(s1.Put(id, u.market, onBehalf, u.position), id.loanToken, receiver, u.assets);
    Success(Entered(s2, NoPull, Returned(u.assets, u.shares)))
  }

  function EnterBorrow(
      s: State, env: Env, sender: Caller, id: Id, assets: uint256, shares: uint256, onBehalf: Address,
      receiver: Address)
    : Result<Entered, Error> {
    var created := s.Created(id);
    :- Need(created, MarketNotCreated);
    :- Need((assets == 0) != (shares == 0), InconsistentInput);
    :- Need(receiver != ZERO_ADDRESS, ZeroAddress);
    :- Need(s.SenderAuthorized(sender, onBehalf), Unauthorized);
    var s1 :- AccrueState(s, env, id);
    var u :- MarketUpdates.Borrow(s1.MarketOf(id), s1.PositionOf(id, onBehalf), env.price, id.lltv, assets, shares);
    var s2 :- Push(s1.Put(id, u.market, onBehalf, u.position), id.loanToken, receiver, u.assets);
    Success(Entered(s2, NoPull, Returned(u.assets, u.shares)))
  }

  function EnterRepay(
      s: State, env: Env, sender: Caller, id: Id, assets: uint256, shares: uint256, onBehalf: Address)
    : Result<Entered, Error> {
    var created := s.Created(id);
    :- Need(created, MarketNotCreated);
    :- Need((assets == 0) != (shares == 0), InconsistentInput);
    :- Need(onBehalf != ZERO_ADDRESS, ZeroAddress);
    var s1 :- AccrueState(s, env, id);
    var u :- MarketUpdates.Repay(s1.MarketOf(id), s1.PositionOf(id, onBehalf), assets, shares);
    Success(Entered(s1.Put(id, u.market, onBehalf, u.position), Pull(id.loanToken, sender, u.assets),
        Returned(u.assets, u.shares)))
  }

  function EnterSupplyCollateral(
      s: State, sender: Caller, id: Id, assets: uint256, onBehalf: Address): Result<Entered, Error> {
    var created := s.Created(id);
    :- Need(created, MarketNotCreated);
    :- Need(assets != 0, ZeroAssets);
    :- Need(onBehalf != ZERO_ADDRESS, ZeroAddress);
    var p :- MarketUpdates.SupplyCollateral(s.PositionOf(id, onBehalf), assets);
    Success(Entered(s.SetPosition(id, onBehalf, p), Pull(id.collateralToken, sender, assets), NOTHING))
  }

  function EnterWithdrawCollateral(
      s: State, env: Env, sender: Caller, id: Id, assets: uint256, onBehalf: Address, receiver: Address)
    : Result<Entered, Error> {
    var created := s.Created(id);
    :- Need(created, MarketNotCreated);
    :- Need(assets != 0, ZeroAssets);
    :- Need(receiver != ZERO_ADDRESS, ZeroAddress);
    :- Need(s.SenderAuthorized(sender, onBehalf), Unauthorized);
    var s1 :- AccrueState(s, env, id);
    var p :- MarketUpdates.WithdrawCollateral(s1.MarketOf(id), s1.PositionOf(id, onBehalf), env.price, id.lltv, assets);
    var s2 :- Push(s1.SetPosition(id, onBehalf, p), id.collateralToken, receiver, assets);
    Done(s2)
  }

  /** The seized collateral leaves before the callback, the repayment is pulled after it. */
  function EnterLiquidate(
      s: State, env: Env, sender: Caller, id: Id, borrower: Address, seizedAssets: uint256, repaidShares: uint256)
    : Result<Entered, Error> {
    var created := s.Created(id);
    :- Need(created, MarketNotCreated);
    :- Need((seizedAssets == 0) != (repaidShares == 0), InconsistentInput);
    var s1 :- AccrueState(s, env, id);
    var l :- MarketUpdates.Liquidate(s1.MarketOf(id), s1.PositionOf(id, borrower), env.price, id.lltv, seizedAssets,
        repaidShares);
    var s2 :- Push(s1.Put(id, l.market, borrower, l.position), id.collateralToken, sender, l.seizedAssets);
    Success(Entered(s2, Pull(id.loanToken, sender, l.repaidAssets), Returned(l.seizedAssets, l.repaidAssets)))
  }

  function EnterFlashLoan(s: State, sender: Caller, token: Address, assets: uint256): Result<Entered, Error> {
    var nonZero := assets != 0;
    :- Need(nonZero, ZeroAssets);
    var s1 :- Push(s, token, sender, assets);
    Success(Entered(s1, Pull(token, sender, assets), NOTHING))
  }

  function EnterSetFee(s: State, env: Env, sender: Caller, id: Id, newFee: uint256): Result<Entered, Error> {
    var byOwner := sender == s.owner;
    :- Need(byOwner, NotOwner);
    :- Need(s.Created(id), MarketNotCreated);
    :- Need(newFee != s.MarketOf(id).fee, AlreadySet);
    :- Need(newFee <= MAX_FEE, MaxFeeExceeded);
    var s1 :- AccrueState(s, env, id);
    Done(s1.SetMarket(id, s1.MarketOf(id).(fee := newFee)))
  }

  function EnterCreateMarket(s: State, env: Env, id: Id): Result<Entered, Error> {
    var enabled := id.irm in s.isIrmEnabled;
    :- Need(enabled, IrmNotEnabled);
    :- Need(id.lltv in s.isLltvEnabled, LltvNotEnabled);
    :- Need(!s.Created(id), MarketAlreadyCreated);
    :- Need(id.irm == ZERO_ADDRESS || env.rate.Some?, IrmReverted);
    Done(s.SetMarket(id, s.MarketOf(id).(lastUpdate := Truncate128(env.now))))
  }

  function EnterSetAuthorization(
      s: State, sender: Caller, authorized: Address, newIsAuthorized: bool): Result<Entered, Error> {
    var changes := newIsAuthorized != ((sender, authorized) in s.isAuthorized);
    :- Need(changes, AlreadySet);
    Done(Authorize(s, sender, authorized, newIsAuthorized))
  }

  function Authorize(s: State, authorizer: Address, authorized: Address, flag: bool): State {
    s.(isAuthorized := if flag then s.isAuthorized + {(authorizer, authorized)}
        else s.isAuthorized - {(authorizer, authorized)})
  }

  /** The recovered signatory is an input; zero stands for a signature that recovers to no one. */
  function EnterSetAuthorizationWithSig(
      s: State, env: Env, a: Authorization, signatory: Address): Result<Entered, Error> {
    var inTime := env.now <= a.deadline;
    :- Need(inTime, SignatureExpired);
    var next :- Add(s.NonceOf(a.authorizer), 1);
    :- Need(a.nonce == s.NonceOf(a.authorizer), InvalidNonce);
    :- Need(signatory != ZERO_ADDRESS && a.authorizer == signatory, InvalidSignature);
    Done(Authorize(s.(nonce := s.nonce[a.authorizer := next]), a.authorizer, a.authorized, a.isAuthorized))
  }

  function EnterToken(s: State, token: Address, r: Result<Ledger, Error>): Result<Entered, Error> {
    var hasCode := token in s.ledgers;
    :- Need(hasCode, NoCode);
    var ledger :- r;
    Done(s.(ledgers := s.ledgers[token := ledger]))
  }

  function LedgerOf(s: State, token: Address): Ledger {
    if token in s.ledgers then s.ledgers[token] else Ledger(0, map[], map[])
  }

  function Enter(s: State, env: Env, sender: Caller, action: Action): Result<Entered, Error> {
    match action
    case SetOwner(newOwner) =>
      :- Need(sender == s.owner, NotOwner);
      :- Need(newOwner != s.owner, AlreadySet);
      Done(s.(owner := newOwner))
    case EnableIrm(irm) =>
      :- Need(sender == s.owner, NotOwner);
      :- Need(irm !in s.isIrmEnabled, AlreadySet);
      Done(s.(isIrmEnabled := s.isIrmEnabled + {irm}))
    case EnableLltv(lltv) =>
      :- Need(sender == s.owner, NotOwner);
      :- Need(lltv !in s.isLltvEnabled, AlreadySet);
      :- Need(lltv < WAD, MaxLltvExceeded);
      Done(s.(isLltvEnabled := s.isLltvEnabled + {lltv}))
    case SetFee(id, newFee) => EnterSetFee(s, env, sender, id, newFee)
    case SetFeeRecipient(newFeeRecipient) =>
      :- Need(sender == s.owner, NotOwner);
      :- Need(newFeeRecipient != s.feeRecipient, AlreadySet);
      Done(s.(feeRecipient := newFeeRecipient))
    case CreateMarket(id) => EnterCreateMarket(s, env, id)
    case Supply(id, assets, shares, onBehalf) => EnterSupply(s, env, sender, id, assets, shares, onBehalf)
    case Withdraw(id, assets, shares, onBehalf, receiver) =>
        EnterWithdraw(s, env, sender, id, assets, shares, onBehalf, receiver)
    case Borrow(id, assets, shares, onBehalf, receiver) =>
        EnterBorrow(s, env, sender, id, assets, shares, onBehalf, receiver)
    case Repay(id, assets, shares, onBehalf) => EnterRepay(s, env, sender, id, assets, shares, onBehalf)
    case SupplyCollateral(id, assets, onBehalf) => EnterSupplyCollateral(s, sender, id, assets, onBehalf)
    case WithdrawCollateral(id, assets, onBehalf, receiver) =>
        EnterWithdrawCollateral(s, env, sender, id, assets, onBehalf, receiver)
    case Liquidate(id, borrower, seizedAssets, repaidShares) =>
        EnterLiquidate(s, env, sender, id, borrower, seizedAssets, repaidShares)
    case FlashLoan(token, assets) => EnterFlashLoan(s, sender, token, assets)
    case SetAuthorization(authorized, flag) => EnterSetAuthorization(s, sender, authorized, flag)
    case SetAuthorizationWithSig(authorization, signatory) =>
        EnterSetAuthorizationWithSig(s, env, authorization, signatory)
    case AccrueInterest(id) =>
      :- Need(s.Created(id), MarketNotCreated);
      var s1 :- AccrueState(s, env, id);
      Done(s1)
    case TokenTransfer(token, to, amount) => EnterToken(s, token, LedgerOf(s, token).Transfer(sender, to, amount))
    case TokenTransferFrom(token, from, to, amount) =>
        EnterToken(s, token, LedgerOf(s, token).TransferFrom(sender, from, to, amount))
    case TokenApprove(token, spender, amount) =>
        EnterToken(s, token, Success(LedgerOf(s, token).Approve(sender, spender, amount)))
    case TokenSetBalance(token, account, amount) => EnterToken(s, token, LedgerOf(s, token).SetBalance(account, amount))
  }

  // ---------------------------------------------------------------- whole calls

  /** Only these five actions call back, and all but the flash loan only if there is something to call back with. */
  predicate HasCallback(action: Action) {
    action.Supply? || action.Repay? || action.SupplyCollateral? || action.Liquidate? || action.FlashLoan?
  }

  function Settle(s: State, pull: Pull): Result<State, Error> {
    match pull
    case NoPull => Success(s)
    case Pull(token, from, amount) => PullFrom(s, token, from, amount)
  }

  datatype Finished = Finished(state: State, returned: Returned)

  /** A call from start to end, its callback included. */
  function Perform(s: State, c: Call): Result<Finished, Error>
    decreases c, 0
  {
    var e :- Enter(s, c.env, c.sender, c.action);
    var s1 :- if HasCallback(c.action) then RunAll(e.state, c.callback) else Success(e.state);
    var s2 :- Settle(s1, e.pull);
    Success(Finished(s2, e.returned))
  }

  /** A call that reverts leaves the storage as it was. */
  function Execute(s: State, c: Call): State
    decreases c, 1
  {
    match Perform(s, c)
    case Success(f) => f.state
    case Failure(_) => s
  }

  function RunAll(s: State, calls: seq<Call>): Result<State, Error>
    decreases calls, 0
  {
    if calls == [] then Success(s)
    else if Perform(s, calls[0]).Failure? && calls[0].mustSucceed then Failure(CallbackReverted)
    else RunAll(Execute(s, calls[0]), calls[1..])
  }
}
