/** What the token contract does on one chain, as functions: operations of users and messages from other chains. */
module FungibleSpec {
  import opened Wrappers
  import opened Words
  import opened FungibleState

  type ChainId = nat

  datatype Account = Account(chainId: ChainId, owner: Owner)

  datatype Operation =
    | Balance(owner: Owner)
    | TickerSymbol
    | Approve(owner: Owner, spender: Owner, allowance: uint128)
    | Transfer(owner: Owner, amount: uint128, targetAccount: Account)
    | TransferFrom(owner: Owner, spender: Owner, amount: uint128, targetAccount: Account)
    | Claim(sourceAccount: Account, amount: uint128, targetAccount: Account)

  datatype Message =
    | Credit(target: Owner, amount: uint128, source: Owner)
    | Withdraw(owner: Owner, amount: uint128, targetAccount: Account)

  datatype Response = Ok | BalanceIs(amount: uint128) | Ticker(symbol: string)

  /** What the runtime tells a call: the chain, who authenticated it, and whether a message comes back rejected. */
  datatype Context = Context(chainId: ChainId, signer: Option<Owner>, bouncing: bool, tickerSymbol: string)

  /** A message handed to the runtime. It carries the authentication of the call that sends it. */
  datatype Outgoing = Outgoing(to: ChainId, message: Message, tracked: bool)

  datatype Effects = Effects(state: State, sent: seq<Outgoing>, response: Response)

  // ---------------------------------------------------------------- specification

  predicate Permitted(ctx: Context, owner: Owner) {
    ctx.signer == Some(owner)
  }

  /** The last step of a transfer: a credit here, or a tracked message to the chain of the target. */
  function FinishTransfer(ctx: Context, s: State, amount: uint128, target: Account, source: Owner): Effects {
    if target.chainId == ctx.chainId then Effects(s.Credit(target.owner, amount), [], Ok)
    else Effects(s, [Outgoing(target.chainId, Credit(target.owner, amount, source), true)], Ok)
  }

  function DebitAndFinish(
      ctx: Context, s: State, owner: Owner, amount: uint128, target: Account): Result<Effects, Panic> {
    var debited :- s.Debit(owner, amount);
    Success(FinishTransfer(ctx, debited, amount, target, owner))
  }

  /** A claim on an account of another chain only asks that chain to withdraw. */
  function ClaimFrom(
      ctx: Context, s: State, source: Account, amount: uint128, target: Account): Result<Effects, Panic> {
    if source.chainId == ctx.chainId then DebitAndFinish(ctx, s, source.owner, amount, target)
    else Success(Effects(s, [Outgoing(source.chainId, Withdraw(source.owner, amount, target), false)], Ok))
  }

  function ExecuteOperation(ctx: Context, s: State, op: Operation): Result<Effects, Panic> {
    match op
    case Balance(owner) => Success(Effects(s, [], BalanceIs(s.BalanceOrDefault(owner))))
    case TickerSymbol => Success(Effects(s, [], Ticker(ctx.tickerSymbol)))
    case Approve(owner, spender, allowance) =>
      :- Need(Permitted(ctx, owner), PermissionDenied);
      var approved :- s.Approve(owner, spender, allowance);
      Success(Effects(approved, [], Ok))
    case Transfer(owner, amount, target) =>
      :- Need(Permitted(ctx, owner), PermissionDenied);
      DebitAndFinish(ctx, s, owner, amount, target)
    case TransferFrom(owner, spender, amount, target) =>
      :- Need(Permitted(ctx, spender), PermissionDenied);
      var debited :- s.DebitForTransferFrom(owner, spender, amount);
      Success(FinishTransfer(ctx, debited, amount, target, owner))
    case Claim(source, amount, target) =>
      :- Need(Permitted(ctx, source.owner), PermissionDenied);
      ClaimFrom(ctx, s, source, amount, target)
  }

  function ExecuteMessage(ctx: Context, s: State, message: Message): Result<Effects, Panic> {
    match message
    case Credit(target, amount, source) =>
      Success(Effects(s.Credit(if ctx.bouncing then source else target, amount), [], Ok))
    case Withdraw(owner, amount, target) =>
      :- Need(Permitted(ctx, owner), PermissionDenied);
      DebitAndFinish(ctx, s, owner, amount, target)
  }

  /** The application is created with the amounts given, unless they are all zero. */
  function Instantiate(accounts: map<Owner, uint128>): Result<State, Panic> {
    if NonZero(accounts) == map[] then Failure(ZeroSupply) else Success(State(NonZero(accounts), map[]))
  }
}
