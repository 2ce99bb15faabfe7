/** The token contract on one chain, statement by statement. */
module FungibleContract {
  import opened Wrappers
  import opened Words
  import opened FungibleState
  import opened FungibleSpec

  class FungibleTokenContract {
    const state: FungibleTokenState
    const ctx: Context
    var sent: seq<Outgoing>

    constructor Load(stored: State, ctx: Context)
      ensures fresh(state) && state.View() == stored && this.ctx == ctx && sent == []
    {
      state := new FungibleTokenState(stored);
      this.ctx := ctx;
      sent := [];
    }

    /** What a call leaves behind: on success the new state, the messages sent and the response. */
    predicate Ends(before: seq<Outgoing>, r: Result<Response, Panic>, expected: Result<Effects, Panic>)
      reads this, state
    {
      match expected
      case Success(e) => r == Success(e.response) && state.View() == e.state && sent == before + e.sent
      case Failure(panic) => r == Failure(panic)
    }

    method Instantiate(accounts: map<Owner, uint128>) returns (r: Result<(), Panic>)
      requires state.View() == EMPTY
      modifies state
      ensures match FungibleSpec.Instantiate(accounts)
              case Success(s) => r == Success(()) && state.View() == s
              case Failure(panic) => r == Failure(panic)
    {
      var totalSupply: uint128 := 0;
      var rest := accounts.Keys;
      while rest != {}
        invariant rest <= accounts.Keys
        invariant totalSupply == 0 <==> forall k :: k in accounts && k !in rest ==> accounts[k] == 0
        decreases |rest|
      {
        var k :| k in rest;
        totalSupply := SaturatingAdd(totalSupply, accounts[k]);
        rest := rest - {k};
      }
      if totalSupply != 0 {
        var k :| k in accounts && accounts[k] != 0;
        assert k in NonZero(accounts);
      }
      if totalSupply == 0 {
        return Failure(ZeroSupply);
      }
      state.InitializeAccounts(accounts);
      assert map[] + NonZero(accounts) == NonZero(accounts);
      r := Success(());
    }

    method FinishTransferToAccount(amount: uint128, targetAccount: Account, source: Owner)
      modifies this, state
      ensures var e := FinishTransfer(ctx, old(state.View()), amount, targetAccount, source);
        state.View() == e.state && sent == old(sent) + e.sent
    {
      if targetAccount.chainId == ctx.chainId {
        state.Credit(targetAccount.owner, amount);
      } else {
        var message := Message.Credit(targetAccount.owner, amount, source);
        sent := sent + [Outgoing(targetAccount.chainId, message, true)];
      }
    }

    method Claim(sourceAccount: Account, amount: uint128, targetAccount: Account) returns (r: Result<Response, Panic>)
      modifies this, state
      ensures Ends(old(sent), r, ClaimFrom(ctx, old(state.View()), sourceAccount, amount, targetAccount))
    {
      if sourceAccount.chainId == ctx.chainId {
        var _ :- state.Debit(sourceAccount.owner, amount);
        FinishTransferToAccount(amount, targetAccount, sourceAccount.owner);
      } else {
        var message := Withdraw(sourceAccount.owner, amount, targetAccount);
        sent := sent + [Outgoing(sourceAccount.chainId, message, false)];
      }
      r := Success(Ok);
    }

    method ExecuteOperation(operation: Operation) returns (r: Result<Response, Panic>)
      modifies this, state
      ensures Ends(old(sent), r, FungibleSpec.ExecuteOperation(ctx, old(state.View()), operation))
    {
      match operation
      case Balance(owner) =>
        r := Success(BalanceIs(state.View().BalanceOrDefault(owner)));
      case TickerSymbol =>
        r := Success(Ticker(ctx.tickerSymbol));
      case Approve(owner, spender, allowance) =>
        :- Need(Permitted(ctx, owner), PermissionDenied);
        var _ :- state.Approve(owner, spender, allowance);
        r := Success(Ok);
      case Transfer(owner, amount, targetAccount) =>
        :- Need(Permitted(ctx, owner), PermissionDenied);
        var _ :- state.Debit(owner, amount);
        FinishTransferToAccount(amount, targetAccount, owner);
        r := Success(Ok);
      case TransferFrom(owner, spender, amount, targetAccount) =>
        :- Need(Permitted(ctx, spender), PermissionDenied);
        var _ :- state.DebitForTransferFrom(owner, spender, amount);
        FinishTransferToAccount(amount, targetAccount, owner);
        r := Success(Ok);
      case Claim(sourceAccount, amount, targetAccount) =>
        :- Need(Permitted(ctx, sourceAccount.owner), PermissionDenied);
        r := this.Claim(sourceAccount, amount, targetAccount);
    }

    method ExecuteMessage(message: Message) returns (r: Result<Response, Panic>)
      modifies this, state
      ensures Ends(old(sent), r, FungibleSpec.ExecuteMessage(ctx, old(state.View()), message))
    {
      match message
      case Credit(target, amount, source) =>
        var receiver := if ctx.bouncing then source else target;
        state.Credit(receiver, amount);
        r := Success(Ok);
      case Withdraw(owner, amount, targetAccount) =>
        :- Need(Permitted(ctx, owner), PermissionDenied);
        var _ :- state.Debit(owner, amount);
        FinishTransferToAccount(amount, targetAccount, owner);
        r := Success(Ok);
    }
  }

  /** A call loads the state, executes and stores it; a panic stores nothing. */
  method CallOperation(stored: State, ctx: Context, operation: Operation) returns (r: Result<Effects, Panic>)
    ensures r == FungibleSpec.ExecuteOperation(ctx, stored, operation)
  {
    var contract := new FungibleTokenContract.Load(stored, ctx);
    ghost var e := FungibleSpec.ExecuteOperation(ctx, stored, operation);
    assert e.Success? ==> [] + e.value.sent == e.value.sent;
    var response :- contract.ExecuteOperation(operation);
    r := Success(Effects(contract.state.View(), contract.sent, response));
  }

  method CallMessage(stored: State, ctx: Context, message: Message) returns (r: Result<Effects, Panic>)
    ensures r == FungibleSpec.ExecuteMessage(ctx, stored, message)
  {
    var contract := new FungibleTokenContract.Load(stored, ctx);
    ghost var e := FungibleSpec.ExecuteMessage(ctx, stored, message);
    assert e.Success? ==> [] + e.value.sent == e.value.sent;
    var response :- contract.ExecuteMessage(message);
    r := Success(Effects(contract.state.View(), contract.sent, response));
  }
}
