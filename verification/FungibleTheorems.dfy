/** Who can lower a balance, what a spender can take, and what a bounced transfer undoes. */
module FungibleTheorems {
  import opened Wrappers
  import opened Words
  import opened Totals
  import opened Sequences
  import opened FungibleState
  import opened FungibleSpec
  import opened FungibleNetwork

  // ---------------------------------------------------------------- authority

  predicate Signs(step: Step, owner: Owner) {
    step.Operate? && step.signer == Some(owner)
  }

  /** A transfer or a claim of the owner's, on this chain. */
  predicate OwnerMoves(step: Step, a: Account) {
    && step.Operate? && step.chain == a.chainId && step.signer == Some(a.owner)
    && match step.operation
       case Transfer(owner, _, _) => owner == a.owner
       case Claim(source, _, _) => source == a
       case _ => false
  }

  predicate SpenderMoves(step: Step, a: Account) {
    && step.Operate? && step.chain == a.chainId && step.operation.TransferFrom? && step.operation.owner == a.owner
    && step.signer == Some(step.operation.spender)
  }

  /** A withdrawal that the owner signed on another chain arrives. */
  predicate WithdrawalArrives(net: Network, step: Step, a: Account) {
    && step.Deliver? && step.i < |net.transit|
    && var e := net.transit[step.i];
    e.to == a.chainId && e.message.Withdraw? && e.message.owner == a.owner && e.signer == Some(a.owner)
  }

  /**
   * A balance falls in three ways only: the owner signs a transfer or claim, a withdrawal that the owner signed
   * arrives, or a spender uses an allowance, which then falls by the amount that leaves, and the balance by no more.
   */
  lemma BalanceFallsOnlyWithAuthority(net: Network, step: Step, a: Account)
    requires Inv(net)
    requires Next(net, step).BalanceOf(a) < net.BalanceOf(a)
    ensures OwnerMoves(step, a) || WithdrawalArrives(net, step, a) || SpenderMoves(step, a)
    ensures SpenderMoves(step, a) ==>
      var s, s' := net.StateOf(a.chainId), Next(net, step).StateOf(a.chainId);
      var op := step.operation;
      && op.spender != a.owner
      && s'.Allowance(a.owner, op.spender) == s.Allowance(a.owner, op.spender) - op.amount
      && net.BalanceOf(a) - Next(net, step).BalanceOf(a) <= op.amount
  {
    match step
    case Operate(chain, signer, op) =>
      var ctx := Context(chain, signer, false, "");
      OperationLowers(ctx, net.StateOf(chain), op, a.owner);
    case Deliver(i) =>
      var e := net.transit[i];
      assert WellSent(e);
      MessageLowers(Context(e.to, e.signer, e.bouncing, ""), net.StateOf(e.to), e.message, a.owner);
    case Reject(i) =>
  }

  lemma OperationLowers(ctx: Context, s: State, op: Operation, o: Owner)
    requires ExecuteOperation(ctx, s, op).Success?
    ensures var s' := ExecuteOperation(ctx, s, op).value.state;
      s'.BalanceOrDefault(o) < s.BalanceOrDefault(o) ==>
        || (op.Transfer? && op.owner == o && ctx.signer == Some(o))
        || (op.Claim? && op.sourceAccount == Account(ctx.chainId, o) && ctx.signer == Some(o))
        || (op.TransferFrom? && op.owner == o && ctx.signer == Some(op.spender) && op.spender != o
            && s'.Allowance(o, op.spender) == s.Allowance(o, op.spender) - op.amount
            && s.BalanceOrDefault(o) - s'.BalanceOrDefault(o) <= op.amount)
  {
    match op
    case Transfer(owner, amount, target) => DebitAndFinishLowers(ctx, s, owner, amount, target, o);
    case Claim(source, amount, target) =>
      if source.chainId == ctx.chainId {
        DebitAndFinishLowers(ctx, s, source.owner, amount, target, o);
      }
    case TransferFrom(owner, spender, amount, target) =>
      DebitForTransferFromFacts(s, owner, spender, amount);
      var debited := s.DebitForTransferFrom(owner, spender, amount).value;
      FinishTransferFacts(ctx, debited, amount, target, owner);
    case _ =>
  }

  lemma DebitAndFinishLowers(ctx: Context, s: State, owner: Owner, amount: uint128, target: Account, o: Owner)
    requires DebitAndFinish(ctx, s, owner, amount, target).Success?
    ensures o != owner ==>
      s.BalanceOrDefault(o) <= DebitAndFinish(ctx, s, owner, amount, target).value.state.BalanceOrDefault(o)
  {
    DebitFacts(s, owner, amount);
    FinishTransferFacts(ctx, s.Debit(owner, amount).value, amount, target, owner);
  }

  lemma MessageLowers(ctx: Context, s: State, message: Message, o: Owner)
    requires ExecuteMessage(ctx, s, message).Success?
    ensures ExecuteMessage(ctx, s, message).value.state.BalanceOrDefault(o) < s.BalanceOrDefault(o) ==>
      message.Withdraw? && message.owner == o
  {
    match message
    case Credit(target, amount, source) => CreditFacts(s, if ctx.bouncing then source else target, amount);
    case Withdraw(owner, amount, target) => DebitAndFinishLowers(ctx, s, owner, amount, target, o);
  }

  /**
   * A withdrawal under way was requested by a claim that the owner signed, on a chain other than the one it goes to.
   */
  lemma WithdrawalsComeFromClaims(net: Network, step: Step, e: Envelope)
    requires Inv(net)
    requires e in Next(net, step).transit && e !in net.transit && e.message.Withdraw?
    ensures step.Operate? && step.signer == Some(e.message.owner) && step.chain != e.to
    ensures step.operation == Claim(Account(e.to, e.message.owner), e.message.amount, e.message.targetAccount)
  {
    match step
    case Operate(chain, signer, op) =>
      var sent := ExecuteOperation(Context(chain, signer, false, ""), net.StateOf(chain), op).value.sent;
      PostedOrigin(chain, signer, sent, e);
    case Deliver(i) =>
      WithoutMembers(net.transit, i);
      var d := net.transit[i];
      PostedOrigin(d.to, d.signer, Execution(net, d).value.sent, e);
    case Reject(i) =>
      RejectingSendsNoWithdrawal(net, i);
  }

  lemma RejectingSendsNoWithdrawal(net: Network, i: nat)
    requires Inv(net)
    ensures forall e :: e in Next(net, Reject(i)).transit && e.message.Withdraw? ==> e in net.transit
  {
    if i < |net.transit| {
      WithoutMembers(net.transit, i);
      assert WellSent(net.transit[i]);
    }
  }

  // ---------------------------------------------------------------- every withdrawal has its claim

  /** What a claim asks of another chain. */
  datatype Terms = Terms(to: ChainId, owner: Owner, amount: uint128, targetAccount: Account)

  predicate Asks(e: Envelope, t: Terms) {
    e.to == t.to && e.message == Withdraw(t.owner, t.amount, t.targetAccount)
  }

  function Asking(t: Terms): Envelope -> bool {
    e => Asks(e, t)
  }

  function UnderWay(transit: seq<Envelope>, t: Terms): nat {
    Count(transit, Asking(t))
  }

  /** A claim of these terms that the owner signed, on a chain other than the one it withdraws from. */
  predicate Claims(step: Step, t: Terms) {
    && step.Operate? && step.signer == Some(t.owner) && step.chain != t.to
    && step.operation == Claim(Account(t.to, t.owner), t.amount, t.targetAccount)
  }

  /** A withdrawal of these terms is executed, or thrown away. */
  predicate Consumes(net: Network, step: Step, t: Terms) {
    match step
    case Operate(_, _, _) => false
    case Deliver(i) => i < |net.transit| && Asks(net.transit[i], t) && Execution(net, net.transit[i]).Success?
    case Reject(i) => i < |net.transit| && Asks(net.transit[i], t)
  }

  function ClaimsMade(steps: seq<Step>, t: Terms): nat {
    if steps == [] then 0 else (if Claims(steps[0], t) then 1 else 0) + ClaimsMade(steps[1..], t)
  }

  function Consumed(net: Network, steps: seq<Step>, t: Terms): nat
    decreases steps
  {
    if steps == [] then 0
    else (if Consumes(net, steps[0], t) then 1 else 0) + Consumed(Next(net, steps[0]), steps[1..], t)
  }

  lemma OperationAsks(ctx: Context, s: State, op: Operation, t: Terms)
    requires !ctx.bouncing
    ensures var r := ExecuteOperation(ctx, s, op);
      var sent := if r.Success? then Posted(ctx.chainId, ctx.signer, r.value.sent) else [];
      UnderWay(sent, t) == if Claims(Operate(ctx.chainId, ctx.signer, op), t) then 1 else 0
  {
    var r := ExecuteOperation(ctx, s, op);
    if r.Success? {
      var sent := Posted(ctx.chainId, ctx.signer, r.value.sent);
      assert |sent| <= 1;
      if sent == [] {
        assert !Claims(Operate(ctx.chainId, ctx.signer, op), t);
      } else {
        assert sent == [sent[0]];
        CountOne(sent[0], Asking(t));
      }
    }
  }

  lemma MessageAsksNothing(ctx: Context, s: State, message: Message, t: Terms)
    requires ExecuteMessage(ctx, s, message).Success?
    ensures UnderWay(Posted(ctx.chainId, ctx.signer, ExecuteMessage(ctx, s, message).value.sent), t) == 0
  {
    CountNone(Posted(ctx.chainId, ctx.signer, ExecuteMessage(ctx, s, message).value.sent), Asking(t));
  }

  lemma StepCountsWithdrawals(net: Network, step: Step, t: Terms)
    requires Inv(net)
    ensures UnderWay(Next(net, step).transit, t) + (if Consumes(net, step, t) then 1 else 0)
         == UnderWay(net.transit, t) + (if Claims(step, t) then 1 else 0)
  {
    match step
    case Operate(chain, signer, op) =>
      var ctx := Context(chain, signer, false, "");
      OperationAsks(ctx, net.StateOf(chain), op, t);
      var r := ExecuteOperation(ctx, net.StateOf(chain), op);
      hide ExecuteOperation, Claims;
      if r.Success? {
        CountAppend(net.transit, Posted(chain, signer, r.value.sent), Asking(t));
      }
    case Deliver(i) =>
      if i < |net.transit| && Execution(net, net.transit[i]).Success? {
        var e := net.transit[i];
        CountWithout(net.transit, i, Asking(t));
        MessageAsksNothing(Context(e.to, e.signer, e.bouncing, ""), net.StateOf(e.to), e.message, t);
        CountAppend(Without(net.transit, i), Posted(e.to, e.signer, Execution(net, e).value.sent), Asking(t));
      }
    case Reject(i) =>
      if i < |net.transit| {
        CountWithout(net.transit, i, Asking(t));
        assert WellSent(net.transit[i]);
        CountNone(Receipt(net.transit[i]), Asking(t));
        CountAppend(Without(net.transit, i), Receipt(net.transit[i]), Asking(t));
      }
  }

  /**
   * Over every run the withdrawals of given terms are exactly accounted for: those under way at the end, executed and
   * thrown away are those under way at the start and one for each claim of these terms that the owner signed. So none
   * is made up, and none is executed twice.
   */
  lemma {:induction false} WithdrawalsAreClaimed(net: Network, steps: seq<Step>, t: Terms)
    requires Inv(net)
    ensures UnderWay(Run(net, steps).transit, t) + Consumed(net, steps, t)
      == UnderWay(net.transit, t) + ClaimsMade(steps, t)
    decreases steps
  {
    hide Inv, Next, Claims, Consumes;
    if steps != [] {
      StepConserves(net, steps[0]);
      StepCountsWithdrawals(net, steps[0], t);
      WithdrawalsAreClaimed(Next(net, steps[0]), steps[1..], t);
    }
  }

  /** From the creation of the token on, withdrawals under way and executed are at most the claims signed for them. */
  lemma NoWithdrawalWithoutClaim(creator: ChainId, accounts: map<Owner, uint128>, steps: seq<Step>, t: Terms)
    requires Instantiate(accounts).Success?
    ensures var net := Genesis(creator, Instantiate(accounts).value);
      UnderWay(Run(net, steps).transit, t) + Consumed(net, steps, t) == ClaimsMade(steps, t)
  {
    GenesisFacts(creator, accounts);
    WithdrawalsAreClaimed(Genesis(creator, Instantiate(accounts).value), steps, t);
  }

  lemma PostedOrigin(from: ChainId, signer: Option<Owner>, sent: seq<Outgoing>, e: Envelope)
    requires e in Posted(from, signer, sent)
    ensures exists i :: 0 <= i < |sent| && e == Stamp(from, signer, sent[i])
  {
    var i :| 0 <= i < |sent| && Posted(from, signer, sent)[i] == e;
    assert e == Stamp(from, signer, sent[i]);
  }

  /** An arriving message is refused for one reason only: a withdrawal from a balance that is too small. */
  lemma DeliveryFailsOnlyForLackOfFunds(net: Network, e: Envelope)
    requires Inv(net) && e in net.transit
    ensures Execution(net, e).Failure? <==>
      e.message.Withdraw? && net.BalanceOf(Account(e.to, e.message.owner)) < e.message.amount
    ensures Execution(net, e).Failure? ==> Execution(net, e).error == InsufficientBalance
  {
    assert WellSent(e);
    if e.message.Withdraw? {
      DebitFacts(net.StateOf(e.to), e.message.owner, e.message.amount);
    }
  }

  // ---------------------------------------------------------------- what spenders can take

  /** The owner signs nothing but approvals and queries, and has no withdrawal under way to this chain. */
  predicate Passive(steps: seq<Step>, owner: Owner) {
    forall i :: 0 <= i < |steps| && Signs(steps[i], owner) ==>
      var op := steps[i].operation; op.Approve? || op.Balance? || op.TickerSymbol?
  }

  predicate NoWithdrawal(net: Network, a: Account) {
    forall e :: e in net.transit && e.message.Withdraw? ==> e.message.owner != a.owner || e.to != a.chainId
  }

  function GrantedBy(step: Step, a: Account): nat {
    if Signs(step, a.owner) && step.chain == a.chainId && step.operation.Approve? && step.operation.owner == a.owner
    then step.operation.allowance else 0
  }

  function Granted(steps: seq<Step>, a: Account): nat {
    if steps == [] then 0 else GrantedBy(steps[0], a) + Granted(steps[1..], a)
  }

  ghost function Spendable(net: Network, a: Account): int {
    net.StateOf(a.chainId).Spendable(a.owner)
  }

  /**
   * Over any run in which an owner moves nothing, all spenders together take at most what they were allowed to take at
   * the start and were granted since.
   */
  lemma {:induction false} SpendersTakeAtMostTheirAllowance(net: Network, steps: seq<Step>, a: Account)
    requires Inv(net) && Passive(steps, a.owner) && NoWithdrawal(net, a)
    ensures var net' := Run(net, steps);
      net.BalanceOf(a) - net'.BalanceOf(a) <= Spendable(net, a) + Granted(steps, a) - Spendable(net', a)
    decreases steps
  {
    if steps != [] {
      hide Next, NoWithdrawal, Inv;
      var net' := Next(net, steps[0]);
      StepConserves(net, steps[0]);
      assert Passive([steps[0]], a.owner);
      assert forall i :: 0 <= i < |steps[1..]| ==> steps[1..][i] == steps[i + 1];
      PassiveStep(net, steps[0], a);
      PassiveStepSendsNoWithdrawal(net, steps[0], a);
      SpendersTakeAtMostTheirAllowance(net', steps[1..], a);
    }
  }

  lemma PassiveStepSendsNoWithdrawal(net: Network, step: Step, a: Account)
    requires Inv(net) && Passive([step], a.owner) && NoWithdrawal(net, a)
    ensures NoWithdrawal(Next(net, step), a)
  {
    assert [step][0] == step;
    forall e | e in Next(net, step).transit && e.message.Withdraw?
      ensures e.message.owner != a.owner || e.to != a.chainId
    {
      if e !in net.transit {
        WithdrawalsComeFromClaims(net, step, e);
      }
    }
  }

  lemma PassiveStep(net: Network, step: Step, a: Account)
    requires Inv(net) && Passive([step], a.owner) && NoWithdrawal(net, a)
    ensures var net' := Next(net, step);
      net.BalanceOf(a) - net'.BalanceOf(a) <= Spendable(net, a) + GrantedBy(step, a) - Spendable(net', a)
  {
    assert [step][0] == step;
    match step
    case Operate(chain, signer, op) =>
      if chain == a.chainId && ExecuteOperation(Context(chain, signer, false, ""), net.StateOf(chain), op).Success? {
        PassiveOperation(Context(chain, signer, false, ""), net.StateOf(chain), op, a.owner);
      }
    case Deliver(i) =>
      if i < |net.transit| && net.transit[i].to == a.chainId && Execution(net, net.transit[i]).Success? {
        var e := net.transit[i];
        var ctx := Context(e.to, e.signer, e.bouncing, "");
        MessageLowers(ctx, net.StateOf(e.to), e.message, a.owner);
        MessageKeepsAllowances(ctx, net.StateOf(e.to), e.message);
      }
    case Reject(i) =>
  }

  lemma MessageKeepsAllowances(ctx: Context, s: State, message: Message)
    requires ExecuteMessage(ctx, s, message).Success?
    ensures ExecuteMessage(ctx, s, message).value.state.allowances == s.allowances
  {
    match message
    case Credit(_, _, _) =>
    case Withdraw(owner, amount, target) => DebitFacts(s, owner, amount);
  }

  lemma PassiveOperation(ctx: Context, s: State, op: Operation, o: Owner)
    requires ExecuteOperation(ctx, s, op).Success?
    requires ctx.signer == Some(o) ==> op.Approve? || op.Balance? || op.TickerSymbol?
    ensures var s' := ExecuteOperation(ctx, s, op).value.state;
      s.BalanceOrDefault(o) - s'.BalanceOrDefault(o)
        <= s.Spendable(o) - s'.Spendable(o) + if ctx.signer == Some(o) && op.Approve? && op.owner == o then op.allowance
            else 0
  {
    hide Total;
    match op
    case Approve(owner, spender, allowance) =>
      ApproveGrants(s, owner, spender, allowance, o);
    case Transfer(owner, amount, target) =>
      DebitAndFinishLowers(ctx, s, owner, amount, target, o);
      DebitAndFinishKeepsAllowances(ctx, s, owner, amount, target);
    case Claim(source, amount, target) =>
      if source.chainId == ctx.chainId {
        DebitAndFinishLowers(ctx, s, source.owner, amount, target, o);
        DebitAndFinishKeepsAllowances(ctx, s, source.owner, amount, target);
      }
    case TransferFrom(owner, spender, amount, target) =>
      DebitForTransferFromFacts(s, owner, spender, amount);
      TransferFromSpends(s, owner, spender, amount, o);
      var debited := s.DebitForTransferFrom(owner, spender, amount).value;
      FinishTransferFacts(ctx, debited, amount, target, owner);
    case _ =>
  }

  lemma DebitAndFinishKeepsAllowances(ctx: Context, s: State, owner: Owner, amount: uint128, target: Account)
    requires DebitAndFinish(ctx, s, owner, amount, target).Success?
    ensures DebitAndFinish(ctx, s, owner, amount, target).value.state.allowances == s.allowances
  {
    DebitFacts(s, owner, amount);
  }

  // ---------------------------------------------------------------- bounces

  /**
   * A transfer to another chain that is rejected there and comes back leaves every state as it was before, even where
   * the debit had emptied and removed the account.
   */
  lemma BouncedTransferIsUndone(net: Network, owner: Owner, chain: ChainId, amount: uint128, target: Account)
    requires chain in net.states && target.chainId != chain
    requires amount <= net.BalanceOf(Account(chain, owner))
    ensures var sent := Next(net, Operate(chain, Some(owner), Transfer(owner, amount, target)));
      var n := |net.transit|;
      && |sent.transit| == n + 1
      && Run(sent, [Reject(n), Deliver(n)]) == net
  {
    var s := net.StateOf(chain);
    DebitFacts(s, owner, amount);
    CreditUndoesDebit(s, owner, amount);
    var sent := Next(net, Operate(chain, Some(owner), Transfer(owner, amount, target)));
    var n := |net.transit|;
    var e := Envelope(chain, target.chainId, Credit(target.owner, amount, owner), Some(owner), true, false);
    assert sent.transit == net.transit + [e];
    assert sent.transit[..n] == net.transit;
    var back := e.(from := target.chainId, to := chain, bouncing := true);
    var rejected := Next(sent, Reject(n));
    assert rejected == Network(sent.states, net.transit + [back]);
    assert rejected.transit[..n] == net.transit;
    var returned := Next(rejected, Deliver(n));
    assert returned.states == net.states[chain := s] == net.states;
    assert returned.transit == net.transit;
    TwoSteps(sent, Reject(n), Deliver(n));
  }

  lemma TwoSteps(net: Network, a: Step, b: Step)
    ensures Run(net, [a, b]) == Next(Next(net, a), b)
  {
    hide Next;
    assert [a, b][1..] == [b] && [b][1..] == [];
    var net' := Next(net, a);
    assert Run(Next(net', b), []) == Next(net', b);
    assert Run(net', [b]) == Run(Next(net', b), []);
  }

  /** With a supply above 128 bits tokens can be lost: a credit to a full account disappears. */
  lemma SaturationLosesTokens()
    ensures var accounts: map<Owner, uint128> := map[0 := MAX_UINT128, 1 := 1];
      && Instantiate(accounts).Success?
      && var net := Genesis(7, Instantiate(accounts).value);
      Worth(Next(net, Operate(7, Some(1), Transfer(1, 1, Account(7, 0))))) == Worth(net) - 1
  {
    var accounts: map<Owner, uint128> := map[0 := MAX_UINT128, 1 := 1];
    assert NonZero(accounts) == accounts;
    var s := State(accounts, map[]);
    var net := Genesis(7, s);
    var debited := s.Debit(1, 1).value;
    DebitFacts(s, 1, 1);
    var s' := debited.Credit(0, 1);
    assert s'.accounts == debited.accounts;
    HoldingsUpdate(net.states, 7, s');
  }
}
