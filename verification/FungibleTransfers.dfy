/** Where tokens go: what each operation and each message moves, and that every credit sent is accounted for. */
module FungibleTransfers {
  import opened Wrappers
  import opened Words
  import opened Sequences
  import opened FungibleState
  import opened FungibleSpec
  import opened FungibleNetwork
  import opened FungibleTheorems

  // ---------------------------------------------------------------- vocabulary

  /** An amount leaves one account; every other balance is as it was. */
  ghost predicate Leaves(net: Network, net': Network, from: Account, amount: uint128) {
    forall a: Account :: net'.BalanceOf(a) == net.BalanceOf(a) - (if a == from then amount else 0)
  }

  /** An amount arrives at one account, as far as it fits; every other balance is as it was. */
  ghost predicate Arrives(net: Network, net': Network, to: Account, amount: uint128) {
    forall a: Account ::
      net'.BalanceOf(a) == if a == to then SaturatingAdd(net.BalanceOf(a), amount) else net.BalanceOf(a)
  }

  /** An amount goes from one account to another, which may be the same. */
  ghost predicate Moves(net: Network, net': Network, from: Account, to: Account, amount: uint128)
    requires amount <= net.BalanceOf(from)
  {
    forall a: Account ::
      var left := net.BalanceOf(a) - (if a == from then amount else 0);
      net'.BalanceOf(a) == if a == to then SaturatingAdd(left, amount) else left
  }

  ghost predicate SameAllowances(net: Network, net': Network) {
    forall chain: ChainId, owner: Owner, spender: Owner ::
      net'.StateOf(chain).Allowance(owner, spender) == net.StateOf(chain).Allowance(owner, spender)
  }

  /** One allowance changes; every other one is as it was. */
  ghost predicate AllowanceBecomes(
      net: Network, net': Network, account: Account, spender: Owner, allowance: nat) {
    forall chain: ChainId, owner: Owner, p: Owner ::
      net'.StateOf(chain).Allowance(owner, p) ==
        if (Account(chain, owner), p) == (account, spender) then allowance else net.StateOf(chain).Allowance(owner, p)
  }

  /** The credit that brings an amount to an account of another chain. */
  function CreditTo(from: Account, to: Account, amount: uint128, signer: Option<Owner>): Envelope {
    Envelope(from.chainId, to.chainId, Message.Credit(to.owner, amount, from.owner), signer, true, false)
  }

  /** The request to withdraw an amount on another chain. */
  function RequestTo(chain: ChainId, from: Account, to: Account, amount: uint128): Envelope {
    Envelope(chain, from.chainId, Withdraw(from.owner, amount, to), Some(from.owner), false, false)
  }

  /** A payment on one chain is made at once; to another chain a credit is sent. `rest` is what is still under way. */
  ghost predicate Paid(
      net: Network, net': Network, from: Account, to: Account, amount: uint128, signer: Option<Owner>,
      rest: seq<Envelope>)
    requires amount <= net.BalanceOf(from)
  {
    if to.chainId == from.chainId then Moves(net, net', from, to, amount) && net'.transit == rest
    else Leaves(net, net', from, amount) && net'.transit == rest + [CreditTo(from, to, amount, signer)]
  }

  // ---------------------------------------------------------------- single steps

  lemma PostedOne(from: ChainId, signer: Option<Owner>, out: Outgoing)
    ensures Posted(from, signer, [out]) == [Stamp(from, signer, out)]
  {
  }

  /** The end of a payment whose debit has been made. */
  lemma FinishPays(net: Network, ctx: Context, debited: State, from: Account, to: Account, amount: uint128,
                   rest: seq<Envelope>)
    requires ctx.chainId == from.chainId && amount <= net.BalanceOf(from)
    requires forall o: Owner ::
      debited.BalanceOrDefault(o) == net.BalanceOf(Account(from.chainId, o)) - (if o == from.owner then amount else 0)
    ensures var e := FinishTransfer(ctx, debited, amount, to, from.owner);
      && Paid(net, Finish(net, from.chainId, ctx.signer, Success(e), rest), from, to, amount, ctx.signer, rest)
      && e.state.allowances == debited.allowances
  {
    CreditFacts(debited, to.owner, amount);
    var e := FinishTransfer(ctx, debited, amount, to, from.owner);
    if to.chainId != from.chainId {
      PostedOne(from.chainId, ctx.signer, e.sent[0]);
    } else {
      assert Posted(from.chainId, ctx.signer, e.sent) == [];
    }
  }

  lemma AllowancesOfTheRest(net: Network, chain: ChainId, signer: Option<Owner>, e: Effects, rest: seq<Envelope>)
    requires e.state.allowances == net.StateOf(chain).allowances
    ensures SameAllowances(net, Finish(net, chain, signer, Success(e), rest))
  {
  }

  /** A debit followed by the end of a payment, whether by an operation or by a withdrawal that arrives. */
  lemma DebitAndFinishPays(net: Network, ctx: Context, from: Account, to: Account, amount: uint128, rest: seq<Envelope>)
    requires ctx.chainId == from.chainId
    ensures var r := DebitAndFinish(ctx, net.StateOf(from.chainId), from.owner, amount, to);
      && (r.Success? <==> amount <= net.BalanceOf(from))
      && (r.Success? ==>
            var net' := Finish(net, from.chainId, ctx.signer, r, rest);
            Paid(net, net', from, to, amount, ctx.signer, rest) && SameAllowances(net, net'))
  {
    var s := net.StateOf(from.chainId);
    DebitFacts(s, from.owner, amount);
    if amount <= net.BalanceOf(from) {
      hide Paid, FinishTransfer, SameAllowances;
      var debited := s.Debit(from.owner, amount).value;
      FinishPays(net, ctx, debited, from, to, amount, rest);
      var e := FinishTransfer(ctx, debited, amount, to, from.owner);
      AllowancesOfTheRest(net, from.chainId, ctx.signer, e, rest);
    }
  }

  /** A transfer pays exactly if the owner signs it and has the amount; otherwise nothing happens. */
  lemma TransferAnswer(
      net: Network, chain: ChainId, signer: Option<Owner>, owner: Owner, amount: uint128, target: Account)
    ensures var net', from := Next(net, Operate(chain, signer, Transfer(owner, amount, target))), Account(chain, owner);
      if signer == Some(owner) && amount <= net.BalanceOf(from)
      then Paid(net, net', from, target, amount, signer, net.transit) && SameAllowances(net, net')
      else net' == net
  {
    hide Paid, SameAllowances;
    DebitAndFinishPays(net, Context(chain, signer, false, ""), Account(chain, owner), target, amount, net.transit);
  }

  /** A spender may take an amount within both the balance and their allowance, and nobody their own. */
  predicate MaySpend(s: State, owner: Owner, spender: Owner, amount: uint128) {
    amount == 0 ||
    (owner != spender && amount <= s.BalanceOrDefault(owner) && amount <= s.Allowance(owner, spender))
  }

  /** A transfer by a spender pays likewise, and takes the amount off the allowance. */
  lemma TransferFromAnswer(net: Network, chain: ChainId, signer: Option<Owner>, owner: Owner, spender: Owner,
                           amount: uint128, target: Account)
    ensures var net' := Next(net, Operate(chain, signer, TransferFrom(owner, spender, amount, target)));
      var from, s := Account(chain, owner), net.StateOf(chain);
      if signer == Some(spender) && MaySpend(s, owner, spender, amount)
      then
        && Paid(net, net', from, target, amount, signer, net.transit)
        && AllowanceBecomes(net, net', from, spender, s.Allowance(owner, spender) - amount)
      else net' == net
  {
    hide Paid, FinishTransfer;
    var s, ctx, from := net.StateOf(chain), Context(chain, signer, false, ""), Account(chain, owner);
    DebitForTransferFromFacts(s, owner, spender, amount);
    var debited := s.DebitForTransferFrom(owner, spender, amount);
    if signer == Some(spender) && debited.Success? {
      FinishPays(net, ctx, debited.value, from, target, amount, net.transit);
      var e := FinishTransfer(ctx, debited.value, amount, target, owner);
      assert Next(net, Operate(chain, signer, TransferFrom(owner, spender, amount, target)))
          == Finish(net, chain, signer, Success(e), net.transit);
    }
  }

  /** A claim on this chain pays like a transfer; on another chain it sends a request in the owner's name. */
  lemma ClaimAnswer(
      net: Network, chain: ChainId, signer: Option<Owner>, source: Account, amount: uint128, target: Account)
    ensures var net' := Next(net, Operate(chain, signer, Claim(source, amount, target)));
      && (signer == Some(source.owner) && source.chainId == chain && amount <= net.BalanceOf(source) ==>
            Paid(net, net', source, target, amount, signer, net.transit) && SameAllowances(net, net'))
      && (signer == Some(source.owner) && source.chainId != chain ==>
            && Leaves(net, net', source, 0) && SameAllowances(net, net')
            && net'.transit == net.transit + [RequestTo(chain, source, target, amount)])
      && (signer != Some(source.owner) || (source.chainId == chain && amount > net.BalanceOf(source)) ==> net' == net)
  {
    hide Paid;
    if source.chainId == chain {
      hide SameAllowances, Leaves;
      DebitAndFinishPays(net, Context(chain, signer, false, ""), source, target, amount, net.transit);
    } else if signer == Some(source.owner) {
      PostedOne(chain, signer, Outgoing(source.chainId, Withdraw(source.owner, amount, target), false));
    }
  }

  /** An approval adds to one allowance, up to the cap, exactly if the owner signs it for somebody else. */
  lemma ApprovalAnswer(
      net: Network, chain: ChainId, signer: Option<Owner>, owner: Owner, spender: Owner, allowance: uint128)
    ensures var net' := Next(net, Operate(chain, signer, Approve(owner, spender, allowance)));
      if signer == Some(owner) && (allowance == 0 || owner != spender)
      then
        && AllowanceBecomes(net, net', Account(chain, owner), spender,
                            SaturatingAdd(net.StateOf(chain).Allowance(owner, spender), allowance))
        && Leaves(net, net', Account(chain, owner), 0) && net'.transit == net.transit
      else net' == net
  {
    ApproveFacts(net.StateOf(chain), owner, spender, allowance);
    assert Posted(chain, signer, []) == [];
  }

  /** A query answers with the balance, or zero for an unknown account, and changes nothing. */
  lemma QueryAnswer(net: Network, chain: ChainId, signer: Option<Owner>, owner: Owner, symbol: string)
    ensures var net' := Next(net, Operate(chain, signer, Balance(owner)));
      && Leaves(net, net', Account(chain, owner), 0) && SameAllowances(net, net') && net'.transit == net.transit
    ensures ExecuteOperation(Context(chain, signer, false, symbol), net.StateOf(chain), Balance(owner)) ==
      Success(Effects(net.StateOf(chain), [], BalanceIs(net.BalanceOf(Account(chain, owner)))))
    ensures ExecuteOperation(Context(chain, signer, false, symbol), net.StateOf(chain), TickerSymbol) ==
      Success(Effects(net.StateOf(chain), [], Ticker(symbol)))
  {
    assert Posted(chain, signer, []) == [];
  }

  /** A credit that arrives always pays its target; one that comes back pays the account it was taken from. */
  lemma CreditAnswer(net: Network, i: nat)
    requires i < |net.transit| && net.transit[i].message.Credit?
    ensures var net', e := Next(net, Deliver(i)), net.transit[i];
      && Arrives(net, net', Account(e.to, if e.bouncing then e.message.source else e.message.target), e.message.amount)
      && SameAllowances(net, net')
      && net'.transit == Without(net.transit, i)
  {
    var e := net.transit[i];
    CreditFacts(net.StateOf(e.to), if e.bouncing then e.message.source else e.message.target, e.message.amount);
    assert Posted(e.to, e.signer, []) == [];
  }

  /** A request that arrives pays exactly if the owner signed it and has the amount; otherwise it stays under way. */
  lemma WithdrawalAnswer(net: Network, i: nat)
    requires i < |net.transit| && net.transit[i].message.Withdraw?
    ensures var net', e := Next(net, Deliver(i)), net.transit[i];
      var from := Account(e.to, e.message.owner);
      if e.signer == Some(e.message.owner) && e.message.amount <= net.BalanceOf(from)
      then
        && Paid(net, net', from, e.message.targetAccount, e.message.amount, e.signer, Without(net.transit, i))
        && SameAllowances(net, net')
      else net' == net
  {
    hide Paid, SameAllowances;
    var e := net.transit[i];
    DebitAndFinishPays(net, Context(e.to, e.signer, e.bouncing, ""), Account(e.to, e.message.owner),
                       e.message.targetAccount, e.message.amount, Without(net.transit, i));
  }

  /** Whatever is not a query is answered by its completion alone. */
  lemma OthersAnswerOk(ctx: Context, s: State, op: Operation, message: Message)
    ensures var r := ExecuteOperation(ctx, s, op);
      r.Success? && !op.Balance? && !op.TickerSymbol? ==> r.value.response == Ok
    ensures var r := ExecuteMessage(ctx, s, message); r.Success? ==> r.value.response == Ok
  {
  }

  /** The token is created exactly if somebody gets something, and everybody has what was meant for them. */
  lemma CreationAnswer(creator: ChainId, accounts: map<Owner, uint128>, a: Account)
    ensures var r := Instantiate(accounts);
      && (r.Success? <==> exists o: Owner :: o in accounts && accounts[o] != 0)
      && (r.Success? ==>
            var net := Genesis(creator, r.value);
            && net.BalanceOf(a) == (if a.chainId == creator then Get(accounts, a.owner) else 0)
            && net.StateOf(a.chainId).allowances == map[])
  {
    if o: Owner :| o in accounts && accounts[o] != 0 {
      assert o in NonZero(accounts);
    } else {
      assert NonZero(accounts) == map[];
    }
  }

  // ---------------------------------------------------------------- payments across chains

  lemma PaidOnArrival(net: Network, net1: Network, from: Account, to: Account, amount: uint128, signer: Option<Owner>)
    requires amount <= net.BalanceOf(from) && to.chainId != from.chainId
    requires Paid(net, net1, from, to, amount, signer, net.transit)
    ensures var net' := Next(net1, Deliver(|net.transit|));
      Moves(net, net', from, to, amount) && SameAllowances(net1, net') && net'.transit == net.transit
  {
    hide SameAllowances;
    var n := |net.transit|;
    var e := CreditTo(from, to, amount, signer);
    assert net1.transit == net.transit + [e] && net1.transit[n] == e;
    WithoutLast(net.transit, e);
    CreditAnswer(net1, n);
    var net' := Next(net1, Deliver(n));
    forall a: Account
      ensures var left := net.BalanceOf(a) - (if a == from then amount else 0);
        net'.BalanceOf(a) == if a == to then SaturatingAdd(left, amount) else left
    {
      assert net1.BalanceOf(a) == net.BalanceOf(a) - (if a == from then amount else 0);
    }
  }

  /**
   * A signed and funded transfer to another chain, once its credit is delivered, has moved exactly the amount from the
   * owner to the target: no other balance and no allowance has changed, and nothing more is under way.
   */
  lemma RemoteTransferArrives(net: Network, chain: ChainId, owner: Owner, amount: uint128, target: Account)
    requires target.chainId != chain && amount <= net.BalanceOf(Account(chain, owner))
    ensures var net' :=
      Run(net, [Operate(chain, Some(owner), Transfer(owner, amount, target)), Deliver(|net.transit|)]);
      && Moves(net, net', Account(chain, owner), target, amount)
      && SameAllowances(net, net') && net'.transit == net.transit
  {
    hide Next, Moves, Paid;
    var first := Operate(chain, Some(owner), Transfer(owner, amount, target));
    TwoSteps(net, first, Deliver(|net.transit|));
    TransferAnswer(net, chain, Some(owner), owner, amount, target);
    PaidOnArrival(net, Next(net, first), Account(chain, owner), target, amount, Some(owner));
  }

  /** The same by a spender: their allowance, and no other, falls by the amount. */
  lemma RemoteTransferFromArrives(
      net: Network, chain: ChainId, owner: Owner, spender: Owner, amount: uint128, target: Account)
    requires target.chainId != chain && MaySpend(net.StateOf(chain), owner, spender, amount)
    ensures var net' :=
      Run(net, [Operate(chain, Some(spender), TransferFrom(owner, spender, amount, target)), Deliver(|net.transit|)]);
      && Moves(net, net', Account(chain, owner), target, amount)
      && AllowanceBecomes(net, net', Account(chain, owner), spender,
                          net.StateOf(chain).Allowance(owner, spender) - amount)
      && net'.transit == net.transit
  {
    hide Next, Moves, Paid;
    var first := Operate(chain, Some(spender), TransferFrom(owner, spender, amount, target));
    TwoSteps(net, first, Deliver(|net.transit|));
    TransferFromAnswer(net, chain, Some(spender), owner, spender, amount, target);
    PaidOnArrival(net, Next(net, first), Account(chain, owner), target, amount, Some(spender));
  }

  /**
   * A claim signed on another chain, once the request is delivered to a chain with the funds, and the credit to the
   * target's chain if that is a third one, has moved exactly the amount from the source to the target.
   */
  lemma RemoteClaimArrives(net: Network, chain: ChainId, source: Account, amount: uint128, target: Account)
    requires source.chainId != chain && amount <= net.BalanceOf(source)
    ensures var n := |net.transit|;
      var claim := Operate(chain, Some(source.owner), Claim(source, amount, target));
      var steps := if target.chainId == source.chainId then [claim, Deliver(n)] else [claim, Deliver(n), Deliver(n)];
      var net' := Run(net, steps);
      && Moves(net, net', source, target, amount)
      && SameAllowances(net, net') && net'.transit == net.transit
  {
    var n := |net.transit|;
    var claim := Operate(chain, Some(source.owner), Claim(source, amount, target));
    var asked := Next(net, claim);
    var e := RequestTo(chain, source, target, amount);
    ClaimAnswer(net, chain, Some(source.owner), source, amount, target);
    assert asked.transit[n] == e;
    WithoutLast(net.transit, e);
    WithdrawalAnswer(asked, n);
    var paid := Next(asked, Deliver(n));
    SameBalancesPay(net, asked, paid, source, target, amount, Some(source.owner));
    TwoSteps(net, claim, Deliver(n));
    if target.chainId != source.chainId {
      hide Next, Moves, Paid;
      PaidOnArrival(net, paid, source, target, amount, Some(source.owner));
      ThreeSteps(net, claim, Deliver(n), Deliver(n));
    }
  }

  lemma SameBalancesPay(net: Network, net1: Network, net2: Network, from: Account, to: Account, amount: uint128,
                        signer: Option<Owner>)
    requires Leaves(net, net1, from, 0) && amount <= net.BalanceOf(from)
    requires amount <= net1.BalanceOf(from) && Paid(net1, net2, from, to, amount, signer, net.transit)
    ensures Paid(net, net2, from, to, amount, signer, net.transit)
  {
    forall a: Account ensures net1.BalanceOf(a) == net.BalanceOf(a) {
    }
  }

  lemma ThreeSteps(net: Network, a: Step, b: Step, c: Step)
    ensures Run(net, [a, b, c]) == Next(Next(Next(net, a), b), c)
  {
    hide Next;
    assert [a, b, c][1..] == [b, c];
    TwoSteps(Next(net, a), b, c);
  }

  // ---------------------------------------------------------------- every credit is accounted for

  /** A payment from an account to one on another chain. */
  datatype Payment = Payment(from: Account, to: Account, amount: uint128)

  /** The envelope brings this payment, or brings it back. */
  predicate Brings(e: Envelope, p: Payment, back: bool) {
    && e.bouncing == back
    && e.from == (if back then p.to else p.from).chainId && e.to == (if back then p.from else p.to).chainId
    && e.message == Message.Credit(p.to.owner, p.amount, p.from.owner)
  }

  function Bringing(p: Payment, back: bool): Envelope -> bool {
    e => Brings(e, p, back)
  }

  /** The step makes this payment: a signed and funded transfer, transfer by a spender, claim, or arriving request. */
  predicate Pays(net: Network, step: Step, p: Payment) {
    && p.to.chainId != p.from.chainId
    && match step
       case Operate(chain, signer, Transfer(owner, amount, target)) =>
         && Payment(Account(chain, owner), target, amount) == p
         && signer == Some(owner) && amount <= net.BalanceOf(p.from)
       case Operate(chain, signer, TransferFrom(owner, spender, amount, target)) =>
         && Payment(Account(chain, owner), target, amount) == p
         && signer == Some(spender) && MaySpend(net.StateOf(chain), owner, spender, amount)
       case Operate(chain, signer, Claim(source, amount, target)) =>
         && Payment(source, target, amount) == p && source.chainId == chain
         && signer == Some(source.owner) && amount <= net.BalanceOf(source)
       case Operate(_, _, _) => false
       case Deliver(i) =>
         && i < |net.transit| && net.transit[i].message.Withdraw?
         && var e := net.transit[i];
         && Payment(Account(e.to, e.message.owner), e.message.targetAccount, e.message.amount) == p
         && e.signer == Some(e.message.owner) && e.message.amount <= net.BalanceOf(p.from)
       case Reject(_) => false
  }

  predicate Delivers(net: Network, step: Step, p: Payment, back: bool) {
    step.Deliver? && step.i < |net.transit| && Brings(net.transit[step.i], p, back)
  }

  predicate Rejects(net: Network, step: Step, p: Payment, back: bool) {
    step.Reject? && step.i < |net.transit| && Brings(net.transit[step.i], p, back)
  }

  /** How many steps of a run do something, which may depend on the network they start from. */
  function Times(net: Network, steps: seq<Step>, does: (Network, Step) -> bool): nat
    decreases steps
  {
    if steps == [] then 0
    else (if does(net, steps[0]) then 1 else 0) + Times(Next(net, steps[0]), steps[1..], does)
  }

  function Paying(p: Payment): (Network, Step) -> bool {
    (net, step) => Pays(net, step, p)
  }

  function Delivering(p: Payment, back: bool): (Network, Step) -> bool {
    (net, step) => Delivers(net, step, p, back)
  }

  function Rejecting(p: Payment, back: bool): (Network, Step) -> bool {
    (net, step) => Rejects(net, step, p, back)
  }

  /** What a payment leaves under way. */
  lemma PaidSends(net: Network, net': Network, from: Account, to: Account, amount: uint128, signer: Option<Owner>,
                  rest: seq<Envelope>, p: Payment, back: bool)
    requires amount <= net.BalanceOf(from) && Paid(net, net', from, to, amount, signer, rest)
    ensures Count(net'.transit, Bringing(p, back)) == Count(rest, Bringing(p, back))
      + if !back && to.chainId != from.chainId && p == Payment(from, to, amount) then 1 else 0
  {
    hide Moves, Leaves;
    if to.chainId != from.chainId {
      var e := CreditTo(from, to, amount, signer);
      CountAppend(rest, [e], Bringing(p, back));
      CountOne(e, Bringing(p, back));
    }
  }

  lemma RequestBringsNothing(net: Network, net': Network, e: Envelope, p: Payment, back: bool)
    requires net'.transit == net.transit + [e] && e.message.Withdraw?
    ensures Count(net'.transit, Bringing(p, back)) == Count(net.transit, Bringing(p, back))
  {
    CountAppend(net.transit, [e], Bringing(p, back));
    CountOne(e, Bringing(p, back));
  }

  lemma OperationCounts(net: Network, chain: ChainId, signer: Option<Owner>, op: Operation, p: Payment, back: bool)
    ensures var step := Operate(chain, signer, op);
      Count(Next(net, step).transit, Bringing(p, back)) ==
        Count(net.transit, Bringing(p, back)) + if !back && Pays(net, step, p) then 1 else 0
  {
    hide Next, Paid, Leaves, SameAllowances, AllowanceBecomes, Brings;
    var net' := Next(net, Operate(chain, signer, op));
    match op
    case Transfer(owner, amount, target) =>
      TransferAnswer(net, chain, signer, owner, amount, target);
      if signer == Some(owner) && amount <= net.BalanceOf(Account(chain, owner)) {
        PaidSends(net, net', Account(chain, owner), target, amount, signer, net.transit, p, back);
      }
    case TransferFrom(owner, spender, amount, target) =>
      TransferFromAnswer(net, chain, signer, owner, spender, amount, target);
      if signer == Some(spender) && MaySpend(net.StateOf(chain), owner, spender, amount) {
        PaidSends(net, net', Account(chain, owner), target, amount, signer, net.transit, p, back);
      }
    case Claim(source, amount, target) =>
      ClaimAnswer(net, chain, signer, source, amount, target);
      if signer == Some(source.owner) {
        if source.chainId != chain {
          RequestBringsNothing(net, net', RequestTo(chain, source, target, amount), p, back);
        } else if amount <= net.BalanceOf(source) {
          PaidSends(net, net', source, target, amount, signer, net.transit, p, back);
        }
      }
    case Approve(owner, spender, allowance) =>
      ApprovalAnswer(net, chain, signer, owner, spender, allowance);
    case Balance(owner) =>
      QueryAnswer(net, chain, signer, owner, "");
    case TickerSymbol =>
      TickerChangesNothing(net, chain, signer);
  }

  lemma TickerChangesNothing(net: Network, chain: ChainId, signer: Option<Owner>)
    ensures Next(net, Operate(chain, signer, TickerSymbol)).transit == net.transit
  {
    assert Posted(chain, signer, []) == [];
  }

  lemma DeliveryCounts(net: Network, i: nat, p: Payment, back: bool)
    ensures Count(Next(net, Deliver(i)).transit, Bringing(p, back))
         + (if Delivers(net, Deliver(i), p, back) then 1 else 0)
         == Count(net.transit, Bringing(p, back)) + if !back && Pays(net, Deliver(i), p) then 1 else 0
  {
    hide Paid, SameAllowances, Arrives;
    if i < |net.transit| {
      var e := net.transit[i];
      CountWithout(net.transit, i, Bringing(p, back));
      if e.message.Credit? {
        CreditAnswer(net, i);
      } else {
        WithdrawalAnswer(net, i);
        hide Next;
        var from := Account(e.to, e.message.owner);
        if e.signer == Some(e.message.owner) && e.message.amount <= net.BalanceOf(from) {
          PaidSends(net, Next(net, Deliver(i)), from, e.message.targetAccount, e.message.amount, e.signer,
                    Without(net.transit, i), p, back);
        }
      }
    }
  }

  lemma RejectionCounts(net: Network, i: nat, p: Payment, back: bool)
    requires Inv(net)
    ensures Count(Next(net, Reject(i)).transit, Bringing(p, back)) + (if Rejects(net, Reject(i), p, back) then 1 else 0)
         == Count(net.transit, Bringing(p, back)) + if back && Rejects(net, Reject(i), p, false) then 1 else 0
  {
    if i < |net.transit| {
      var e := net.transit[i];
      assert WellSent(e);
      CountWithout(net.transit, i, Bringing(p, back));
      CountAppend(Without(net.transit, i), Receipt(e), Bringing(p, back));
      if Receipt(e) != [] {
        CountOne(Receipt(e)[0], Bringing(p, back));
      }
    }
  }

  lemma StepCountsCredits(net: Network, step: Step, p: Payment, back: bool)
    requires Inv(net)
    ensures Count(Next(net, step).transit, Bringing(p, back))
         + (if Delivers(net, step, p, back) then 1 else 0) + (if Rejects(net, step, p, back) then 1 else 0)
         == Count(net.transit, Bringing(p, back))
         + if back then (if Rejects(net, step, p, false) then 1 else 0) else (if Pays(net, step, p) then 1 else 0)
  {
    hide Next, Count, Brings, MaySpend;
    match step
    case Operate(chain, signer, op) => OperationCounts(net, chain, signer, op, p, back);
    case Deliver(i) => DeliveryCounts(net, i, p, back);
    case Reject(i) => RejectionCounts(net, i, p, back);
  }

  /**
   * Over every run the payments from one account to another on another chain are exactly accounted for. The credits
   * that are still under way, that were delivered, and that were rejected are those under way at the start and one for
   * each such payment made. Those coming back are accounted for by the rejections in the same way. So a payment is
   * delivered to its target, or back to where it came from, at most once, and nothing is paid that was not sent.
   */
  lemma {:induction false} CreditsAreAccounted(net: Network, steps: seq<Step>, p: Payment)
    requires Inv(net)
    ensures Count(Run(net, steps).transit, Bringing(p, false))
      + Times(net, steps, Delivering(p, false)) + Times(net, steps, Rejecting(p, false))
      == Count(net.transit, Bringing(p, false)) + Times(net, steps, Paying(p))
    ensures Count(Run(net, steps).transit, Bringing(p, true))
      + Times(net, steps, Delivering(p, true)) + Times(net, steps, Rejecting(p, true))
      == Count(net.transit, Bringing(p, true)) + Times(net, steps, Rejecting(p, false))
    decreases steps
  {
    hide Inv, Next, Count, Delivers, Rejects, Pays;
    if steps != [] {
      StepConserves(net, steps[0]);
      StepCountsCredits(net, steps[0], p, false);
      StepCountsCredits(net, steps[0], p, true);
      CreditsAreAccounted(Next(net, steps[0]), steps[1..], p);
    }
  }
}
