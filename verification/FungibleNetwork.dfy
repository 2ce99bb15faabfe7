/** The token on all chains: per-chain states, messages under way, and runs of operations, deliveries and rejections. */
module FungibleNetwork {
  import opened Wrappers
  import opened Words
  import opened Totals
  import opened Sequences
  import opened FungibleState
  import opened FungibleSpec

  /** A message under way. */
  datatype Envelope = Envelope(
    from: ChainId, to: ChainId, message: Message, signer: Option<Owner>, tracked: bool, bouncing: bool)

  datatype Network = Network(states: map<ChainId, State>, transit: seq<Envelope>)
  {
    /** A chain that the application has not reached yet has an empty state. */
    function StateOf(chain: ChainId): State {
      if chain in states then states[chain] else EMPTY
    }

    function BalanceOf(account: Account): uint128 {
      StateOf(account.chainId).BalanceOrDefault(account.owner)
    }
  }

  /** Messages may arrive in any order; the index says which one is delivered or rejected. */
  datatype Step =
    | Operate(chain: ChainId, signer: Option<Owner>, operation: Operation)
    | Deliver(i: nat)
    | Reject(i: nat)

  // ---------------------------------------------------------------- steps

  function Stamp(from: ChainId, signer: Option<Owner>, out: Outgoing): Envelope {
    Envelope(from, out.to, out.message, signer, out.tracked, false)
  }

  function Posted(from: ChainId, signer: Option<Owner>, sent: seq<Outgoing>): (r: seq<Envelope>)
    ensures |r| == |sent| && forall i :: 0 <= i < |sent| ==> r[i] == Stamp(from, signer, sent[i])
  {
    seq(|sent|, i requires 0 <= i < |sent| => Stamp(from, signer, sent[i]))
  }

  /** A call that panics leaves no trace; a message whose execution panics stays under way until it is rejected. */
  function Next(net: Network, step: Step): Network {
    match step
    case Operate(chain, signer, operation) =>
      var ctx := Context(chain, signer, false, "");
      Finish(net, chain, signer, ExecuteOperation(ctx, net.StateOf(chain), operation), net.transit)
    case Deliver(i) =>
      if i >= |net.transit| then net
      else
        var e := net.transit[i];
        Finish(net, e.to, e.signer, Execution(net, e), Without(net.transit, i))
    case Reject(i) =>
      if i >= |net.transit| then net else net.(transit := Without(net.transit, i) + Receipt(net.transit[i]))
  }

  function Execution(net: Network, e: Envelope): Result<Effects, Panic> {
    ExecuteMessage(Context(e.to, e.signer, e.bouncing, ""), net.StateOf(e.to), e.message)
  }

  function Finish(
      net: Network, chain: ChainId, signer: Option<Owner>, r: Result<Effects, Panic>, rest: seq<Envelope>): Network {
    match r
    case Success(e) => Network(net.states[chain := e.state], rest + Posted(chain, signer, e.sent))
    case Failure(_) => net
  }

  /** A tracked message that is rejected comes back to its sender; any other is gone. */
  function Receipt(e: Envelope): seq<Envelope> {
    if e.tracked && !e.bouncing then [e.(from := e.to, to := e.from, bouncing := true)] else []
  }

  function Run(net: Network, steps: seq<Step>): Network
    decreases steps
  {
    if steps == [] then net else Run(Next(net, steps[0]), steps[1..])
  }

  /** The application starts on one chain. */
  function Genesis(creator: ChainId, s: State): Network {
    Network(map[creator := s], [])
  }

  // ---------------------------------------------------------------- worth

  function Value(message: Message): nat {
    if message.Credit? then message.amount else 0
  }

  function InTransit(transit: seq<Envelope>): nat {
    if transit == [] then 0 else Value(transit[0].message) + InTransit(transit[1..])
  }

  ghost function AllHoldings(states: map<ChainId, State>): int {
    Total<ChainId>(HoldingsByChain(states))
  }

  ghost function HoldingsByChain(states: map<ChainId, State>): map<ChainId, int> {
    map c | c in states :: states[c].Holdings()
  }

  /** All balances on all chains and all amounts in undelivered Credit messages. */
  ghost function Worth(net: Network): int {
    AllHoldings(net.states) + InTransit(net.transit)
  }

  /** What a step throws away: the amount of a Credit that is rejected a second time. */
  function DiscardedBy(net: Network, step: Step): nat {
    match step
    case Reject(i) => if i < |net.transit| && Receipt(net.transit[i]) == [] then Value(net.transit[i].message) else 0
    case _ => 0
  }

  function Discarded(net: Network, steps: seq<Step>): nat
    decreases steps
  {
    if steps == [] then 0 else DiscardedBy(net, steps[0]) + Discarded(Next(net, steps[0]), steps[1..])
  }

  // ---------------------------------------------------------------- invariant

  /** Every credit is tracked; every withdrawal is signed by the owner it withdraws from, and does not come back. */
  predicate WellSent(e: Envelope) {
    match e.message
    case Credit(_, _, _) => e.tracked
    case Withdraw(owner, _, _) => !e.tracked && !e.bouncing && e.signer == Some(owner)
  }

  ghost predicate Inv(net: Network) {
    && (forall c :: c in net.states ==> net.states[c].NoZeros())
    && (forall e :: e in net.transit ==> WellSent(e))
  }

  predicate ProperlySent(signer: Option<Owner>, sent: seq<Outgoing>) {
    forall i :: 0 <= i < |sent| ==> WellSent(Stamp(0, signer, sent[i]))
  }

  // ---------------------------------------------------------------- one chain

  lemma FinishTransferFacts(ctx: Context, s: State, amount: uint128, target: Account, source: Owner)
    ensures var e := FinishTransfer(ctx, s, amount, target, source);
      && e.state.allowances == s.allowances
      && (s.NoZeros() ==> e.state.NoZeros())
      && ProperlySent(ctx.signer, e.sent)
      && (forall o: Owner :: s.BalanceOrDefault(o) <= e.state.BalanceOrDefault(o))
      && e.state.Holdings() + SentValue(e.sent) <= s.Holdings() + amount
      && (s.Holdings() + amount <= MAX_UINT128 ==> e.state.Holdings() + SentValue(e.sent) == s.Holdings() + amount)
  {
    if target.chainId == ctx.chainId {
      CreditFacts(s, target.owner, amount);
      BalanceWithinHoldings(s, target.owner);
    } else {
      assert FinishTransfer(ctx, s, amount, target, source).sent[1..] == [];
    }
  }

  lemma BalanceWithinHoldings(s: State, o: Owner)
    ensures 0 <= s.BalanceOrDefault(o) <= s.Holdings()
  {
    TotalNonNegative<Owner>(s.accounts);
    if o in s.accounts {
      TotalAtLeast<Owner>(s.accounts, o);
    }
  }

  function SentValue(sent: seq<Outgoing>): nat {
    if sent == [] then 0 else Value(sent[0].message) + SentValue(sent[1..])
  }

  /** What one call does to the state of its chain and to the messages it sends, given the value it was handed. */
  ghost predicate Sound(signer: Option<Owner>, s: State, handed: nat, r: Result<Effects, Panic>) {
    r.Success? ==>
      && (s.NoZeros() ==> r.value.state.NoZeros())
      && ProperlySent(signer, r.value.sent)
      && r.value.state.Holdings() + SentValue(r.value.sent) <= s.Holdings() + handed
      && (s.Holdings() + handed <= MAX_UINT128 ==>
        r.value.state.Holdings() + SentValue(r.value.sent) == s.Holdings() + handed)
  }

  lemma DebitAndFinishSound(ctx: Context, s: State, owner: Owner, amount: uint128, target: Account)
    ensures Sound(ctx.signer, s, 0, DebitAndFinish(ctx, s, owner, amount, target))
  {
    DebitFacts(s, owner, amount);
    var debited := s.Debit(owner, amount);
    if debited.Success? {
      FinishTransferFacts(ctx, debited.value, amount, target, owner);
    }
  }

  lemma OperationSound(ctx: Context, s: State, op: Operation)
    ensures Sound(ctx.signer, s, 0, ExecuteOperation(ctx, s, op))
  {
    match op
    case Approve(owner, spender, allowance) =>
      ApproveFacts(s, owner, spender, allowance);
    case Transfer(owner, amount, target) =>
      DebitAndFinishSound(ctx, s, owner, amount, target);
    case TransferFrom(owner, spender, amount, target) =>
      DebitForTransferFromFacts(s, owner, spender, amount);
      var debited := s.DebitForTransferFrom(owner, spender, amount);
      if debited.Success? {
        FinishTransferFacts(ctx, debited.value, amount, target, owner);
      }
    case Claim(source, amount, target) =>
      if source.chainId == ctx.chainId {
        DebitAndFinishSound(ctx, s, source.owner, amount, target);
      } else if Permitted(ctx, source.owner) {
        assert ExecuteOperation(ctx, s, op).value.sent[1..] == [];
      }
    case _ =>
  }

  lemma MessageSound(ctx: Context, s: State, message: Message)
    ensures Sound(ctx.signer, s, Value(message), ExecuteMessage(ctx, s, message))
  {
    match message
    case Credit(target, amount, source) =>
      var receiver := if ctx.bouncing then source else target;
      CreditFacts(s, receiver, amount);
      BalanceWithinHoldings(s, receiver);
    case Withdraw(owner, amount, target) =>
      DebitAndFinishSound(ctx, s, owner, amount, target);
  }

  // ---------------------------------------------------------------- sums over the network

  lemma HoldingsUpdate(states: map<ChainId, State>, c: ChainId, s: State)
    ensures AllHoldings(states[c := s])
      == AllHoldings(states) - (if c in states then states[c].Holdings() else 0) + s.Holdings()
  {
    assert HoldingsByChain(states[c := s]) == HoldingsByChain(states)[c := s.Holdings()];
    TotalUpdate<ChainId>(HoldingsByChain(states), c, s.Holdings());
  }

  lemma EmptyHoldsNothing()
    ensures EMPTY.Holdings() == 0
  {
  }

  lemma HoldingsAtLeast(net: Network, c: ChainId)
    ensures 0 <= net.StateOf(c).Holdings() <= AllHoldings(net.states)
  {
    var m := HoldingsByChain(net.states);
    forall d | d in m ensures 0 <= m[d] {
      TotalNonNegative<Owner>(net.states[d].accounts);
    }
    TotalNonNegative<ChainId>(m);
    if c in m {
      TotalAtLeast<ChainId>(m, c);
    }
  }

  lemma {:induction false} InTransitAppend(a: seq<Envelope>, b: seq<Envelope>)
    ensures InTransit(a + b) == InTransit(a) + InTransit(b)
  {
    if a == [] {
      assert a + b == b;
    } else {
      assert (a + b)[1..] == a[1..] + b;
      InTransitAppend(a[1..], b);
    }
  }

  lemma InTransitWithout(transit: seq<Envelope>, i: nat)
    requires i < |transit|
    ensures InTransit(transit) == InTransit(Without(transit, i)) + Value(transit[i].message)
  {
    assert transit == transit[..i] + transit[i..];
    InTransitAppend(transit[..i], transit[i..]);
    assert transit[i..][1..] == transit[i + 1..];
    InTransitAppend(transit[..i], transit[i + 1..]);
  }

  lemma {:induction false} InTransitPosted(from: ChainId, signer: Option<Owner>, sent: seq<Outgoing>)
    ensures InTransit(Posted(from, signer, sent)) == SentValue(sent)
  {
    if sent != [] {
      assert Posted(from, signer, sent)[1..] == Posted(from, signer, sent[1..]);
      InTransitPosted(from, signer, sent[1..]);
    }
  }

  // ---------------------------------------------------------------- steps keep it

  /** The end of a successful call, for a message list from which `handed` was taken. */
  lemma FinishKeeps(
      net: Network, c: ChainId, signer: Option<Owner>, r: Result<Effects, Panic>, rest: seq<Envelope>, handed: nat)
    requires Inv(net) && (forall e :: e in rest ==> e in net.transit)
    requires InTransit(rest) + handed == InTransit(net.transit)
    requires Sound(signer, net.StateOf(c), handed, r)
    ensures var net' := Finish(net, c, signer, r, rest);
      Inv(net') && Worth(net') <= Worth(net) && (Worth(net) <= MAX_UINT128 ==> Worth(net') == Worth(net))
  {
    if r.Success? {
      var e := r.value;
      HoldingsUpdate(net.states, c, e.state);
      EmptyHoldsNothing();
      HoldingsAtLeast(net, c);
      InTransitAppend(rest, Posted(c, signer, e.sent));
      InTransitPosted(c, signer, e.sent);
      var posted := Posted(c, signer, e.sent);
      forall x | x in posted ensures WellSent(x) {
        var i :| 0 <= i < |posted| && posted[i] == x;
        assert WellSent(Stamp(0, signer, e.sent[i]));
      }
    }
  }

  /**
   * A step never adds worth. As long as the whole worth fits into 128 bits no credit saturates, and a step takes away
   * no more than what it discards.
   */
  lemma StepConserves(net: Network, step: Step)
    requires Inv(net)
    ensures var net' := Next(net, step);
      && Inv(net')
      && Worth(net') + DiscardedBy(net, step) <= Worth(net)
      && (Worth(net) <= MAX_UINT128 ==> Worth(net') + DiscardedBy(net, step) == Worth(net))
  {
    match step
    case Operate(chain, signer, op) =>
      var ctx := Context(chain, signer, false, "");
      OperationSound(ctx, net.StateOf(chain), op);
      FinishKeeps(net, chain, signer, ExecuteOperation(ctx, net.StateOf(chain), op), net.transit, 0);
    case Deliver(i) =>
      if i < |net.transit| {
        var e := net.transit[i];
        MessageSound(Context(e.to, e.signer, e.bouncing, ""), net.StateOf(e.to), e.message);
        InTransitWithout(net.transit, i);
        WithoutMembers(net.transit, i);
        FinishKeeps(net, e.to, e.signer, Execution(net, e), Without(net.transit, i), Value(e.message));
      }
    case Reject(i) =>
      if i < |net.transit| {
        InTransitWithout(net.transit, i);
        WithoutMembers(net.transit, i);
        InTransitAppend(Without(net.transit, i), Receipt(net.transit[i]));
        assert WellSent(net.transit[i]);
        if Receipt(net.transit[i]) != [] {
          assert Receipt(net.transit[i])[1..] == [];
        }
      }
  }

  // ---------------------------------------------------------------- over whole runs

  /**
   * Conservation across chains: over every run, all balances and all undelivered credits together are worth what they
   * were, except for credits rejected twice, provided the total fits into 128 bits; and otherwise never more.
   */
  lemma {:induction false} Conservation(net: Network, steps: seq<Step>)
    requires Inv(net)
    ensures var net' := Run(net, steps);
      && Inv(net')
      && Worth(net') + Discarded(net, steps) <= Worth(net)
      && (Worth(net) <= MAX_UINT128 ==> Worth(net') + Discarded(net, steps) == Worth(net))
    decreases steps
  {
    if steps != [] {
      StepConserves(net, steps[0]);
      Conservation(Next(net, steps[0]), steps[1..]);
    }
  }

  lemma GenesisFacts(creator: ChainId, accounts: map<Owner, uint128>)
    requires Instantiate(accounts).Success?
    ensures var net := Genesis(creator, Instantiate(accounts).value);
      Inv(net) && Worth(net) == Total<Owner>(accounts)
  {
    var s := Instantiate(accounts).value;
    NonZeroTotal(accounts);
    HoldingsUpdate(map[], creator, s);
    assert map[][creator := s] == Genesis(creator, s).states;
  }

  /**
   * From the creation of a token on, the supply is conserved: it equals the initial amounts whenever they fit into 128
   * bits and no credit is rejected twice. It never exceeds them, and no zero balance or allowance is ever stored.
   */
  lemma SupplyIsConserved(creator: ChainId, accounts: map<Owner, uint128>, steps: seq<Step>)
    requires Instantiate(accounts).Success?
    ensures var net := Genesis(creator, Instantiate(accounts).value);
      var net' := Run(net, steps);
      && Worth(net') <= Total<Owner>(accounts)
      && (Total<Owner>(accounts) <= MAX_UINT128 && Discarded(net, steps) == 0 ==> Worth(net') == Total<Owner>(accounts))
      && forall c :: c in net'.states ==> net'.states[c].NoZeros()
  {
    GenesisFacts(creator, accounts);
    Conservation(Genesis(creator, Instantiate(accounts).value), steps);
  }

  /** Without messages under way the balances alone are the supply. */
  lemma QuietSupply(creator: ChainId, accounts: map<Owner, uint128>, steps: seq<Step>)
    requires Instantiate(accounts).Success? && Total<Owner>(accounts) <= MAX_UINT128
    requires var net := Genesis(creator, Instantiate(accounts).value);
      Discarded(net, steps) == 0 && Run(net, steps).transit == []
    ensures AllHoldings(Run(Genesis(creator, Instantiate(accounts).value), steps).states) == Total<Owner>(accounts)
  {
    SupplyIsConserved(creator, accounts, steps);
  }

  /** In every reachable network with a supply of 128 bits, no delivery of a credit can saturate. */
  lemma NoCreditSaturates(creator: ChainId, accounts: map<Owner, uint128>, steps: seq<Step>, i: nat, owner: Owner)
    requires Instantiate(accounts).Success? && Total<Owner>(accounts) <= MAX_UINT128
    requires i < |Run(Genesis(creator, Instantiate(accounts).value), steps).transit|
    ensures var net := Run(Genesis(creator, Instantiate(accounts).value), steps);
      var e := net.transit[i];
      net.BalanceOf(Account(e.to, owner)) + Value(e.message) <= Total<Owner>(accounts)
  {
    SupplyIsConserved(creator, accounts, steps);
    var net := Run(Genesis(creator, Instantiate(accounts).value), steps);
    var e := net.transit[i];
    HoldingsAtLeast(net, e.to);
    BalanceWithinHoldings(net.StateOf(e.to), owner);
    InTransitWithout(net.transit, i);
  }
}
