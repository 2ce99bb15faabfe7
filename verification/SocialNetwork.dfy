/** The social application on all chains: what every run keeps, and what a chain holds of the streams it has read. */
module SocialNetwork {
  import opened Wrappers
  import opened Words
  import opened Sequences
  import opened SocialKeys
  import opened SocialSpec
  import opened SocialStreams

  /**
   * The state of one chain, and what the runtime keeps for it: its subscriptions and how far it has read each stream.
   */
  datatype Chain = Chain(
    ownPosts: OwnPosts, received: ReceivedPosts, subscriptions: set<ChainId>, cursors: map<ChainId, uint32>)

  datatype Network = Network(
    application: ApplicationId, chains: map<ChainId, Chain>, logs: Logs, messages: seq<(ChainId, Message)>)
  {
    function At(c: ChainId): Chain {
      if c in chains then chains[c] else Chain(map[], map[], {}, map[])
    }
  }

  /**
   * Messages arrive in any order or get lost; a chain processes any batch of updates that continues where it stopped.
   */
  datatype Step =
    | Operate(chain: ChainId, time: uint64, operation: Operation)
    | Deliver(i: nat)
    | Drop(i: nat)
    | Process(chain: ChainId, updates: seq<StreamUpdate>)

  function Genesis(application: ApplicationId): Network {
    Network(application, map[], map[], [])
  }

  function Cursor(cursors: map<ChainId, uint32>, c: ChainId): uint32 {
    if c in cursors then cursors[c] else 0
  }

  /** The runtime offers each subscribed stream from its first event on, without gaps, and only what is there. */
  predicate InOrder(cursors: map<ChainId, uint32>, subscriptions: set<ChainId>, logs: Logs, updates: seq<StreamUpdate>)
    decreases updates
  {
    updates == [] ||
    var u := updates[0];
    && u.chainId in subscriptions
    && u.previousIndex == Cursor(cursors, u.chainId)
    && Readable(logs, u)
    && InOrder(cursors[u.chainId := u.nextIndex], subscriptions, logs, updates[1..])
  }

  function Advance(cursors: map<ChainId, uint32>, updates: seq<StreamUpdate>): map<ChainId, uint32>
    decreases updates
  {
    if updates == [] then cursors else Advance(cursors[updates[0].chainId := updates[0].nextIndex], updates[1..])
  }

  function Emit(logs: Logs, c: ChainId, events: seq<Event>): Logs {
    logs[c := Log(logs, c) + events]
  }

  /** A call that panics is not part of any block and changes nothing. */
  function Next(net: Network, step: Step): Network {
    match step
    case Operate(chain, time, operation) =>
      var state := net.At(chain);
      var e := ExecuteOperation(chain, time, state.ownPosts, state.subscriptions, operation);
      net.(
        chains := net.chains[chain := state.(ownPosts := e.ownPosts, subscriptions := e.subscriptions)],
        logs := Emit(net.logs, chain, e.emitted),
        messages := net.messages + e.sent)
    case Deliver(i) =>
      if i >= |net.messages| then net
      else
        var (to, message) := net.messages[i];
        net.(logs := Emit(net.logs, to, [ExecuteMessage(message)]), messages := Without(net.messages, i))
    case Drop(i) =>
      if i >= |net.messages| then net else net.(messages := Without(net.messages, i))
    case Process(chain, updates) =>
      var state := net.At(chain);
      var r := ProcessStreams(state.received, net.logs, net.application, updates);
      if InOrder(state.cursors, state.subscriptions, net.logs, updates) && r.Success?
      then net.(chains := net.chains[chain := state.(received := r.value, cursors := Advance(state.cursors, updates))])
      else net
  }

  function Run(net: Network, steps: seq<Step>): Network
    decreases steps
  {
    if steps == [] then net else Run(Next(net, steps[0]), steps[1..])
  }

  // ---------------------------------------------------------------- invariant

  /** Every event of every stream concerns a post of the stream's own chain. */
  ghost predicate OwnLogs(logs: Logs) {
    forall c: ChainId :: OwnStreams(Tagged(c, Log(logs, c)))
  }

  /** Messages go to the author of the post they are about. */
  predicate ToAuthors(messages: seq<(ChainId, Message)>) {
    forall i :: 0 <= i < |messages| ==> messages[i].0 == messages[i].1.key.author
  }

  function PostCount(log: seq<Event>): nat {
    if log == [] then 0 else PostCount(log[..|log| - 1]) + if log[|log| - 1].Post? then 1 else 0
  }

  /** The index of a post, given how many came before it: the cast leaves zero once all indices are taken. */
  function IndexAfter(posts: nat): uint32 {
    if posts <= MAX_UINT32 then posts else 0
  }

  /** The indices that the posts of a stream carry. */
  ghost predicate Numbered(log: seq<Event>) {
    forall i :: 0 <= i < |log| && log[i].Post? ==> log[i].index == IndexAfter(PostCount(log[..i]))
  }

  /** All indices below the number of posts are taken, and no others. */
  ghost predicate Dense(ownPosts: OwnPosts) {
    forall k: uint32 :: k in ownPosts <==> k < |ownPosts|
  }

  ghost predicate Indexed(ownPosts: OwnPosts, log: seq<Event>) {
    && Dense(ownPosts)
    && |ownPosts| == (if PostCount(log) <= MAX_UINT32 then PostCount(log) else MAX_UINT32 + 1)
    && Numbered(log)
  }

  /** What the first `n` events of a stream make of nothing. */
  function PostsOf(logs: Logs, c: ChainId, n: nat): Result<ReceivedPosts, Panic>
    requires n <= |Log(logs, c)|
  {
    ApplyAll(map[], Tagged(c, Log(logs, c)[..n]))
  }

  /** A chain holds, of each author, what the part of the stream that it has read makes of nothing. */
  ghost predicate UpToDateWith(received: ReceivedPosts, cursors: map<ChainId, uint32>, logs: Logs, c: ChainId) {
    && Cursor(cursors, c) <= |Log(logs, c)|
    && PostsOf(logs, c, Cursor(cursors, c)).Success?
    && Agree(received, PostsOf(logs, c, Cursor(cursors, c)).value, c)
  }

  ghost predicate UpToDate(received: ReceivedPosts, cursors: map<ChainId, uint32>, logs: Logs) {
    forall c: ChainId :: UpToDateWith(received, cursors, logs, c)
  }

  ghost predicate Inv(net: Network) {
    && OwnLogs(net.logs)
    && ToAuthors(net.messages)
    && (forall c: ChainId :: Indexed(net.At(c).ownPosts, Log(net.logs, c)))
    && (forall s: ChainId :: UpToDate(net.At(s).received, net.At(s).cursors, net.logs))
  }

  // ---------------------------------------------------------------- streams grow

  lemma EmitGrows(logs: Logs, c: ChainId, events: seq<Event>)
    ensures forall d: ChainId :: Log(logs, d) <= Log(Emit(logs, c, events), d)
    ensures forall d: ChainId :: d != c ==> Log(logs, d) == Log(Emit(logs, c, events), d)
    ensures Log(Emit(logs, c, events), c) == Log(logs, c) + events
  {
  }

  lemma EmitKeepsOwnLogs(logs: Logs, c: ChainId, events: seq<Event>)
    requires OwnLogs(logs)
    requires forall i :: 0 <= i < |events| ==> OwnStream(Entry(c, events[i]))
    ensures OwnLogs(Emit(logs, c, events))
  {
    hide OwnStream;
    var logs' := Emit(logs, c, events);
    forall d: ChainId ensures OwnStreams(Tagged(d, Log(logs', d))) {
      assert OwnStreams(Tagged(d, Log(logs, d)));
      var t, t' := Tagged(d, Log(logs, d)), Tagged(d, Log(logs', d));
      forall i | 0 <= i < |t'| ensures OwnStream(t'[i]) {
        if i < |t| {
          assert t'[i] == t[i];
        } else {
          assert t'[i] == Entry(c, events[i - |t|]);
        }
      }
    }
  }

  lemma EmitKeepsUpToDate(
      received: ReceivedPosts, cursors: map<ChainId, uint32>, logs: Logs, c: ChainId, events: seq<Event>)
    requires UpToDate(received, cursors, logs)
    ensures UpToDate(received, cursors, Emit(logs, c, events))
  {
    hide Emit, ApplyAll, Agree;
    EmitGrows(logs, c, events);
    forall d: ChainId ensures UpToDateWith(received, cursors, Emit(logs, c, events), d) {
      assert UpToDateWith(received, cursors, logs, d);
      var n := Cursor(cursors, d);
      assert Log(Emit(logs, c, events), d)[..n] == Log(logs, d)[..n];
    }
  }

  // ---------------------------------------------------------------- reading

  lemma PrefixOfOwnStream(logs: Logs, c: ChainId, i: nat, end: nat)
    requires OwnLogs(logs) && i <= end <= |Log(logs, c)|
    ensures OwnStreams(Tagged(c, Log(logs, c)[i..end]))
  {
    hide OwnStream;
    assert OwnStreams(Tagged(c, Log(logs, c)));
    var t, t' := Tagged(c, Log(logs, c)), Tagged(c, Log(logs, c)[i..end]);
    forall j | 0 <= j < |t'| ensures OwnStream(t'[j]) {
      assert t'[j] == t[i + j];
    }
  }

  lemma PostsOfContinues(logs: Logs, c: ChainId, i: nat, end: nat)
    requires i <= end <= |Log(logs, c)| && PostsOf(logs, c, i).Success?
    ensures PostsOf(logs, c, end) == ApplyAll(PostsOf(logs, c, i).value, Tagged(c, Log(logs, c)[i..end]))
  {
    hide ApplyAll;
    var log := Log(logs, c);
    assert Tagged(c, log[..end]) == Tagged(c, log[..i]) + Tagged(c, log[i..end]);
    ApplyAllAppended(map[], Tagged(c, log[..i]), Tagged(c, log[i..end]));
  }

  lemma ReadingKeepsUpToDate(m: ReceivedPosts, cursors: map<ChainId, uint32>, logs: Logs, u: StreamUpdate)
    requires OwnLogs(logs) && UpToDate(m, cursors, logs)
    requires u.previousIndex == Cursor(cursors, u.chainId) && Readable(logs, u)
    requires ProcessIndices(m, logs, u.chainId, u.previousIndex, u.nextIndex).Success?
    ensures var m' := ProcessIndices(m, logs, u.chainId, u.previousIndex, u.nextIndex).value;
      UpToDate(m', cursors[u.chainId := u.nextIndex], logs)
  {
    hide ApplyAll, Agree, OwnStreams, ProcessIndices, PostsOf;
    var c, i, end := u.chainId, u.previousIndex, u.nextIndex;
    var m' := ProcessIndices(m, logs, c, i, end).value;
    assert UpToDateWith(m, cursors, logs, c);
    PrefixOfOwnStream(logs, c, i, end);
    PostsOfContinues(logs, c, i, end);
    IndicesAreEntries(m, logs, c, i, end);
    StreamIsLocal(m, PostsOf(logs, c, i).value, Tagged(c, Log(logs, c)[i..end]), c);
    var cursors' := cursors[c := end];
    forall d: ChainId ensures UpToDateWith(m', cursors', logs, d) {
      assert UpToDateWith(m, cursors, logs, d);
      if d != c {
        AgreeSymmetric(m, m', d);
        AgreeTransitive(m', m, PostsOf(logs, d, Cursor(cursors, d)).value, d);
      }
    }
  }

  lemma {:induction false} ProcessingKeepsUpToDate(
    m: ReceivedPosts, cursors: map<ChainId, uint32>, subscriptions: set<ChainId>, logs: Logs,
    application: ApplicationId,
    updates: seq<StreamUpdate>)
    requires OwnLogs(logs) && UpToDate(m, cursors, logs)
    requires InOrder(cursors, subscriptions, logs, updates)
    requires ProcessStreams(m, logs, application, updates).Success?
    ensures UpToDate(ProcessStreams(m, logs, application, updates).value, Advance(cursors, updates), logs)
    decreases updates
  {
    hide UpToDate, OwnLogs, ProcessIndices, Readable, Cursor;
    if updates != [] {
      var u := updates[0];
      ReadingKeepsUpToDate(m, cursors, logs, u);
      var m' := ProcessIndices(m, logs, u.chainId, u.previousIndex, u.nextIndex).value;
      ProcessingKeepsUpToDate(m', cursors[u.chainId := u.nextIndex], subscriptions, logs, application, updates[1..]);
    }
  }

  // ---------------------------------------------------------------- posting

  lemma PostCountAppended(log: seq<Event>, e: Event)
    ensures PostCount(log + [e]) == PostCount(log) + if e.Post? then 1 else 0
  {
    assert (log + [e])[..|log|] == log;
  }

  lemma AppendedNumbered(log: seq<Event>, e: Event)
    requires Numbered(log) && (e.Post? ==> e.index == IndexAfter(PostCount(log)))
    ensures Numbered(log + [e])
  {
    hide PostCount, IndexAfter;
    var log' := log + [e];
    forall i | 0 <= i < |log'| && log'[i].Post? ensures log'[i].index == IndexAfter(PostCount(log'[..i])) {
      assert log'[..i] == log[..i];
    }
  }

  lemma OtherEventsKeepIndexed(ownPosts: OwnPosts, log: seq<Event>, e: Event)
    requires Indexed(ownPosts, log) && !e.Post?
    ensures Indexed(ownPosts, log + [e])
  {
    hide PostCount, Numbered;
    PostCountAppended(log, e);
    AppendedNumbered(log, e);
  }

  lemma NextIndexIs(ownPosts: OwnPosts)
    requires |ownPosts| <= MAX_UINT32 + 1
    ensures NextIndex(ownPosts) == if |ownPosts| <= MAX_UINT32 then |ownPosts| else 0
  {
  }

  lemma PostingKeepsDense(ownPosts: OwnPosts, post: OwnPost)
    requires Dense(ownPosts) && |ownPosts| <= MAX_UINT32 + 1
    ensures var ownPosts' := ownPosts[NextIndex(ownPosts) := post];
      && Dense(ownPosts')
      && |ownPosts'| == if |ownPosts| <= MAX_UINT32 then |ownPosts| + 1 else |ownPosts|
    ensures NextIndex(ownPosts) !in ownPosts <==> |ownPosts| <= MAX_UINT32
  {
    hide NextIndex;
    NextIndexIs(ownPosts);
    SizeAfterInsert(ownPosts, NextIndex(ownPosts), post);
    DenseAfterInsert(ownPosts, NextIndex(ownPosts), post);
  }

  lemma SizeAfterInsert(ownPosts: OwnPosts, index: uint32, post: OwnPost)
    ensures |ownPosts[index := post]| == |ownPosts| + if index in ownPosts then 0 else 1
  {
    if index in ownPosts {
      assert ownPosts[index := post].Keys == ownPosts.Keys;
    } else {
      assert ownPosts[index := post].Keys == ownPosts.Keys + {index};
    }
  }

  lemma DenseAfterInsert(ownPosts: OwnPosts, index: uint32, post: OwnPost)
    requires Dense(ownPosts) && index <= |ownPosts|
    ensures Dense(ownPosts[index := post])
  {
    SizeAfterInsert(ownPosts, index, post);
  }

  /** A new post gets the next index, and a fresh one exactly until all are taken. */
  lemma PostingKeepsIndexed(ownPosts: OwnPosts, log: seq<Event>, post: OwnPost)
    requires Indexed(ownPosts, log)
    ensures var index := NextIndex(ownPosts);
      Indexed(ownPosts[index := post], log + [Event.Post(post, index)])
    ensures NextIndex(ownPosts) == IndexAfter(PostCount(log))
    ensures NextIndex(ownPosts) !in ownPosts <==> PostCount(log) <= MAX_UINT32
  {
    hide PostCount, Dense, Numbered, NextIndex;
    NextIndexIs(ownPosts);
    PostingKeepsDense(ownPosts, post);
    var e := Event.Post(post, NextIndex(ownPosts));
    PostCountAppended(log, e);
    AppendedNumbered(log, e);
  }

  // ---------------------------------------------------------------- every run keeps it

  lemma GenesisInv(application: ApplicationId)
    ensures Inv(Genesis(application))
  {
    var net := Genesis(application);
    forall c: ChainId ensures UpToDate(net.At(c).received, net.At(c).cursors, net.logs) {
      forall d: ChainId ensures UpToDateWith(map[], map[], net.logs, d) {
        assert Tagged(d, Log(net.logs, d)[..0]) == [];
      }
    }
  }

  lemma EmitStepKeeps(net: Network, net': Network, c: ChainId, events: seq<Event>)
    requires Inv(net)
    requires net'.logs == Emit(net.logs, c, events) && ToAuthors(net'.messages)
    requires forall i :: 0 <= i < |events| ==> OwnStream(Entry(c, events[i]))
    requires forall s: ChainId :: net'.At(s).received == net.At(s).received && net'.At(s).cursors == net.At(s).cursors
    requires forall s: ChainId :: s != c ==> net'.At(s).ownPosts == net.At(s).ownPosts
    requires Indexed(net'.At(c).ownPosts, Log(net.logs, c) + events)
    ensures Inv(net')
  {
    hide UpToDate, OwnLogs, Indexed, OwnStream, Emit;
    EmitKeepsOwnLogs(net.logs, c, events);
    EmitGrows(net.logs, c, events);
    forall s: ChainId ensures UpToDate(net'.At(s).received, net'.At(s).cursors, net'.logs) {
      EmitKeepsUpToDate(net.At(s).received, net.At(s).cursors, net.logs, c, events);
    }
    forall s: ChainId ensures Indexed(net'.At(s).ownPosts, Log(net'.logs, s)) {
      assert Indexed(net.At(s).ownPosts, Log(net.logs, s));
    }
  }

  lemma StepKeeps(net: Network, step: Step)
    requires Inv(net)
    ensures Inv(Next(net, step))
  {
    match step
    case Operate(chain, time, operation) => OperateKeeps(net, chain, time, operation);
    case Deliver(i) =>
      if i < |net.messages| { DeliverKeeps(net, i); }
    case Drop(i) =>
    case Process(chain, updates) => ProcessKeeps(net, chain, updates);
  }

  lemma OperateKeeps(net: Network, chain: ChainId, time: uint64, operation: Operation)
    requires Inv(net)
    ensures Inv(Next(net, Operate(chain, time, operation)))
  {
    hide UpToDate, OwnLogs, Indexed, Emit, OwnStream;
    var net' := Next(net, Operate(chain, time, operation));
    var state := net.At(chain);
    assert Indexed(state.ownPosts, Log(net.logs, chain));
    OperationFacts(chain, time, state.ownPosts, state.subscriptions, operation, Log(net.logs, chain));
    var e := ExecuteOperation(chain, time, state.ownPosts, state.subscriptions, operation);
    hide ExecuteOperation;
    assert net'.At(chain).ownPosts == e.ownPosts;
    EmitStepKeeps(net, net', chain, e.emitted);
  }

  lemma OperationFacts(
    chain: ChainId, time: uint64, ownPosts: OwnPosts, subscriptions: set<ChainId>, op: Operation, log: seq<Event>)
    requires Indexed(ownPosts, log)
    ensures var e := ExecuteOperation(chain, time, ownPosts, subscriptions, op);
      && Indexed(e.ownPosts, log + e.emitted)
      && ToAuthors(e.sent)
      && (forall i :: 0 <= i < |e.emitted| ==> OwnStream(Entry(chain, e.emitted[i])))
  {
    hide Indexed, NextIndex;
    match op
    case Post(text, imageUrl) =>
      PostingKeepsIndexed(ownPosts, log, OwnPost(time, text, imageUrl));
    case Like(key) =>
      OtherEventsKeepIndexed(ownPosts, log, Event.Like(key));
      assert log + [] == log;
    case Comment(key, comment) =>
      OtherEventsKeepIndexed(ownPosts, log, Event.Comment(key, comment));
      assert log + [] == log;
    case _ =>
      assert log + [] == log;
  }

  lemma DeliverKeeps(net: Network, i: nat)
    requires Inv(net) && i < |net.messages|
    ensures Inv(Next(net, Deliver(i)))
  {
    hide UpToDate, OwnLogs, Indexed, Emit;
    var to, e := net.messages[i].0, ExecuteMessage(net.messages[i].1);
    assert Indexed(net.At(to).ownPosts, Log(net.logs, to));
    OtherEventsKeepIndexed(net.At(to).ownPosts, Log(net.logs, to), e);
    EmitStepKeeps(net, Next(net, Deliver(i)), to, [e]);
  }

  lemma ProcessKeeps(net: Network, chain: ChainId, updates: seq<StreamUpdate>)
    requires Inv(net)
    ensures Inv(Next(net, Process(chain, updates)))
  {
    hide UpToDate, OwnLogs, Indexed, ProcessStreams, InOrder, Advance;
    var state := net.At(chain);
    assert UpToDate(state.received, state.cursors, net.logs);
    var r := ProcessStreams(state.received, net.logs, net.application, updates);
    if InOrder(state.cursors, state.subscriptions, net.logs, updates) && r.Success? {
      ProcessingKeepsUpToDate(state.received, state.cursors, state.subscriptions, net.logs, net.application, updates);
      var net' := Next(net, Process(chain, updates));
      forall s: ChainId
        ensures UpToDate(net'.At(s).received, net'.At(s).cursors, net'.logs)
        ensures Indexed(net'.At(s).ownPosts, Log(net'.logs, s))
      {
        assert UpToDate(net.At(s).received, net.At(s).cursors, net.logs);
        assert Indexed(net.At(s).ownPosts, Log(net.logs, s));
      }
    }
  }

  lemma {:induction false} RunKeeps(net: Network, steps: seq<Step>)
    requires Inv(net)
    ensures Inv(Run(net, steps))
    decreases steps
  {
    hide Inv, Next;
    if steps != [] {
      StepKeeps(net, steps[0]);
      RunKeeps(Next(net, steps[0]), steps[1..]);
    }
  }

  /** What some run leads to from the creation of the application. */
  ghost predicate Reachable(net: Network) {
    exists application: ApplicationId, steps: seq<Step> :: net == Run(Genesis(application), steps)
  }

  lemma ReachableInv(net: Network)
    requires Reachable(net)
    ensures Inv(net)
  {
    var application: ApplicationId, steps: seq<Step> :| net == Run(Genesis(application), steps);
    GenesisInv(application);
    RunKeeps(Genesis(application), steps);
  }
}
