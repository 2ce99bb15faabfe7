/** Events of several streams applied in any interleaving: only the order within each stream counts. */
module SocialStreams {
  import opened Wrappers
  import opened Words
  import opened SocialKeys
  import opened SocialSpec

  /** An event together with the chain whose stream it is read from. */
  datatype Entry = Entry(chain: ChainId, event: Event)

  function ApplyAll(received: ReceivedPosts, entries: seq<Entry>): Result<ReceivedPosts, Panic>
    decreases entries
  {
    if entries == [] then Success(received)
    else
      var next :- ApplyEvent(received, entries[0].chain, entries[0].event);
      ApplyAll(next, entries[1..])
  }

  function Tagged(chain: ChainId, events: seq<Event>): (r: seq<Entry>)
    ensures |r| == |events| && forall i :: 0 <= i < |events| ==> r[i] == Entry(chain, events[i])
  {
    seq(|events|, i requires 0 <= i < |events| => Entry(chain, events[i]))
  }

  /** What is read from the stream of one chain, in order. */
  function OfChain(entries: seq<Entry>, chain: ChainId): seq<Entry> {
    if entries == [] then []
    else if entries[0].chain == chain then [entries[0]] + OfChain(entries[1..], chain)
    else OfChain(entries[1..], chain)
  }

  /** The post that an event of the stream of a chain writes. */
  function KeyOf(chain: ChainId, event: Event): Key {
    match event
    case Post(post, index) => Key(post.timestamp, chain, index)
    case Like(key) => key
    case Comment(key, _) => key
  }

  /** A stream announces only what concerns the posts of its own chain. */
  predicate OwnStream(e: Entry) {
    KeyOf(e.chain, e.event).author == e.chain
  }

  predicate OwnStreams(entries: seq<Entry>) {
    forall i :: 0 <= i < |entries| ==> OwnStream(entries[i])
  }

  /** The two maps hold the same posts of one author. */
  ghost predicate Agree(m: ReceivedPosts, m': ReceivedPosts, author: ChainId) {
    forall k: Key :: k.author == author ==> (k in m <==> k in m') && (k in m ==> m[k] == m'[k])
  }

  lemma AgreeEverywhere(m: ReceivedPosts, m': ReceivedPosts)
    requires forall c: ChainId :: Agree(m, m', c)
    ensures m == m'
  {
    forall k: Key ensures (k in m <==> k in m') && (k in m ==> m[k] == m'[k]) {
      assert Agree(m, m', k.author);
    }
  }

  // ---------------------------------------------------------------- locality

  /** An event reads and writes the posts of its own chain only. */
  lemma EventIsLocal(m: ReceivedPosts, m': ReceivedPosts, e: Entry)
    requires OwnStream(e) && Agree(m, m', e.chain)
    ensures var r, r' := ApplyEvent(m, e.chain, e.event), ApplyEvent(m', e.chain, e.event);
      (r.Success? <==> r'.Success?) && (r.Success? ==> Agree(r.value, r'.value, e.chain))
    ensures var r := ApplyEvent(m, e.chain, e.event);
      r.Success? ==> forall c: ChainId :: c != e.chain ==> Agree(m, r.value, c)
  {
  }

  lemma {:induction false} StreamIsLocal(m: ReceivedPosts, m': ReceivedPosts, entries: seq<Entry>, c: ChainId)
    requires OwnStreams(entries) && (forall i :: 0 <= i < |entries| ==> entries[i].chain == c)
    requires Agree(m, m', c)
    ensures var r, r' := ApplyAll(m, entries), ApplyAll(m', entries);
      (r.Success? <==> r'.Success?) && (r.Success? ==> Agree(r.value, r'.value, c))
    ensures ApplyAll(m, entries).Success? ==> forall d: ChainId :: d != c ==> Agree(m, ApplyAll(m, entries).value, d)
    decreases entries
  {
    hide ApplyEvent, Agree;
    SameAgrees(m);
    if entries != [] {
      var e := entries[0];
      EventIsLocal(m, m', e);
      var next, next' := ApplyEvent(m, e.chain, e.event), ApplyEvent(m', e.chain, e.event);
      if next.Success? {
        StreamIsLocal(next.value, next'.value, entries[1..], c);
        if ApplyAll(m, entries).Success? {
          forall d: ChainId | d != c ensures Agree(m, ApplyAll(m, entries).value, d) {
            AgreeTransitive(m, next.value, ApplyAll(m, entries).value, d);
          }
        }
      }
    }
  }

  lemma {:induction false} OfChainFacts(entries: seq<Entry>, c: ChainId)
    ensures forall i :: 0 <= i < |OfChain(entries, c)| ==> OfChain(entries, c)[i].chain == c
    ensures OwnStreams(entries) ==> OwnStreams(OfChain(entries, c))
  {
    if entries != [] {
      OfChainFacts(entries[1..], c);
      if OwnStreams(entries) {
        assert OwnStreams(entries[1..]);
      }
    }
  }

  ghost predicate AllSucceed(m: ReceivedPosts, entries: seq<Entry>) {
    forall c: ChainId :: ApplyAll(m, OfChain(entries, c)).Success?
  }

  /** Applying an interleaving does to the posts of each author what applying that author's stream alone does. */
  lemma {:induction false} StreamsAreIndependent(m: ReceivedPosts, entries: seq<Entry>)
    requires OwnStreams(entries)
    ensures ApplyAll(m, entries).Success? <==> AllSucceed(m, entries)
    ensures AllSucceed(m, entries) ==>
      forall c: ChainId :: Agree(ApplyAll(m, entries).value, ApplyAll(m, OfChain(entries, c)).value, c)
    decreases entries
  {
    if entries == [] {
      EmptyStreams(m);
    } else {
      hide ApplyEvent, Agree;
      var e, rest := entries[0], entries[1..];
      var next := ApplyEvent(m, e.chain, e.event);
      FirstOfItsChain(m, entries);
      if next.Success? {
        StreamsAreIndependent(next.value, rest);
        if ApplyAll(m, entries).Success? {
          forall c: ChainId
            ensures ApplyAll(m, OfChain(entries, c)).Success?
            ensures Agree(ApplyAll(m, entries).value, ApplyAll(m, OfChain(entries, c)).value, c)
          {
            OthersUnaffected(m, entries, c);
            assert ApplyAll(next.value, OfChain(rest, c)).Success?;
            AgreeTransitive(ApplyAll(m, entries).value, ApplyAll(next.value, OfChain(rest, c)).value,
              ApplyAll(m, OfChain(entries, c)).value, c);
          }
        } else {
          var c: ChainId :| ApplyAll(next.value, OfChain(rest, c)).Failure?;
          OthersUnaffected(m, entries, c);
        }
      }
    }
  }

  lemma EmptyStreams(m: ReceivedPosts)
    ensures forall c: ChainId :: ApplyAll(m, OfChain([], c)) == Success(m) && Agree(m, m, c)
  {
  }

  lemma SameAgrees(m: ReceivedPosts)
    ensures forall c: ChainId :: Agree(m, m, c)
  {
  }

  lemma AgreeTransitive(a: ReceivedPosts, b: ReceivedPosts, d: ReceivedPosts, c: ChainId)
    requires Agree(a, b, c) && Agree(b, d, c)
    ensures Agree(a, d, c)
  {
  }

  lemma FirstOfItsChain(m: ReceivedPosts, entries: seq<Entry>)
    requires entries != []
    ensures var e := entries[0];
      ApplyAll(m, OfChain(entries, e.chain)) ==
        match ApplyEvent(m, e.chain, e.event)
        case Success(next) => ApplyAll(next, OfChain(entries[1..], e.chain))
        case Failure(p) => Failure(p)
  {
    hide ApplyEvent;
    assert OfChain(entries, entries[0].chain)[1..] == OfChain(entries[1..], entries[0].chain);
  }

  /** What the first entry changes does not matter to the stream of another chain. */
  lemma OthersUnaffected(m: ReceivedPosts, entries: seq<Entry>, c: ChainId)
    requires entries != [] && OwnStreams(entries)
    requires ApplyEvent(m, entries[0].chain, entries[0].event).Success?
    ensures var next := ApplyEvent(m, entries[0].chain, entries[0].event).value;
      var r, r' := ApplyAll(next, OfChain(entries[1..], c)), ApplyAll(m, OfChain(entries, c));
      (r.Success? <==> r'.Success?) && (r.Success? ==> Agree(r.value, r'.value, c))
  {
    hide ApplyEvent, Agree, ApplyAll;
    var e, rest := entries[0], entries[1..];
    var next := ApplyEvent(m, e.chain, e.event).value;
    SameAgrees(m);
    if e.chain == c {
      FirstOfItsChain(m, entries);
      if ApplyAll(next, OfChain(rest, c)).Success? {
        SameAgrees(ApplyAll(next, OfChain(rest, c)).value);
      }
    } else {
      EventIsLocal(m, m, e);
      OfChainFacts(rest, c);
      AgreeSymmetric(m, next, c);
      StreamIsLocal(next, m, OfChain(rest, c), c);
    }
  }

  lemma AgreeSymmetric(a: ReceivedPosts, b: ReceivedPosts, c: ChainId)
    requires Agree(a, b, c)
    ensures Agree(b, a, c)
  {
  }

  // ---------------------------------------------------------------- confluence

  /**
   * Stream confluence: two interleavings that agree on the order within each stream give the same posts, or both fail,
   * as long as streams announce only what concerns their own chain.
   */
  lemma Confluence(m: ReceivedPosts, entries: seq<Entry>, entries': seq<Entry>)
    requires OwnStreams(entries) && OwnStreams(entries')
    requires forall c: ChainId :: OfChain(entries, c) == OfChain(entries', c)
    ensures ApplyAll(m, entries) == ApplyAll(m, entries')
  {
    StreamsAreIndependent(m, entries);
    StreamsAreIndependent(m, entries');
    var r, r' := ApplyAll(m, entries), ApplyAll(m, entries');
    hide Agree, ApplyAll;
    assert AllSucceed(m, entries) <==> AllSucceed(m, entries');
    if r.Success? {
      forall c: ChainId ensures Agree(r.value, r'.value, c) {
        AgreeSymmetric(r'.value, ApplyAll(m, OfChain(entries', c)).value, c);
        AgreeTransitive(r.value, ApplyAll(m, OfChain(entries, c)).value, r'.value, c);
      }
      AgreeEverywhere(r.value, r'.value);
    } else {
      assert r.error == Panic && r'.error == Panic;
    }
  }

  /** Without that condition the order between streams matters: a like in a foreign stream may come before its post. */
  lemma ForeignLikesBreakConfluence(a: ChainId, b: ChainId)
    requires a != b
    ensures var post := Entry(a, Event.Post(OwnPost(0, "", None), 0));
      var like := Entry(b, Event.Like(Key(0, a, 0)));
      && (forall c: ChainId :: OfChain([post, like], c) == OfChain([like, post], c))
      && ApplyAll(map[], [post, like]).Success?
      && ApplyAll(map[], [like, post]).Failure?
  {
    var key := Key(0, a, 0);
    var post, like := Entry(a, Event.Post(OwnPost(0, "", None), 0)), Entry(b, Event.Like(key));
    var received: ReceivedPosts := map[key := Post.Post(key, "", None, 0, [])];
    assert [post, like] == [post] + [like] && [like, post] == [like] + [post];
    ApplyAllAppended(map[], [post], [like]);
    ApplyAllAppended(map[], [like], [post]);
    ApplyOne(map[], post);
    ApplyOne(map[], like);
    ApplyOne(received, like);
    forall c: ChainId ensures OfChain([post, like], c) == OfChain([like, post], c) {
      assert [post, like][1..] == [like] && [like, post][1..] == [post];
      OfChainOne(post, c);
      OfChainOne(like, c);
    }
  }

  lemma OfChainOne(e: Entry, c: ChainId)
    ensures OfChain([e], c) == if e.chain == c then [e] else []
  {
    assert [e][1..] == [];
  }

  lemma ApplyOne(m: ReceivedPosts, e: Entry)
    ensures ApplyAll(m, [e]) == ApplyEvent(m, e.chain, e.event)
  {
    hide ApplyEvent;
    assert [e][1..] == [];
    if ApplyEvent(m, e.chain, e.event).Success? {
      NothingToApply(ApplyEvent(m, e.chain, e.event).value);
    }
  }

  /**
   * What each event of a stream does to the posts received: a post is new, with no likes and comments; a like adds one,
   * modulo 2^32; a comment is appended, with the chain of the stream. A like or a comment panics exactly for want of
   * its post, and no event touches another post.
   */
  lemma EventAnswer(m: ReceivedPosts, c: ChainId, e: Event, k: Key)
    ensures var r := ApplyEvent(m, c, e);
      && (r.Success? <==> e.Post? || e.key in m)
      && (r.Success? ==>
            var m', key := r.value, if e.Post? then Key(e.post.timestamp, c, e.index) else e.key;
            && (k in m' <==> k == key || k in m)
            && (k != key && k in m ==> m'[k] == m[k])
            && (e.Post? ==> m'[key] == Post.Post(key, e.post.text, e.post.imageUrl, 0, []))
            && (e.Like? ==> m'[key] == m[key].(likes := if m[key].likes == MAX_UINT32 then 0 else m[key].likes + 1))
            && (e.Comment? ==> m'[key] == m[key].(comments := m[key].comments + [Comment.Comment(e.comment, c)])))
  {
  }

  /** Nothing is read but the application's own stream, and of it nothing behind its end. */
  ghost predicate MayRead(logs: Logs, app: ApplicationId, u: StreamUpdate) {
    && u.streamName == "posts" && u.applicationId == User(app)
    && (u.nextIndex <= u.previousIndex || u.nextIndex <= |Log(logs, u.chainId)|)
  }

  lemma {:induction false} IndicesAreThere(m: ReceivedPosts, logs: Logs, c: ChainId, i: nat, end: nat)
    ensures ProcessIndices(m, logs, c, i, end).Success? ==> end <= i || end <= |Log(logs, c)|
    decreases end - i
  {
    hide ApplyEvent;
    if i < end && i < |Log(logs, c)| && ApplyEvent(m, c, Log(logs, c)[i]).Success? {
      IndicesAreThere(ApplyEvent(m, c, Log(logs, c)[i]).value, logs, c, i + 1, end);
    }
  }

  /** A call that is offered anything else panics. */
  lemma {:induction false} OnlyOurStreamsAreRead(
      m: ReceivedPosts, logs: Logs, app: ApplicationId, updates: seq<StreamUpdate>, i: nat)
    requires i < |updates|
    ensures ProcessStreams(m, logs, app, updates).Success? ==> MayRead(logs, app, updates[i])
    decreases updates
  {
    if ProcessStreams(m, logs, app, updates).Success? {
      var u := updates[0];
      IndicesAreThere(m, logs, u.chainId, u.previousIndex, u.nextIndex);
      if i > 0 {
        OnlyOurStreamsAreRead(ProcessIndices(m, logs, u.chainId, u.previousIndex, u.nextIndex).value, logs, app,
                              updates[1..], i - 1);
      }
    }
  }

  // ---------------------------------------------------------------- batching

  lemma {:induction false} ApplyAllAppended(m: ReceivedPosts, a: seq<Entry>, b: seq<Entry>)
    ensures ApplyAll(m, a + b) ==
      match ApplyAll(m, a)
      case Success(r) => ApplyAll(r, b)
      case Failure(e) => Failure(e)
    decreases a
  {
    hide ApplyEvent;
    if a == [] {
      assert a + b == b;
    } else {
      assert (a + b)[1..] == a[1..] + b;
      var next := ApplyEvent(m, a[0].chain, a[0].event);
      if next.Success? {
        ApplyAllAppended(next.value, a[1..], b);
      }
    }
  }

  /** The entries that a list of updates covers, in order. */
  function EntriesOf(logs: Logs, updates: seq<StreamUpdate>): seq<Entry>
    requires forall i :: 0 <= i < |updates| ==> Readable(logs, updates[i])
  {
    if updates == [] then []
    else
      assert Readable(logs, updates[0]);
      NewEntries(logs, updates[0]) + EntriesOf(logs, updates[1..])
  }

  function NewEntries(logs: Logs, u: StreamUpdate): seq<Entry>
    requires Readable(logs, u)
  {
    Tagged(u.chainId, Log(logs, u.chainId)[u.previousIndex..u.nextIndex])
  }

  predicate Readable(logs: Logs, u: StreamUpdate) {
    u.previousIndex <= u.nextIndex <= |Log(logs, u.chainId)|
  }

  lemma {:induction false} IndicesAreEntries(m: ReceivedPosts, logs: Logs, c: ChainId, i: nat, end: nat)
    requires i <= end <= |Log(logs, c)|
    ensures ProcessIndices(m, logs, c, i, end) == ApplyAll(m, Tagged(c, Log(logs, c)[i..end]))
    decreases end - i
  {
    hide ApplyEvent;
    if i < end {
      var log := Log(logs, c);
      assert Tagged(c, log[i..end])[1..] == Tagged(c, log[i + 1..end]);
      var next := ApplyEvent(m, c, log[i]);
      if next.Success? {
        IndicesAreEntries(next.value, logs, c, i + 1, end);
      }
    }
  }

  /** One call processes the entries of its updates, wherever the updates cut the streams. */
  lemma {:induction false} UpdatesAreEntries(
      m: ReceivedPosts, logs: Logs, app: ApplicationId, updates: seq<StreamUpdate>)
    requires forall i :: 0 <= i < |updates| ==> Readable(logs, updates[i]) && OurStream(app, updates[i])
    ensures ProcessStreams(m, logs, app, updates) == ApplyAll(m, EntriesOf(logs, updates))
    decreases updates
  {
    hide ApplyAll, ProcessIndices, NewEntries, Readable, OurStream;
    if updates == [] {
      NothingToApply(m);
    } else {
      var u, rest := updates[0], updates[1..];
      assert Readable(logs, u) && OurStream(app, u);
      var first := NewEntries(logs, u);
      UpdateIsEntries(m, logs, u);
      ApplyAllAppended(m, first, EntriesOf(logs, rest));
      if ApplyAll(m, first).Success? {
        UpdatesAreEntries(ApplyAll(m, first).value, logs, app, rest);
      }
    }
  }

  lemma UpdateIsEntries(m: ReceivedPosts, logs: Logs, u: StreamUpdate)
    requires Readable(logs, u)
    ensures ProcessIndices(m, logs, u.chainId, u.previousIndex, u.nextIndex) == ApplyAll(m, NewEntries(logs, u))
  {
    IndicesAreEntries(m, logs, u.chainId, u.previousIndex, u.nextIndex);
  }

  lemma NothingToApply(m: ReceivedPosts)
    ensures ApplyAll(m, []) == Success(m)
  {
  }

  /** Successive calls, each with a batch of updates; the first failure ends it. */
  function ProcessBatches(m: ReceivedPosts, logs: Logs, app: ApplicationId, batches: seq<seq<StreamUpdate>>)
    : Result<ReceivedPosts, Panic>
    decreases batches
  {
    if batches == [] then Success(m)
    else
      var next :- ProcessStreams(m, logs, app, batches[0]);
      ProcessBatches(next, logs, app, batches[1..])
  }

  ghost predicate AllReadable(logs: Logs, app: ApplicationId, batches: seq<seq<StreamUpdate>>) {
    forall j, i :: 0 <= j < |batches| && 0 <= i < |batches[j]| ==>
      Readable(logs, batches[j][i]) && OurStream(app, batches[j][i])
  }

  function EntriesOfBatches(logs: Logs, app: ApplicationId, batches: seq<seq<StreamUpdate>>): seq<Entry>
    requires AllReadable(logs, app, batches)
  {
    if batches == [] then [] else EntriesOf(logs, batches[0]) + EntriesOfBatches(logs, app, batches[1..])
  }

  lemma {:induction false} BatchesAreEntries(
      m: ReceivedPosts, logs: Logs, app: ApplicationId, batches: seq<seq<StreamUpdate>>)
    requires AllReadable(logs, app, batches)
    ensures ProcessBatches(m, logs, app, batches) == ApplyAll(m, EntriesOfBatches(logs, app, batches))
    decreases batches
  {
    hide ApplyAll, ProcessStreams, EntriesOf;
    if batches == [] {
      NothingToApply(m);
    } else {
      UpdatesAreEntries(m, logs, app, batches[0]);
      ApplyAllAppended(m, EntriesOf(logs, batches[0]), EntriesOfBatches(logs, app, batches[1..]));
      var next := ProcessStreams(m, logs, app, batches[0]);
      if next.Success? {
        BatchesAreEntries(next.value, logs, app, batches[1..]);
      }
    }
  }

  /**
   * Any two ways of cutting and interleaving the streams that keep each stream's order give the same posts or both
   * fail.
   */
  lemma BatchingIsIrrelevant(
    m: ReceivedPosts, logs: Logs, app: ApplicationId, batches: seq<seq<StreamUpdate>>, batches': seq<seq<StreamUpdate>>)
    requires AllReadable(logs, app, batches) && AllReadable(logs, app, batches')
    requires OwnStreams(EntriesOfBatches(logs, app, batches)) && OwnStreams(EntriesOfBatches(logs, app, batches'))
    requires forall c: ChainId ::
      OfChain(EntriesOfBatches(logs, app, batches), c) == OfChain(EntriesOfBatches(logs, app, batches'), c)
    ensures ProcessBatches(m, logs, app, batches) == ProcessBatches(m, logs, app, batches')
  {
    BatchesAreEntries(m, logs, app, batches);
    BatchesAreEntries(m, logs, app, batches');
    Confluence(m, EntriesOfBatches(logs, app, batches), EntriesOfBatches(logs, app, batches'));
  }
}
