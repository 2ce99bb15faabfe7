/** What chains hold of each other's posts, in every network that a run can reach. */
module SocialTheorems {
  import opened Wrappers
  import opened Words
  import opened SocialKeys
  import opened SocialSpec
  import opened SocialStreams
  import opened SocialNetwork

  // ---------------------------------------------------------------- convergence

  lemma SameReadingSamePosts(
    m: ReceivedPosts, cursors: map<ChainId, uint32>, m': ReceivedPosts, cursors': map<ChainId, uint32>, logs: Logs)
    requires UpToDate(m, cursors, logs) && UpToDate(m', cursors', logs)
    requires forall c: ChainId :: Cursor(cursors, c) == Cursor(cursors', c)
    ensures m == m'
  {
    hide PostsOf, Agree, Cursor;
    forall c: ChainId ensures Agree(m, m', c) {
      assert UpToDateWith(m, cursors, logs, c) && UpToDateWith(m', cursors', logs, c);
      var posts := PostsOf(logs, c, Cursor(cursors, c)).value;
      AgreeSymmetric(m', posts, c);
      AgreeTransitive(m, posts, m', c);
    }
    AgreeEverywhere(m, m');
  }

  /** Chains that have read the same parts of the streams hold the same posts, however their reading was interleaved. */
  lemma ReadersConverge(net: Network, s: ChainId, t: ChainId)
    requires Reachable(net)
    requires forall c: ChainId :: Cursor(net.At(s).cursors, c) == Cursor(net.At(t).cursors, c)
    ensures net.At(s).received == net.At(t).received
  {
    hide Reachable, UpToDate;
    ReachableInv(net);
    var a, b := net.At(s), net.At(t);
    SameReadingSamePosts(a.received, a.cursors, b.received, b.cursors, net.logs);
  }

  /** Every like and every comment in the stream of a chain is about a post of that chain. */
  lemma StreamsAnnounceOwnPosts(net: Network, c: ChainId, i: nat)
    requires Reachable(net) && i < |Log(net.logs, c)|
    ensures var e := Log(net.logs, c)[i]; !e.Post? ==> e.key.author == c
  {
    hide Reachable;
    ReachableInv(net);
    assert OwnStreams(Tagged(c, Log(net.logs, c)));
    assert OwnStream(Tagged(c, Log(net.logs, c))[i]);
  }

  // ---------------------------------------------------------------- keys

  /** Different announcements of posts have different keys. */
  ghost predicate DistinctKeys(c: ChainId, log: seq<Event>) {
    forall i, j :: 0 <= i < j < |log| && log[i].Post? && log[j].Post? ==> KeyOf(c, log[i]) != KeyOf(c, log[j])
  }

  lemma {:induction false} PostCountGrows(log: seq<Event>, i: nat, j: nat)
    requires i < j <= |log| && log[i].Post?
    ensures PostCount(log[..i]) < PostCount(log[..j])
    decreases j
  {
    assert log[..j][..j - 1] == log[..j - 1];
    if i < j - 1 {
      PostCountGrows(log, i, j - 1);
    }
  }

  lemma {:induction false} PostCountMonotone(log: seq<Event>, i: nat)
    requires i <= |log|
    ensures PostCount(log[..i]) <= PostCount(log)
    decreases |log| - i
  {
    if i == |log| {
      assert log[..i] == log;
    } else {
      assert log[..i + 1][..i] == log[..i];
      PostCountMonotone(log, i + 1);
    }
  }

  /** An author with at most 2^32 posts never uses a key twice. */
  lemma KeysAreNeverReused(net: Network, c: ChainId)
    requires Reachable(net) && PostCount(Log(net.logs, c)) <= MAX_UINT32 + 1
    ensures DistinctKeys(c, Log(net.logs, c))
  {
    hide Reachable;
    ReachableInv(net);
    assert Indexed(net.At(c).ownPosts, Log(net.logs, c));
    NumberedKeysAreDistinct(c, Log(net.logs, c));
  }

  lemma NumberedKeysAreDistinct(c: ChainId, log: seq<Event>)
    requires Numbered(log) && PostCount(log) <= MAX_UINT32 + 1
    ensures DistinctKeys(c, log)
  {
    hide PostCount;
    forall i, j | 0 <= i < j < |log| && log[i].Post? && log[j].Post?
      ensures KeyOf(c, log[i]) != KeyOf(c, log[j])
    {
      PostCountGrows(log, i, j);
      PostCountGrows(log, j, |log|);
      assert log[..|log|] == log;
    }
  }

  // ---------------------------------------------------------------- likes and comments

  function Likes(events: seq<Event>, k: Key): nat {
    if events == [] then 0
    else Likes(events[..|events| - 1], k) + if events[|events| - 1] == Event.Like(k) then 1 else 0
  }

  /** The comments on a post in the order of the stream, each with the chain of the stream. */
  function Comments(events: seq<Event>, k: Key, c: ChainId): seq<Comment> {
    if events == [] then []
    else
      var last := events[|events| - 1];
      Comments(events[..|events| - 1], k, c) + if last.Comment? && last.key == k then [Comment.Comment(last.comment, c)]
          else []
  }

  predicate Announces(c: ChainId, event: Event, k: Key) {
    event.Post? && KeyOf(c, event) == k
  }

  predicate Announced(c: ChainId, events: seq<Event>, k: Key) {
    exists i :: 0 <= i < |events| && Announces(c, events[i], k)
  }

  /** What a map says about a post: all that the events say about it. */
  ghost predicate Tells(posts: ReceivedPosts, c: ChainId, events: seq<Event>, k: Key) {
    && (k in posts <==> Announced(c, events, k))
    && (k in posts ==>
      && posts[k].key == k
      && posts[k].likes == Likes(events, k) % (MAX_UINT32 + 1)
      && posts[k].comments == Comments(events, k, c)
      && exists i :: 0 <= i < |events| && Announces(c, events[i], k)
           && posts[k].text == events[i].post.text && posts[k].imageUrl == events[i].post.imageUrl)
    && (k !in posts ==> Likes(events, k) == 0 && Comments(events, k, c) == [])
  }

  lemma NextEventTells(posts: ReceivedPosts, c: ChainId, events: seq<Event>, e: Event, k: Key)
    requires Tells(posts, c, events, k) && ApplyEvent(posts, c, e).Success?
    requires Announces(c, e, k) ==> !Announced(c, events, k)
    ensures Tells(ApplyEvent(posts, c, e).value, c, events + [e], k)
  {
    var events' := events + [e];
    var posts' := ApplyEvent(posts, c, e).value;
    assert events'[..|events|] == events;
    AnnouncedAppended(c, events, e, k);
    hide Announced;
    if Announces(c, e, k) {
      assert events'[|events|] == e;
    } else if k in posts {
      LikeCounts(events, k);
      var i :| 0 <= i < |events| && Announces(c, events[i], k)
           && posts[k].text == events[i].post.text && posts[k].imageUrl == events[i].post.imageUrl;
      assert events'[i] == events[i];
    }
  }

  lemma LikeCounts(events: seq<Event>, k: Key)
    ensures OneMore(Likes(events, k) % (MAX_UINT32 + 1)) == (Likes(events, k) + 1) % (MAX_UINT32 + 1)
  {
    hide Likes;
  }

  lemma AnnouncedAppended(c: ChainId, events: seq<Event>, e: Event, k: Key)
    ensures Announced(c, events + [e], k) <==> Announced(c, events, k) || Announces(c, e, k)
  {
    hide Announces;
    var events' := events + [e];
    if Announced(c, events, k) {
      var i :| 0 <= i < |events| && Announces(c, events[i], k);
      assert events'[i] == events[i];
    }
    if Announces(c, e, k) {
      assert events'[|events|] == e;
    }
  }

  lemma {:induction false} PrefixTells(logs: Logs, c: ChainId, n: nat, k: Key)
    requires n <= |Log(logs, c)| && DistinctKeys(c, Log(logs, c)) && PostsOf(logs, c, n).Success?
    ensures Tells(PostsOf(logs, c, n).value, c, Log(logs, c)[..n], k)
  {
    var log := Log(logs, c);
    if n == 0 {
      assert Tagged(c, log[..0]) == [];
      assert log[..0] == [];
    } else {
      hide Tells, ApplyEvent;
      PrefixReads(logs, c, n);
      PrefixTells(logs, c, n - 1, k);
      AnnouncedOnce(c, log, n - 1, k);
      NextEventTells(PostsOf(logs, c, n - 1).value, c, log[..n - 1], log[n - 1], k);
      assert log[..n] == log[..n - 1] + [log[n - 1]];
    }
  }

  lemma AnnouncedOnce(c: ChainId, log: seq<Event>, n: nat, k: Key)
    requires n < |log| && DistinctKeys(c, log)
    ensures !(Announces(c, log[n], k) && Announced(c, log[..n], k))
  {
  }

  /**
   * Of an author with at most 2^32 posts, a chain holds exactly the posts announced in the part of the author's stream
   * that it has read, each with the number of likes (a 32-bit word) and the comments found in that part.
   */
  lemma ReceivedPostsTellTheStream(net: Network, s: ChainId, k: Key)
    requires Reachable(net) && PostCount(Log(net.logs, k.author)) <= MAX_UINT32 + 1
    ensures var n := Cursor(net.At(s).cursors, k.author);
      && n <= |Log(net.logs, k.author)|
      && Tells(net.At(s).received, k.author, Log(net.logs, k.author)[..n], k)
  {
    hide Reachable, Tells, PostCount, Inv, DistinctKeys;
    KeysAreNeverReused(net, k.author);
    ReaderIsUpToDate(net, s, k.author);
    var n := Cursor(net.At(s).cursors, k.author);
    PrefixTells(net.logs, k.author, n, k);
    SameTells(net.At(s).received, PostsOf(net.logs, k.author, n).value, k.author, Log(net.logs, k.author)[..n], k);
  }

  lemma ReaderIsUpToDate(net: Network, s: ChainId, c: ChainId)
    requires Reachable(net)
    ensures UpToDateWith(net.At(s).received, net.At(s).cursors, net.logs, c)
  {
    hide Reachable, UpToDateWith;
    ReachableInv(net);
    assert UpToDate(net.At(s).received, net.At(s).cursors, net.logs);
  }

  lemma SameTells(m: ReceivedPosts, m': ReceivedPosts, c: ChainId, events: seq<Event>, k: Key)
    requires k.author == c && Agree(m, m', c) && Tells(m', c, events, k)
    ensures Tells(m, c, events, k)
  {
    hide Likes, Comments, Announced, Announces;
    assert (k in m <==> k in m') && (k in m ==> m[k] == m'[k]);
  }

  /** The word is the number of likes read exactly as long as there are fewer than 2^32 of them. */
  lemma LikesAreCounted(net: Network, s: ChainId, k: Key)
    requires Reachable(net) && PostCount(Log(net.logs, k.author)) <= MAX_UINT32 + 1
    requires k in net.At(s).received
    ensures var n := Cursor(net.At(s).cursors, k.author);
      && n <= |Log(net.logs, k.author)|
      && var likes := Likes(Log(net.logs, k.author)[..n], k);
      (net.At(s).received[k].likes == likes <==> likes <= MAX_UINT32)
  {
    hide Reachable, PostCount;
    ReceivedPostsTellTheStream(net, s, k);
  }

  // ---------------------------------------------------------------- which streams can be read

  /** A like or a comment on a post that the stream has not announced before. */
  predicate Unannounced(c: ChainId, log: seq<Event>, i: nat)
    requires i < |log|
  {
    !log[i].Post? && !Announced(c, log[..i], log[i].key)
  }

  /** What was announced is there, and nothing else. */
  ghost predicate HoldsAnnounced(posts: ReceivedPosts, c: ChainId, events: seq<Event>) {
    forall k: Key :: k in posts <==> Announced(c, events, k)
  }

  lemma NextEventHolds(posts: ReceivedPosts, c: ChainId, events: seq<Event>, e: Event)
    requires HoldsAnnounced(posts, c, events)
    ensures var r := ApplyEvent(posts, c, e);
      && (r.Success? <==> e.Post? || Announced(c, events, e.key))
      && (r.Success? ==> HoldsAnnounced(r.value, c, events + [e]))
  {
    hide Announced;
    forall k: Key ensures Announced(c, events + [e], k) <==> Announced(c, events, k) || Announces(c, e, k) {
      AnnouncedAppended(c, events, e, k);
    }
  }

  /** A stream can be read up to an event exactly if no like or comment before it is on a post not announced before. */
  lemma {:induction false} ReadableIffAnnounced(logs: Logs, c: ChainId, n: nat)
    requires n <= |Log(logs, c)|
    ensures PostsOf(logs, c, n).Success? <==> forall i :: 0 <= i < n ==> !Unannounced(c, Log(logs, c), i)
    ensures PostsOf(logs, c, n).Success? ==> HoldsAnnounced(PostsOf(logs, c, n).value, c, Log(logs, c)[..n])
  {
    var log := Log(logs, c);
    if n == 0 {
      assert Tagged(c, log[..0]) == [] && log[..0] == [];
    } else {
      hide ApplyEvent, HoldsAnnounced, Announced;
      ReadableIffAnnounced(logs, c, n - 1);
      PrefixReads(logs, c, n);
      if PostsOf(logs, c, n - 1).Success? {
        NextEventHolds(PostsOf(logs, c, n - 1).value, c, log[..n - 1], log[n - 1]);
        assert PostsOf(logs, c, n).Success? <==> !Unannounced(c, log, n - 1);
        assert log[..n] == log[..n - 1] + [log[n - 1]];
      }
    }
  }

  lemma PrefixReads(logs: Logs, c: ChainId, n: nat)
    requires 0 < n <= |Log(logs, c)|
    ensures PostsOf(logs, c, n) ==
      match PostsOf(logs, c, n - 1)
      case Success(posts) => ApplyEvent(posts, c, Log(logs, c)[n - 1])
      case Failure(e) => Failure(e)
  {
    hide ApplyAll, ApplyEvent;
    var log := Log(logs, c);
    assert Tagged(c, log[..n]) == Tagged(c, log[..n - 1]) + [Entry(c, log[n - 1])];
    ApplyAllAppended(map[], Tagged(c, log[..n - 1]), [Entry(c, log[n - 1])]);
    if PostsOf(logs, c, n - 1).Success? {
      ApplyOne(PostsOf(logs, c, n - 1).value, Entry(c, log[n - 1]));
    }
  }

  /** Hence no chain ever reads past such a like or comment: whoever comes to it panics there for good. */
  lemma NobodyReadsPastUnannounced(net: Network, s: ChainId, c: ChainId, i: nat)
    requires Reachable(net) && i < |Log(net.logs, c)| && Unannounced(c, Log(net.logs, c), i)
    ensures Cursor(net.At(s).cursors, c) <= i
  {
    hide Reachable, Unannounced, PostsOf, Agree;
    ReaderIsUpToDate(net, s, c);
    ReadableIffAnnounced(net.logs, c, Cursor(net.At(s).cursors, c));
  }

  /**
   * Such streams are reachable: a like is passed on and announced whether or not its post was, so one of a post that
   * was never made ends up in the stream of the author it names.
   */
  lemma UnannouncedLikesAreReachable(application: ApplicationId, a: ChainId, b: ChainId)
    requires a != b
    ensures var net := Run(Genesis(application), [Operate(b, 0, Operation.Like(Key(0, a, 0))), Deliver(0)]);
      && Reachable(net)
      && Log(net.logs, a) == [Event.Like(Key(0, a, 0))]
      && Unannounced(a, Log(net.logs, a), 0)
  {
    var key := Key(0, a, 0);
    var like, deliver := Operate(b, 0, Operation.Like(key)), Deliver(0);
    var start := Genesis(application);
    var sent := Next(start, like);
    assert sent.messages == [(a, Message.Like(key))];
    assert Log(sent.logs, a) == [];
    var net := Next(sent, deliver);
    assert Log(net.logs, a) == [Event.Like(key)];
    TwoSteps(start, like, deliver);
    assert Log(net.logs, a)[..0] == [];
  }

  lemma TwoSteps(net: Network, x: Step, y: Step)
    ensures Run(net, [x, y]) == Next(Next(net, x), y)
  {
    hide Next;
    assert [x, y][1..] == [y] && [y][1..] == [];
    var net' := Next(net, x);
    assert Run(Next(net', y), []) == Next(net', y);
    assert Run(net', [y]) == Run(Next(net', y), []);
  }
}
