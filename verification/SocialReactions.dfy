/** What becomes of posts, likes and comments: each operation announces exactly what it says, once. */
module SocialReactions {
  import opened Wrappers
  import opened Words
  import opened Sequences
  import opened SocialKeys
  import opened SocialSpec
  import opened SocialNetwork
  import opened SocialTheorems

  // ---------------------------------------------------------------- vocabulary

  /** The stream of one chain has grown by these events; every other stream is as it was. */
  ghost predicate Appended(net: Network, net': Network, c: ChainId, events: seq<Event>) {
    forall d: ChainId :: Log(net'.logs, d) == if d == c then Log(net.logs, d) + events else Log(net.logs, d)
  }

  ghost predicate SameChains(net: Network, net': Network) {
    forall d: ChainId :: net'.At(d) == net.At(d)
  }

  ghost predicate SameChainsBut(net: Network, net': Network, c: ChainId, chain: Chain) {
    forall d: ChainId :: net'.At(d) == if d == c then chain else net.At(d)
  }

  /** What the application does to a post: a like, or a comment with its text. */
  datatype Reaction = Reaction(key: Key, comment: Option<string>)

  function AsOperation(r: Reaction): Operation {
    match r.comment
    case None => Operation.Like(r.key)
    case Some(text) => Operation.Comment(r.key, text)
  }

  function AsMessage(r: Reaction): Message {
    match r.comment
    case None => Message.Like(r.key)
    case Some(text) => Message.Comment(r.key, text)
  }

  function AsEvent(r: Reaction): Event {
    match r.comment
    case None => Event.Like(r.key)
    case Some(text) => Event.Comment(r.key, text)
  }

  // ---------------------------------------------------------------- single steps

  /** A reaction on the author's own chain is announced at once; on any other chain it is sent to the author. */
  lemma ReactionAnswer(net: Network, chain: ChainId, time: uint64, r: Reaction)
    ensures var net' := Next(net, Operate(chain, time, AsOperation(r)));
      && SameChains(net, net')
      && (if chain == r.key.author
          then Appended(net, net', chain, [AsEvent(r)]) && net'.messages == net.messages
          else Appended(net, net', chain, []) && net'.messages == net.messages + [(r.key.author, AsMessage(r))])
  {
  }

  /** A reaction that arrives is announced by the chain it was sent to. */
  lemma DeliveryAnswer(net: Network, i: nat, r: Reaction)
    requires i < |net.messages| && net.messages[i].1 == AsMessage(r)
    ensures var net' := Next(net, Deliver(i));
      && SameChains(net, net')
      && Appended(net, net', net.messages[i].0, [AsEvent(r)])
      && net'.messages == Without(net.messages, i)
  {
  }

  /**
   * A post is stored and announced once, with its text, image and time, under the number of posts before it, or zero
   * once all numbers are taken.
   */
  lemma PostAnswer(net: Network, chain: ChainId, time: uint64, text: string, imageUrl: Option<string>)
    requires Inv(net)
    ensures var net' := Next(net, Operate(chain, time, Operation.Post(text, imageUrl)));
      var post, index := OwnPost(time, text, imageUrl), IndexAfter(PostCount(Log(net.logs, chain)));
      && Appended(net, net', chain, [Event.Post(post, index)])
      && net'.messages == net.messages
      && SameChainsBut(net, net', chain, net.At(chain).(ownPosts := net.At(chain).ownPosts[index := post]))
  {
    hide PostCount, Dense, Numbered;
    assert Indexed(net.At(chain).ownPosts, Log(net.logs, chain));
    PostingKeepsIndexed(net.At(chain).ownPosts, Log(net.logs, chain), OwnPost(time, text, imageUrl));
  }

  /** Subscribing and unsubscribing change who is read, and nothing else. */
  lemma SubscriptionAnswer(net: Network, chain: ChainId, time: uint64, other: ChainId)
    ensures var net' := Next(net, Operate(chain, time, Subscribe(other)));
      && Appended(net, net', chain, []) && net'.messages == net.messages
      && SameChainsBut(net, net', chain, net.At(chain).(subscriptions := net'.At(chain).subscriptions))
      && forall c: ChainId ::
          c in net'.At(chain).subscriptions <==> c == other || c in net.At(chain).subscriptions
    ensures var net' := Next(net, Operate(chain, time, Unsubscribe(other)));
      && Appended(net, net', chain, []) && net'.messages == net.messages
      && SameChainsBut(net, net', chain, net.At(chain).(subscriptions := net'.At(chain).subscriptions))
      && forall c: ChainId ::
          c in net'.At(chain).subscriptions <==> c != other && c in net.At(chain).subscriptions
  {
  }

  /**
   * A like or a comment made on any chain but the author's, once delivered, has added exactly itself to the author's
   * stream, has changed no other stream and no chain's state, and is no longer under way.
   */
  lemma ReactionsArrive(net: Network, chain: ChainId, time: uint64, r: Reaction)
    requires chain != r.key.author
    ensures var net' := Run(net, [Operate(chain, time, AsOperation(r)), Deliver(|net.messages|)]);
      && Appended(net, net', r.key.author, [AsEvent(r)])
      && SameChains(net, net') && net'.messages == net.messages
  {
    hide Next, AsEvent, AsMessage, AsOperation;
    var first, n := Operate(chain, time, AsOperation(r)), |net.messages|;
    TwoSteps(net, first, Deliver(n));
    ReactionAnswer(net, chain, time, r);
    var sent := Next(net, first);
    assert sent.messages[n] == (r.key.author, AsMessage(r));
    WithoutLast(net.messages, (r.key.author, AsMessage(r)));
    DeliveryAnswer(sent, n, r);
    forall d: ChainId ensures Log(sent.logs, d) == Log(net.logs, d) {
    }
  }

  // ---------------------------------------------------------------- over whole runs

  function Is(e: Event): Event -> bool {
    x => x == e
  }

  /** A message under way to the author with this reaction. */
  function Carries(r: Reaction): ((ChainId, Message)) -> bool {
    (m: (ChainId, Message)) => m == (r.key.author, AsMessage(r))
  }

  predicate Makes(step: Step, r: Reaction) {
    step.Operate? && step.operation == AsOperation(r)
  }

  /** The step loses a message with this reaction. */
  predicate Loses(net: Network, step: Step, r: Reaction) {
    step.Drop? && step.i < |net.messages| && Carries(r)(net.messages[step.i])
  }

  function Made(steps: seq<Step>, r: Reaction): nat {
    if steps == [] then 0 else (if Makes(steps[0], r) then 1 else 0) + Made(steps[1..], r)
  }

  function Lost(net: Network, steps: seq<Step>, r: Reaction): nat
    decreases steps
  {
    if steps == [] then 0
    else (if Loses(net, steps[0], r) then 1 else 0) + Lost(Next(net, steps[0]), steps[1..], r)
  }

  /** How often a reaction is in the stream of the author it is for. */
  function InStream(net: Network, r: Reaction): nat {
    Count(Log(net.logs, r.key.author), Is(AsEvent(r)))
  }

  function UnderWay(net: Network, r: Reaction): nat {
    Count(net.messages, Carries(r))
  }

  lemma AppendedCounts(net: Network, net': Network, c: ChainId, e: Event, r: Reaction)
    requires Appended(net, net', c, [e])
    ensures InStream(net', r) == InStream(net, r) + if c == r.key.author && e == AsEvent(r) then 1 else 0
  {
    CountAppend(Log(net.logs, r.key.author), [e], Is(AsEvent(r)));
    CountOne(e, Is(AsEvent(r)));
  }

  lemma NothingAppendedCounts(net: Network, net': Network, c: ChainId, r: Reaction)
    requires Appended(net, net', c, [])
    ensures InStream(net', r) == InStream(net, r)
  {
    assert Log(net.logs, r.key.author) + [] == Log(net.logs, r.key.author);
  }

  /** Every operation is a reaction, a post, or a subscription. */
  function ReactionOf(op: Operation): Option<Reaction> {
    match op
    case Like(key) => Some(Reaction(key, None))
    case Comment(key, comment) => Some(Reaction(key, Some(comment)))
    case _ => None
  }

  function ReactionIn(m: Message): Reaction {
    match m
    case Like(key) => Reaction(key, None)
    case Comment(key, comment) => Reaction(key, Some(comment))
  }

  lemma OperationCounts(net: Network, chain: ChainId, time: uint64, op: Operation, r: Reaction)
    requires Inv(net)
    ensures var step := Operate(chain, time, op);
      InStream(Next(net, step), r) + UnderWay(Next(net, step), r)
        == InStream(net, r) + UnderWay(net, r) + if Makes(step, r) then 1 else 0
  {
    hide Inv, Next, Appended;
    var net' := Next(net, Operate(chain, time, op));
    if ReactionOf(op).Some? {
      var made := ReactionOf(op).value;
      ReactionAnswer(net, chain, time, made);
      if chain == made.key.author {
        AppendedCounts(net, net', chain, AsEvent(made), r);
      } else {
        NothingAppendedCounts(net, net', chain, r);
        CountAppend(net.messages, [(made.key.author, AsMessage(made))], Carries(r));
        CountOne((made.key.author, AsMessage(made)), Carries(r));
      }
    } else if op.Post? {
      PostAnswer(net, chain, time, op.text, op.imageUrl);
      AppendedCounts(net, net', chain,
                      Event.Post(OwnPost(time, op.text, op.imageUrl), IndexAfter(PostCount(Log(net.logs, chain)))), r);
    } else {
      SubscriptionAnswer(net, chain, time, op.chainId);
      NothingAppendedCounts(net, net', chain, r);
    }
  }

  lemma DeliveryCounts(net: Network, i: nat, r: Reaction)
    requires Inv(net) && i < |net.messages|
    ensures InStream(Next(net, Deliver(i)), r) + UnderWay(Next(net, Deliver(i)), r)
         == InStream(net, r) + UnderWay(net, r)
  {
    var (to, m) := net.messages[i];
    assert to == m.key.author;
    hide Inv, Next, Appended;
    DeliveryAnswer(net, i, ReactionIn(m));
    AppendedCounts(net, Next(net, Deliver(i)), to, AsEvent(ReactionIn(m)), r);
    CountWithout(net.messages, i, Carries(r));
  }

  lemma StepCounts(net: Network, step: Step, r: Reaction)
    requires Inv(net)
    ensures InStream(Next(net, step), r) + UnderWay(Next(net, step), r) + (if Loses(net, step, r) then 1 else 0)
         == InStream(net, r) + UnderWay(net, r) + if Makes(step, r) then 1 else 0
  {
    hide Inv, AsEvent, AsMessage, AsOperation, Count;
    match step
    case Operate(chain, time, op) => OperationCounts(net, chain, time, op, r);
    case Deliver(i) =>
      if i < |net.messages| { DeliveryCounts(net, i, r); }
    case Drop(i) =>
      if i < |net.messages| { CountWithout(net.messages, i, Carries(r)); }
    case Process(_, _) =>
  }

  /**
   * Over every run the likes of each post, and the comments of each text on it, are exactly accounted for: those in the
   * author's stream, under way and lost are those there at the start and one for each operation that made one, on
   * whichever chain. None is announced twice, and none turns into another.
   */
  lemma {:induction false} ReactionsAreAccounted(net: Network, steps: seq<Step>, r: Reaction)
    requires Inv(net)
    ensures InStream(Run(net, steps), r) + UnderWay(Run(net, steps), r) + Lost(net, steps, r)
         == InStream(net, r) + UnderWay(net, r) + Made(steps, r)
    decreases steps
  {
    hide Inv, Next, Makes, Loses, InStream, UnderWay;
    if steps != [] {
      StepKeeps(net, steps[0]);
      StepCounts(net, steps[0], r);
      ReactionsAreAccounted(Next(net, steps[0]), steps[1..], r);
    }
  }

  // ---------------------------------------------------------------- posts

  predicate Posts(step: Step, c: ChainId, post: OwnPost) {
    && step.Operate? && step.chain == c && step.time == post.timestamp
    && step.operation == Operation.Post(post.text, post.imageUrl)
  }

  function PostsMade(steps: seq<Step>, c: ChainId, post: OwnPost): nat {
    if steps == [] then 0 else (if Posts(steps[0], c, post) then 1 else 0) + PostsMade(steps[1..], c, post)
  }

  function Announcing(post: OwnPost): Event -> bool {
    (e: Event) => e.Post? && e.post == post
  }

  lemma StepCountsPosts(net: Network, step: Step, c: ChainId, post: OwnPost)
    requires Inv(net)
    ensures Count(Log(Next(net, step).logs, c), Announcing(post))
         == Count(Log(net.logs, c), Announcing(post)) + if Posts(step, c, post) then 1 else 0
  {
    hide Inv, Count;
    var log, log' := Log(net.logs, c), Log(Next(net, step).logs, c);
    if step.Operate? && step.operation.Post? {
      var (text, imageUrl) := (step.operation.text, step.operation.imageUrl);
      PostAnswer(net, step.chain, step.time, text, imageUrl);
      hide Next;
      if step.chain == c {
        var e := Event.Post(OwnPost(step.time, text, imageUrl), IndexAfter(PostCount(log)));
        CountAppend(log, [e], Announcing(post));
        CountOne(e, Announcing(post));
      }
    } else {
      var added := OtherEvents(net, step, c);
      CountAppend(log, added, Announcing(post));
      CountNone(added, Announcing(post));
    }
  }

  /** All that a step which is not a post adds to a stream. */
  lemma OtherEvents(net: Network, step: Step, c: ChainId) returns (added: seq<Event>)
    requires !(step.Operate? && step.operation.Post?)
    ensures Log(Next(net, step).logs, c) == Log(net.logs, c) + added
    ensures forall i :: 0 <= i < |added| ==> !added[i].Post?
  {
    var log, log' := Log(net.logs, c), Log(Next(net, step).logs, c);
    added := log'[|log|..];
    assert log == log + [];
  }

  /** Over every run the posts of each content are announced exactly as often as they are made. */
  lemma {:induction false} PostsAreAccounted(net: Network, steps: seq<Step>, c: ChainId, post: OwnPost)
    requires Inv(net)
    ensures Count(Log(Run(net, steps).logs, c), Announcing(post))
         == Count(Log(net.logs, c), Announcing(post)) + PostsMade(steps, c, post)
    decreases steps
  {
    hide Inv, Next, Posts, Count;
    if steps != [] {
      StepKeeps(net, steps[0]);
      StepCountsPosts(net, steps[0], c, post);
      PostsAreAccounted(Next(net, steps[0]), steps[1..], c, post);
    }
  }

  // ---------------------------------------------------------------- what readers see

  lemma {:induction false} LikesAreCount(events: seq<Event>, k: Key)
    ensures Likes(events, k) == Count(events, Is(Event.Like(k)))
  {
    if events != [] {
      var n := |events| - 1;
      LikesAreCount(events[..n], k);
      assert events == events[..n] + [events[n]];
      CountAppend(events[..n], [events[n]], Is(Event.Like(k)));
      CountOne(events[n], Is(Event.Like(k)));
    }
  }

  function WithText(text: string): Comment -> bool {
    (c: Comment) => c.text == text
  }

  lemma {:induction false} CommentsAreCount(events: seq<Event>, k: Key, c: ChainId, text: string)
    ensures Count(Comments(events, k, c), WithText(text)) == Count(events, Is(Event.Comment(k, text)))
  {
    if events != [] {
      var n := |events| - 1;
      var last := events[n];
      CommentsAreCount(events[..n], k, c, text);
      assert events == events[..n] + [last];
      CountAppend(events[..n], [last], Is(Event.Comment(k, text)));
      CountOne(last, Is(Event.Comment(k, text)));
      if last.Comment? && last.key == k {
        CountAppend(Comments(events[..n], k, c), [Comment.Comment(last.comment, c)], WithText(text));
        CountOne(Comment.Comment(last.comment, c), WithText(text));
      } else {
        assert Comments(events, k, c) == Comments(events[..n], k, c);
      }
    }
  }

  /** From the creation of the application on, there are no reactions but those made. */
  lemma ReactionsFromTheStart(application: ApplicationId, steps: seq<Step>, r: Reaction)
    ensures var net := Run(Genesis(application), steps);
      InStream(net, r) + UnderWay(net, r) + Lost(Genesis(application), steps, r) == Made(steps, r)
  {
    GenesisInv(application);
    ReactionsAreAccounted(Genesis(application), steps, r);
  }

  /**
   * Whoever has read the whole stream of an author with at most 2^32 posts sees of each post all likes ever made,
   * modulo 2^32, and all comments ever made, but for those under way and lost.
   */
  lemma ReadersSeeWhatWasMade(application: ApplicationId, steps: seq<Step>, s: ChainId, k: Key, text: string)
    requires PostCount(Log(Run(Genesis(application), steps).logs, k.author)) <= MAX_UINT32 + 1
    ensures var start := Genesis(application);
      var net := Run(start, steps);
      var posts, like, comment := net.At(s).received, Reaction(k, None), Reaction(k, Some(text));
      Cursor(net.At(s).cursors, k.author) == |Log(net.logs, k.author)| && k in posts ==>
        && posts[k].likes
             == (Made(steps, like) - UnderWay(net, like) - Lost(start, steps, like)) % (MAX_UINT32 + 1)
        && Count(posts[k].comments, WithText(text))
             == Made(steps, comment) - UnderWay(net, comment) - Lost(start, steps, comment)
  {
    hide Run, Made, Lost, PostCount, Likes, Comments, Count, UnderWay;
    var start := Genesis(application);
    var net := Run(start, steps);
    assert Reachable(net);
    hide Reachable;
    var log := Log(net.logs, k.author);
    if Cursor(net.At(s).cursors, k.author) == |log| && k in net.At(s).received {
      ReceivedPostsTellTheStream(net, s, k);
      assert log[..|log|] == log;
      LikesAreCount(log, k);
      CommentsAreCount(log, k, k.author, text);
      ReactionsFromTheStart(application, steps, Reaction(k, None));
      ReactionsFromTheStart(application, steps, Reaction(k, Some(text)));
    }
  }
}
