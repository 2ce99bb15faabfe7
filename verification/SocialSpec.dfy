/**
 * What the social contract does on one chain, as functions: operations, messages, and the events of subscribed
 * streams.
 */
module SocialSpec {
  import opened Wrappers
  import opened Words
  import opened SocialKeys

  const STREAM_NAME := "posts"

  type ApplicationId = nat

  datatype GenericApplicationId = System | User(id: ApplicationId)

  datatype OwnPost = OwnPost(timestamp: uint64, text: string, imageUrl: Option<string>)

  datatype Comment = Comment(text: string, chainId: ChainId)

  datatype Post = Post(key: Key, text: string, imageUrl: Option<string>, likes: uint32, comments: seq<Comment>)

  datatype Operation =
    | Subscribe(chainId: ChainId)
    | Unsubscribe(chainId: ChainId)
    | Post(text: string, imageUrl: Option<string>)
    | Like(key: Key)
    | Comment(key: Key, comment: string)

  datatype Message = Like(key: Key) | Comment(key: Key, comment: string)

  datatype Event = Post(post: OwnPost, index: uint32) | Like(key: Key) | Comment(key: Key, comment: string)

  /** Events `previousIndex` to `nextIndex - 1` of a stream are new. */
  datatype StreamUpdate = StreamUpdate(
    chainId: ChainId, applicationId: GenericApplicationId, streamName: string, previousIndex: uint32, nextIndex: uint32)

  datatype Panic = Panic

  type OwnPosts = map<uint32, OwnPost>

  type ReceivedPosts = map<Key, Post>

  type Logs = map<ChainId, seq<Event>>

  // ---------------------------------------------------------------- operations and messages

  /** What a call asks of the runtime beside the change of its state. */
  datatype Effects = Effects(
    ownPosts: OwnPosts, emitted: seq<Event>, sent: seq<(ChainId, Message)>, subscriptions: set<ChainId>)

  function Quiet(ownPosts: OwnPosts, subscriptions: set<ChainId>): Effects {
    Effects(ownPosts, [], [], subscriptions)
  }

  /** The number of posts, cast to 32 bits. */
  function NextIndex(ownPosts: OwnPosts): uint32 {
    |ownPosts| % (MAX_UINT32 + 1)
  }

  /** Likes and comments go to the author's chain, which alone announces them. */
  function ExecuteOperation(
    chain: ChainId, time: uint64, ownPosts: OwnPosts, subscriptions: set<ChainId>, op: Operation): Effects
  {
    var quiet := Quiet(ownPosts, subscriptions);
    match op
    case Subscribe(chainId) => quiet.(subscriptions := subscriptions + {chainId})
    case Unsubscribe(chainId) => quiet.(subscriptions := subscriptions - {chainId})
    case Post(text, imageUrl) =>
      var post := OwnPost(time, text, imageUrl);
      var index := NextIndex(ownPosts);
      quiet.(ownPosts := ownPosts[index := post], emitted := [Event.Post(post, index)])
    case Like(key) =>
      if key.author != chain then quiet.(sent := [(key.author, Message.Like(key))])
      else quiet.(emitted := [Event.Like(key)])
    case Comment(key, comment) =>
      if key.author != chain then quiet.(sent := [(key.author, Message.Comment(key, comment))])
      else quiet.(emitted := [Event.Comment(key, comment)])
  }

  function ExecuteMessage(message: Message): Event {
    match message
    case Like(key) => Event.Like(key)
    case Comment(key, comment) => Event.Comment(key, comment)
  }

  // ---------------------------------------------------------------- streams

  /** The number of likes is a word that wraps around. */
  function OneMore(likes: uint32): uint32 {
    (likes + 1) % (MAX_UINT32 + 1)
  }

  /** One event of the stream of a chain. A like or a comment on a post that was not received panics. */
  function ApplyEvent(received: ReceivedPosts, chain: ChainId, event: Event): Result<ReceivedPosts, Panic> {
    match event
    case Post(post, index) =>
      var key := Key(post.timestamp, chain, index);
      Success(received[key := Post.Post(key, post.text, post.imageUrl, 0, [])])
    case Like(key) =>
      if key !in received then Failure(Panic)
      else
        var post := received[key];
        Success(received[key := post.(likes := OneMore(post.likes))])
    case Comment(key, comment) =>
      if key !in received then Failure(Panic)
      else
        var post := received[key];
        Success(received[key := post.(comments := post.comments + [Comment.Comment(comment, chain)])])
  }

  function Log(logs: Logs, chain: ChainId): seq<Event> {
    if chain in logs then logs[chain] else []
  }

  /** Events `index` to `end - 1` of a stream, one after the other; reading past the end of the stream panics. */
  function ProcessIndices(received: ReceivedPosts, logs: Logs, chain: ChainId, index: nat, end: nat)
    : Result<ReceivedPosts, Panic>
    decreases end - index
  {
    if index >= end then Success(received)
    else if index >= |Log(logs, chain)| then Failure(Panic)
    else
      var next :- ApplyEvent(received, chain, Log(logs, chain)[index]);
      ProcessIndices(next, logs, chain, index + 1, end)
  }

  predicate OurStream(application: ApplicationId, u: StreamUpdate) {
    u.streamName == STREAM_NAME && u.applicationId == User(application)
  }

  function ProcessStreams(received: ReceivedPosts, logs: Logs, application: ApplicationId, updates: seq<StreamUpdate>)
    : Result<ReceivedPosts, Panic>
    decreases updates
  {
    if updates == [] then Success(received)
    else if !OurStream(application, updates[0]) then Failure(Panic)
    else
      var u := updates[0];
      var next :- ProcessIndices(received, logs, u.chainId, u.previousIndex, u.nextIndex);
      ProcessStreams(next, logs, application, updates[1..])
  }
}
