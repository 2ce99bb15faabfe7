/** The social contract on one chain, statement by statement. */
module SocialContract {
  import opened Wrappers
  import opened Words
  import opened SocialKeys
  import opened SocialSpec

  class SocialContract {
    const chainId: ChainId
    const applicationId: ApplicationId
    var ownPosts: OwnPosts
    var receivedPosts: ReceivedPosts
    // what the runtime is asked to do
    var emitted: seq<Event>
    var sent: seq<(ChainId, Message)>
    var subscriptions: set<ChainId>

    constructor Load(chainId: ChainId, applicationId: ApplicationId, ownPosts: OwnPosts, receivedPosts: ReceivedPosts,
                     subscriptions: set<ChainId>)
      ensures this.chainId == chainId && this.applicationId == applicationId
      ensures this.ownPosts == ownPosts && this.receivedPosts == receivedPosts
      ensures this.subscriptions == subscriptions && emitted == [] && sent == []
    {
      this.chainId, this.applicationId := chainId, applicationId;
      this.ownPosts, this.receivedPosts := ownPosts, receivedPosts;
      this.emitted, this.sent, this.subscriptions := [], [], subscriptions;
    }

    // -------------------------------------------------------------- operations and messages

    method ExecuteOperation(operation: Operation, time: uint64)
      modifies this
      ensures var e := SocialSpec.ExecuteOperation(chainId, time, old(ownPosts), old(subscriptions), operation);
        && ownPosts == e.ownPosts
        && emitted == old(emitted) + e.emitted
        && sent == old(sent) + e.sent
        && subscriptions == e.subscriptions
      ensures receivedPosts == old(receivedPosts)
    {
      match operation
      case Subscribe(chain) =>
        subscriptions := subscriptions + {chain};
      case Unsubscribe(chain) =>
        subscriptions := subscriptions - {chain};
      case Post(text, imageUrl) =>
        ExecutePostOperation(text, imageUrl, time);
      case Like(key) =>
        ExecuteLikeOperation(key);
      case Comment(key, comment) =>
        ExecuteCommentOperation(key, comment);
    }

    method ExecutePostOperation(text: string, imageUrl: Option<string>, time: uint64)
      modifies this`ownPosts, this`emitted
      ensures var post := OwnPost(time, text, imageUrl);
        && ownPosts == old(ownPosts)[NextIndex(old(ownPosts)) := post]
        && emitted == old(emitted) + [Event.Post(post, NextIndex(old(ownPosts)))]
    {
      var post := OwnPost(time, text, imageUrl);
      var index := |ownPosts| % (MAX_UINT32 + 1);
      ownPosts := ownPosts[index := post];
      emitted := emitted + [Event.Post(post, index)];
    }

    method ExecuteLikeOperation(key: Key)
      modifies this`emitted, this`sent
      ensures if key.author == chainId then emitted == old(emitted) + [Event.Like(key)] && sent == old(sent)
              else emitted == old(emitted) && sent == old(sent) + [(key.author, Message.Like(key))]
    {
      var author := key.author;
      if author != chainId {
        sent := sent + [(author, Message.Like(key))];
      } else {
        emitted := emitted + [Event.Like(key)];
      }
    }

    method ExecuteCommentOperation(key: Key, comment: string)
      modifies this`emitted, this`sent
      ensures if key.author == chainId then emitted == old(emitted) + [Event.Comment(key, comment)] && sent == old(sent)
              else emitted == old(emitted) && sent == old(sent) + [(key.author, Message.Comment(key, comment))]
    {
      var author := key.author;
      if author != chainId {
        sent := sent + [(author, Message.Comment(key, comment))];
      } else {
        emitted := emitted + [Event.Comment(key, comment)];
      }
    }

    method ExecuteMessage(message: Message)
      modifies this`emitted
      ensures emitted == old(emitted) + [SocialSpec.ExecuteMessage(message)]
    {
      match message
      case Like(key) =>
        emitted := emitted + [Event.Like(key)];
      case Comment(key, comment) =>
        emitted := emitted + [Event.Comment(key, comment)];
    }

    // -------------------------------------------------------------- streams

    /** A panic discards whatever the earlier events changed. */
    method ProcessStreams(updates: seq<StreamUpdate>, logs: Logs) returns (r: Result<(), Panic>)
      modifies this`receivedPosts
      ensures match SocialSpec.ProcessStreams(old(receivedPosts), logs, applicationId, updates)
              case Success(posts) => r == Success(()) && receivedPosts == posts
              case Failure(e) => r == Failure(e)
    {
      hide ProcessIndices;
      var n := 0;
      while n < |updates|
        invariant 0 <= n <= |updates|
        invariant SocialSpec.ProcessStreams(old(receivedPosts), logs, applicationId, updates)
               == SocialSpec.ProcessStreams(receivedPosts, logs, applicationId, updates[n..])
      {
        var update := updates[n];
        assert updates[n..][0] == update && updates[n..][1..] == updates[n + 1..];
        if update.streamName != STREAM_NAME {
          return Failure(Panic);
        }
        if update.applicationId != User(applicationId) {
          return Failure(Panic);
        }
        r := ProcessNewIndices(update.chainId, update.previousIndex, update.nextIndex, logs);
        if r.Failure? {
          return;
        }
        n := n + 1;
      }
      r := Success(());
    }

    method ProcessNewIndices(chain: ChainId, previousIndex: uint32, nextIndex: uint32, logs: Logs)
      returns (r: Result<(), Panic>)
      modifies this`receivedPosts
      ensures match ProcessIndices(old(receivedPosts), logs, chain, previousIndex, nextIndex)
              case Success(posts) => r == Success(()) && receivedPosts == posts
              case Failure(e) => r == Failure(e)
    {
      var index: nat := previousIndex;
      while index < nextIndex
        invariant ProcessIndices(old(receivedPosts), logs, chain, previousIndex, nextIndex)
               == ProcessIndices(receivedPosts, logs, chain, index, nextIndex)
      {
        if index >= |Log(logs, chain)| {
          return Failure(Panic);
        }
        match Log(logs, chain)[index] {
          case Post(post, postIndex) =>
            ExecutePostEvent(chain, postIndex, post);
          case Like(key) =>
            r := ExecuteLikeEvent(key);
            if r.Failure? {
              return;
            }
          case Comment(key, comment) =>
            r := ExecuteCommentEvent(key, chain, comment);
            if r.Failure? {
              return;
            }
        }
        index := index + 1;
      }
      r := Success(());
    }

    method ExecutePostEvent(chain: ChainId, index: uint32, post: OwnPost)
      modifies this`receivedPosts
      ensures Success(receivedPosts) == ApplyEvent(old(receivedPosts), chain, Event.Post(post, index))
    {
      var key := Key(post.timestamp, chain, index);
      var newPost := Post.Post(key, post.text, post.imageUrl, 0, []);
      receivedPosts := receivedPosts[key := newPost];
    }

    method ExecuteLikeEvent(key: Key) returns (r: Result<(), Panic>)
      modifies this`receivedPosts
      ensures r == if key in old(receivedPosts) then Success(()) else Failure(Panic)
      ensures forall chain: ChainId :: r.Success? ==>
        ApplyEvent(old(receivedPosts), chain, Event.Like(key)) == Success(receivedPosts)
    {
      if key !in receivedPosts {
        return Failure(Panic);
      }
      var post := receivedPosts[key];
      post := post.(likes := if post.likes == MAX_UINT32 then 0 else post.likes + 1);
      receivedPosts := receivedPosts[key := post];
      r := Success(());
    }

    method ExecuteCommentEvent(key: Key, chain: ChainId, comment: string) returns (r: Result<(), Panic>)
      modifies this`receivedPosts
      ensures r == if key in old(receivedPosts) then Success(()) else Failure(Panic)
      ensures r.Success? ==>
        ApplyEvent(old(receivedPosts), chain, Event.Comment(key, comment)) == Success(receivedPosts)
    {
      if key !in receivedPosts {
        return Failure(Panic);
      }
      var post := receivedPosts[key];
      post := post.(comments := post.comments + [Comment.Comment(comment, chain)]);
      receivedPosts := receivedPosts[key := post];
      r := Success(());
    }
  }

  /** A call loads the state, processes the updates and stores it; a panic stores nothing. */
  method CallProcessStreams(chainId: ChainId, applicationId: ApplicationId, ownPosts: OwnPosts, received: ReceivedPosts,
                            updates: seq<StreamUpdate>, logs: Logs)
    returns (r: Result<ReceivedPosts, Panic>)
    ensures r == SocialSpec.ProcessStreams(received, logs, applicationId, updates)
  {
    var contract := new SocialContract.Load(chainId, applicationId, ownPosts, received, {});
    var _ :- contract.ProcessStreams(updates, logs);
    r := Success(contract.receivedPosts);
  }
}
