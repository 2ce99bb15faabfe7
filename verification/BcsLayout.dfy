/** The bytes of requests and stream updates: which tags they start with, and their fields in order. */
module BcsLayout {
  import opened Wrappers
  import opened Words
  import opened BcsLength
  import opened BcsCodec
  import opened BcsTypes

  // ---------------------------------------------------------------- cases

  lemma {:induction false} CasesOfFacts(payloads: seq<Schema>, i: nat)
    requires i < |payloads|
    ensures Count(CasesOf(payloads)) == |payloads|
    ensures PayloadOf(CasesOf(payloads), i) == payloads[i]
  {
    if |payloads| == 1 {
      assert CasesOf(payloads[1..]) == Unit;
    } else {
      CasesOfFacts(payloads[1..], if i == 0 then 0 else i - 1);
    }
  }

  /** The bytes of a chosen case are those of its payload. */
  lemma {:induction false} CaseBytes(cases: Schema, choice: nat, payload: Value)
    requires choice < Count(cases) && WellMade(PayloadOf(cases, choice), payload)
    ensures Typed(cases, CaseOf(cases, choice, payload))
    ensures EncodeCase(cases, choice, CaseOf(cases, choice, payload)) == Encode(PayloadOf(cases, choice), payload)
  {
    DefaultTyped(cases.first);
    DefaultTyped(cases.second);
    if choice > 0 {
      CaseBytes(cases.second, choice - 1, payload);
    }
  }

  /** A union is one byte for the case, and the payload. */
  lemma UnionBytes(cases: Schema, choice: byte, payload: Value)
    requires choice < Count(cases) && WellMade(PayloadOf(cases, choice), payload)
    ensures var v := VUnion(choice, CaseOf(cases, choice, payload));
      WellMade(Union(cases), v) && Encode(Union(cases), v) == [choice] + Encode(PayloadOf(cases, choice), payload)
  {
    hide Made, Decodable;
    UnionIsMade(cases, choice, payload);
    CaseBytes(cases, choice, payload);
  }

  // ---------------------------------------------------------------- fields

  /** A string of bytes is preceded by its length. */
  function Prefixed(bytes: seq<byte>): seq<byte> {
    EncodeLen(|bytes|) + bytes
  }

  lemma HashBytes(hash: seq<byte>)
    requires |hash| == 32
    ensures WellMade(CRYPTO_HASH, VBytes(hash)) && Encode(CRYPTO_HASH, VBytes(hash)) == hash
  {
  }

  lemma StringBytes(bytes: seq<byte>)
    requires |bytes| <= MAX_UINT256
    ensures WellMade(Bytes, VBytes(bytes)) && Encode(Bytes, VBytes(bytes)) == Prefixed(bytes)
  {
  }

  lemma Word32Bytes(n: uint32)
    ensures WellMade(UINT32, VInt(n)) && Encode(UINT32, VInt(n)) == LittleEndian(n, 4)
  {
    UInt32Fits();
  }

  lemma PairBytes(a: Schema, b: Schema, x: Value, y: Value)
    requires WellMade(a, x) && WellMade(b, y)
    ensures WellMade(Pair(a, b), VPair(x, y)) && Encode(Pair(a, b), VPair(x, y)) == Encode(a, x) + Encode(b, y)
  {
  }

  /** The value survives a round trip, and these are its bytes. */
  ghost predicate Written(s: Schema, v: Value, bytes: seq<byte>) {
    WellMade(s, v) && Encode(s, v) == bytes
  }

  function Concat(parts: seq<seq<byte>>): seq<byte> {
    if parts == [] then [] else parts[0] + Concat(parts[1..])
  }

  /** The number of parts, and the parts one after the other. */
  function ListLayout(parts: seq<seq<byte>>): seq<byte> {
    EncodeLen(|parts|) + Concat(parts)
  }

  lemma {:induction false} AllBytes(element: Schema, items: seq<Value>, parts: seq<seq<byte>>)
    requires |items| == |parts| && forall i :: 0 <= i < |items| ==> Written(element, items[i], parts[i])
    ensures AllTyped(element, items) && EncodeAll(element, items) == Concat(parts)
  {
    hide Encode, Typed;
    if items != [] {
      assert Written(element, items[0], parts[0]);
      assert forall i :: 0 <= i < |items[1..]| ==> items[1..][i] == items[i + 1] && parts[1..][i] == parts[i + 1];
      AllBytes(element, items[1..], parts[1..]);
      assert forall i :: 0 < i < |items| ==> items[i] == items[1..][i - 1];
    }
  }

  /** A list is its length and its elements one after the other. */
  lemma ListBytes(element: Schema, items: seq<Value>, parts: seq<seq<byte>>)
    requires |items| == |parts| <= MAX_UINT256
    requires forall i :: 0 <= i < |items| ==> Written(element, items[i], parts[i])
    ensures Written(Seq(element), VSeq(items), ListLayout(parts))
  {
    AllBytes(element, items, parts);
    ListIsMade(element, items);
    hide EncodeLen, EncodeAll, Concat, Written;
    assert Written(Seq(element), VSeq(items), EncodeLen(|parts|) + Concat(parts)) by {
      ListUnfolds(element, items);
      WrittenIs(Seq(element), VSeq(items), EncodeLen(|parts|) + Concat(parts));
    }
  }

  lemma WrittenIs(s: Schema, v: Value, bytes: seq<byte>)
    requires WellMade(s, v) && Encode(s, v) == bytes
    ensures Written(s, v, bytes)
  {
  }

  lemma ListUnfolds(element: Schema, items: seq<Value>)
    requires |items| <= MAX_UINT256 && AllTyped(element, items)
    ensures Typed(Seq(element), VSeq(items))
    ensures Encode(Seq(element), VSeq(items)) == EncodeLen(|items|) + EncodeAll(element, items)
  {
    hide EncodeLen, EncodeAll;
  }

  lemma ListIsMade(element: Schema, items: seq<Value>)
    requires |items| <= MAX_UINT256 && forall i :: 0 <= i < |items| ==> WellMade(element, items[i])
    ensures WellMade(Seq(element), VSeq(items))
  {
  }

  /** Four bytes, the lowest first. */
  lemma LittleEndianDigits(n: uint32)
    ensures LittleEndian(n, 4) == [n % 256, n / 256 % 256, n / 256 / 256 % 256, n / 256 / 256 / 256 % 256]
  {
    var n1, n2, n3 := n / 256, n / 256 / 256, n / 256 / 256 / 256;
    assert LittleEndian(n3, 1) == [n3 % 256] + LittleEndian(n3 / 256, 0);
    assert LittleEndian(n2, 2) == [n2 % 256] + LittleEndian(n3, 1);
    assert LittleEndian(n1, 3) == [n1 % 256] + LittleEndian(n2, 2);
    assert LittleEndian(n, 4) == [n % 256] + LittleEndian(n1, 3);
  }

  // ---------------------------------------------------------------- stream updates

  /** The tag of an application: the system, or a user application with its hash. */
  function ApplicationLayout(application: Option<seq<byte>>): seq<byte> {
    match application
    case None => [0]
    case Some(user) => [1] + user
  }

  function UpdateLayout(u: StreamUpdate): seq<byte> {
    u.chainId + ApplicationLayout(u.application) + Prefixed(u.streamName)
    + LittleEndian(u.previousIndex, 4) + LittleEndian(u.nextIndex, 4)
  }

  lemma ApplicationBytes(application: Option<seq<byte>>)
    requires application.Some? ==> |application.value| == 32
    ensures WellMade(GENERIC_APPLICATION_ID, ApplicationValue(application))
    ensures Encode(GENERIC_APPLICATION_ID, ApplicationValue(application)) == ApplicationLayout(application)
  {
    match application
    case None => UnionBytes(GENERIC_APPLICATION_ID.cases, 0, VUnit);
    case Some(user) => UnionBytes(GENERIC_APPLICATION_ID.cases, 1, VBytes(user));
  }

  /**
   * An update is the chain, the tag and the hash of the application, the length and the name of the stream, and the two
   * indices in four bytes each.
   */
  lemma UpdateBytes(u: StreamUpdate)
    requires Valid(u)
    ensures WellMade(STREAM_UPDATE, UpdateValue(u)) && Encode(STREAM_UPDATE, UpdateValue(u)) == UpdateLayout(u)
  {
    hide Encode, Made, Decodable, Typed, ApplicationValue, LittleEndian;
    HashBytes(u.chainId);
    ApplicationBytes(u.application);
    StringBytes(u.streamName);
    Word32Bytes(u.previousIndex);
    Word32Bytes(u.nextIndex);
    var application, name := ApplicationValue(u.application), VBytes(u.streamName);
    PairBytes(GENERIC_APPLICATION_ID, STREAM_NAME, application, name);
    PairBytes(UINT32, UINT32, VInt(u.previousIndex), VInt(u.nextIndex));
    var indices := VPair(VInt(u.previousIndex), VInt(u.nextIndex));
    PairBytes(STREAM_ID, Pair(UINT32, UINT32), VPair(application, name), indices);
    PairBytes(CHAIN_ID, Pair(STREAM_ID, Pair(UINT32, UINT32)), VBytes(u.chainId),
              VPair(VPair(application, name), indices));
  }

  /** A list of updates is their number and the updates one after the other. */
  lemma UpdatesBytes(updates: seq<StreamUpdate>)
    requires |updates| <= MAX_UINT256 && forall u :: u in updates ==> Valid(u)
    ensures WellMade(STREAM_UPDATES, UpdateValues(updates))
    ensures Encode(STREAM_UPDATES, UpdateValues(updates)) == ListLayout(UpdateLayouts(updates))
  {
    hide Encode, WellMade, UpdateValue, UpdateLayout, EncodeLen, Concat;
    var items, parts := UpdateValues(updates).items, UpdateLayouts(updates);
    forall i | 0 <= i < |items| ensures Written(STREAM_UPDATE, items[i], parts[i]) {
      UpdateBytes(updates[i]);
    }
    ListBytes(STREAM_UPDATE, items, parts);
  }

  function UpdateLayouts(updates: seq<StreamUpdate>): seq<seq<byte>> {
    seq(|updates|, i requires 0 <= i < |updates| => UpdateLayout(updates[i]))
  }

  // ---------------------------------------------------------------- requests

  datatype Owner =
    | Reserved(number: byte)
    | Address32(hash: seq<byte>)
    | Address20(address: seq<byte>)

  /** What any application can ask of the runtime, what a contract can, and what a service can. */
  datatype BaseRequest =
    | ChainId
    | BlockHeight
    | ApplicationCreatorChainId
    | ReadSystemTimestamp
    | ReadChainBalance
    | ReadOwnerBalance(owner: Owner)
    | ReadOwnerBalances
    | ReadBalanceOwners
    | ChainOwnership
    | ReadDataBlob(hash: seq<byte>)
    | AssertDataBlobExists(hash: seq<byte>)

  datatype ContractRequest =
    | AuthenticatedSigner
    | MessageOriginChainId
    | MessageIsBouncing
    | AuthenticatedCallerId
    | SendMessage(destination: seq<byte>, message: seq<byte>)
    | TryCallApplication(target: seq<byte>, argument: seq<byte>)
    | Emit(streamName: seq<byte>, value: seq<byte>)
    | ReadEvent(chainId: seq<byte>, streamName: seq<byte>, index: uint32)
    | SubscribeToEvents(chainId: seq<byte>, applicationId: seq<byte>, streamName: seq<byte>)
    | UnsubscribeFromEvents(chainId: seq<byte>, applicationId: seq<byte>, streamName: seq<byte>)
    | QueryService(applicationId: seq<byte>, query: seq<byte>)
    | ValidationRound

  datatype ServiceRequest = TryQueryApplication(target: seq<byte>, argument: seq<byte>)

  datatype Request = Base(base: BaseRequest) | Contract(contract: ContractRequest) | Service(service: ServiceRequest)

  /** Hashes have 32 bytes, short addresses 20, and lengths fit into a word. */
  predicate ValidOwner(o: Owner) {
    match o
    case Reserved(_) => true
    case Address32(hash) => |hash| == 32
    case Address20(address) => |address| == 20
  }

  predicate ValidBase(r: BaseRequest) {
    match r
    case ReadOwnerBalance(owner) => ValidOwner(owner)
    case ReadDataBlob(hash) => |hash| == 32
    case AssertDataBlobExists(hash) => |hash| == 32
    case _ => true
  }

  predicate ValidContract(r: ContractRequest) {
    match r
    case SendMessage(destination, message) => |destination| == 32 && |message| <= MAX_UINT256
    case TryCallApplication(target, argument) => |target| == 32 && |argument| <= MAX_UINT256
    case Emit(streamName, value) => |streamName| <= MAX_UINT256 && |value| <= MAX_UINT256
    case ReadEvent(chainId, streamName, _) => |chainId| == 32 && |streamName| <= MAX_UINT256
    case SubscribeToEvents(chainId, applicationId, streamName) =>
      |chainId| == 32 && |applicationId| == 32 && |streamName| <= MAX_UINT256
    case UnsubscribeFromEvents(chainId, applicationId, streamName) =>
      |chainId| == 32 && |applicationId| == 32 && |streamName| <= MAX_UINT256
    case QueryService(applicationId, query) => |applicationId| == 32 && |query| <= MAX_UINT256
    case _ => true
  }

  predicate ValidRequest(r: Request) {
    match r
    case Base(base) => ValidBase(base)
    case Contract(contract) => ValidContract(contract)
    case Service(service) => |service.target| == 32 && |service.argument| <= MAX_UINT256
  }

  // ---------------------------------------------------------------- the bytes that are promised

  function OwnerLayout(o: Owner): seq<byte> {
    match o
    case Reserved(number) => [0, number]
    case Address32(hash) => [1] + hash
    case Address20(address) => [2] + address
  }

  function BaseLayout(r: BaseRequest): seq<byte> {
    match r
    case ChainId => [0]
    case BlockHeight => [1]
    case ApplicationCreatorChainId => [2]
    case ReadSystemTimestamp => [3]
    case ReadChainBalance => [4]
    case ReadOwnerBalance(owner) => [5] + OwnerLayout(owner)
    case ReadOwnerBalances => [6]
    case ReadBalanceOwners => [7]
    case ChainOwnership => [8]
    case ReadDataBlob(hash) => [9] + hash
    case AssertDataBlobExists(hash) => [10] + hash
  }

  function ContractLayout(r: ContractRequest): seq<byte> {
    match r
    case AuthenticatedSigner => [0]
    case MessageOriginChainId => [1]
    case MessageIsBouncing => [2]
    case AuthenticatedCallerId => [3]
    case SendMessage(destination, message) => [4] + (destination + Prefixed(message))
    case TryCallApplication(target, argument) => [5] + (target + Prefixed(argument))
    case Emit(streamName, value) => [6] + (Prefixed(streamName) + Prefixed(value))
    case ReadEvent(chainId, streamName, index) =>
      [7] + (chainId + Prefixed(streamName) + LittleEndian(index, 4))
    case SubscribeToEvents(chainId, applicationId, streamName) =>
      [8] + (chainId + applicationId + Prefixed(streamName))
    case UnsubscribeFromEvents(chainId, applicationId, streamName) =>
      [9] + (chainId + applicationId + Prefixed(streamName))
    case QueryService(applicationId, query) => [10] + (applicationId + Prefixed(query))
    case ValidationRound => [11]
  }

  function ServiceLayout(r: ServiceRequest): seq<byte> {
    [0] + (r.target + Prefixed(r.argument))
  }

  /** One byte for the family, one for the request in it, and the fields in order. */
  function Layout(r: Request): seq<byte> {
    match r
    case Base(base) => [0] + BaseLayout(base)
    case Contract(contract) => [1] + ContractLayout(contract)
    case Service(service) => [2] + ServiceLayout(service)
  }

  // ---------------------------------------------------------------- the values of the library

  /** A case of a union and its payload. */
  datatype Chosen = Chosen(choice: byte, payload: Value)

  function OwnerValue(o: Owner): Value {
    match o
    case Reserved(number) => VUnion(0, CaseOf(ACCOUNT_OWNER.cases, 0, VInt(number)))
    case Address32(hash) => VUnion(1, CaseOf(ACCOUNT_OWNER.cases, 1, VBytes(hash)))
    case Address20(address) => VUnion(2, CaseOf(ACCOUNT_OWNER.cases, 2, VBytes(address)))
  }

  function TwoStrings(a: seq<byte>, b: seq<byte>): Value {
    VPair(VBytes(a), VBytes(b))
  }

  function ChooseBase(r: BaseRequest): Chosen {
    match r
    case ChainId => Chosen(0, VUnit)
    case BlockHeight => Chosen(1, VUnit)
    case ApplicationCreatorChainId => Chosen(2, VUnit)
    case ReadSystemTimestamp => Chosen(3, VUnit)
    case ReadChainBalance => Chosen(4, VUnit)
    case ReadOwnerBalance(owner) => Chosen(5, OwnerValue(owner))
    case ReadOwnerBalances => Chosen(6, VUnit)
    case ReadBalanceOwners => Chosen(7, VUnit)
    case ChainOwnership => Chosen(8, VUnit)
    case ReadDataBlob(hash) => Chosen(9, VBytes(hash))
    case AssertDataBlobExists(hash) => Chosen(10, VBytes(hash))
  }

  function ChooseContract(r: ContractRequest): Chosen {
    match r
    case AuthenticatedSigner => Chosen(0, VUnit)
    case MessageOriginChainId => Chosen(1, VUnit)
    case MessageIsBouncing => Chosen(2, VUnit)
    case AuthenticatedCallerId => Chosen(3, VUnit)
    case SendMessage(destination, message) => Chosen(4, TwoStrings(destination, message))
    case TryCallApplication(target, argument) => Chosen(5, TwoStrings(target, argument))
    case Emit(streamName, value) => Chosen(6, TwoStrings(streamName, value))
    case ReadEvent(chainId, streamName, index) =>
      Chosen(7, VPair(VBytes(chainId), VPair(VBytes(streamName), VInt(index))))
    case SubscribeToEvents(chainId, applicationId, streamName) =>
      Chosen(8, VPair(VBytes(chainId), TwoStrings(applicationId, streamName)))
    case UnsubscribeFromEvents(chainId, applicationId, streamName) =>
      Chosen(9, VPair(VBytes(chainId), TwoStrings(applicationId, streamName)))
    case QueryService(applicationId, query) => Chosen(10, TwoStrings(applicationId, query))
    case ValidationRound => Chosen(11, VUnit)
  }

  function InUnion(cases: Schema, c: Chosen): Value {
    VUnion(c.choice, CaseOf(cases, c.choice, c.payload))
  }

  function FamilyOf(r: Request): byte {
    if r.Base? then 0 else if r.Contract? then 1 else 2
  }

  function PayloadsOf(r: Request): seq<Schema> {
    if r.Base? then BASE_PAYLOADS else if r.Contract? then CONTRACT_PAYLOADS else SERVICE_PAYLOADS
  }

  function Choose(r: Request): Chosen {
    match r
    case Base(base) => ChooseBase(base)
    case Contract(contract) => ChooseContract(contract)
    case Service(service) => Chosen(0, TwoStrings(service.target, service.argument))
  }

  /** The request as the library's structs hold it. */
  function RequestValue(r: Request): Value {
    BcsTypes.Request(FamilyOf(r), InUnion(CasesOf(PayloadsOf(r)), Choose(r)))
  }

  lemma OwnerBytes(o: Owner)
    requires ValidOwner(o)
    ensures WellMade(ACCOUNT_OWNER, OwnerValue(o)) && Encode(ACCOUNT_OWNER, OwnerValue(o)) == OwnerLayout(o)
  {
    assert Pow256(1) == 256 * Pow256(0);
    assert Count(ACCOUNT_OWNER.cases) == 3;
    match o
    case Reserved(number) =>
      assert LittleEndian(number, 1) == [number] + LittleEndian(number / 256, 0);
      UnionBytes(ACCOUNT_OWNER.cases, 0, VInt(number));
    case Address32(hash) => UnionBytes(ACCOUNT_OWNER.cases, 1, VBytes(hash));
    case Address20(address) => UnionBytes(ACCOUNT_OWNER.cases, 2, VBytes(address));
  }

  lemma NoBytes()
    ensures WellMade(Unit, VUnit) && Encode(Unit, VUnit) == []
  {
  }

  lemma AddressedBytes(address: seq<byte>, bytes: seq<byte>)
    requires |address| == 32 && |bytes| <= MAX_UINT256
    ensures var s, v := Pair(CRYPTO_HASH, Bytes), TwoStrings(address, bytes);
      WellMade(s, v) && Encode(s, v) == address + Prefixed(bytes)
  {
    hide Encode, Made, Decodable, Typed;
    HashBytes(address);
    StringBytes(bytes);
    PairBytes(CRYPTO_HASH, Bytes, VBytes(address), VBytes(bytes));
  }

  lemma SubscriptionBytes(chainId: seq<byte>, applicationId: seq<byte>, streamName: seq<byte>)
    requires |chainId| == 32 && |applicationId| == 32 && |streamName| <= MAX_UINT256
    ensures var v := VPair(VBytes(chainId), TwoStrings(applicationId, streamName));
      && WellMade(SUBSCRIBE_TO_EVENTS, v)
      && Encode(SUBSCRIBE_TO_EVENTS, v) == chainId + applicationId + Prefixed(streamName)
  {
    hide Encode, Made, Decodable, Typed;
    HashBytes(chainId);
    AddressedBytes(applicationId, streamName);
    PairBytes(CHAIN_ID, Pair(APPLICATION_ID, STREAM_NAME), VBytes(chainId), TwoStrings(applicationId, streamName));
  }

  lemma ReadEventBytes(chainId: seq<byte>, streamName: seq<byte>, index: uint32)
    requires |chainId| == 32 && |streamName| <= MAX_UINT256
    ensures var v := VPair(VBytes(chainId), VPair(VBytes(streamName), VInt(index)));
      && WellMade(READ_EVENT, v)
      && Encode(READ_EVENT, v) == chainId + Prefixed(streamName) + LittleEndian(index, 4)
  {
    hide Encode, Made, Decodable, Typed;
    HashBytes(chainId);
    StringBytes(streamName);
    Word32Bytes(index);
    PairBytes(STREAM_NAME, UINT32, VBytes(streamName), VInt(index));
    PairBytes(CHAIN_ID, Pair(STREAM_NAME, UINT32), VBytes(chainId), VPair(VBytes(streamName), VInt(index)));
  }

  lemma EmitBytes(streamName: seq<byte>, value: seq<byte>)
    requires |streamName| <= MAX_UINT256 && |value| <= MAX_UINT256
    ensures WellMade(EMIT, TwoStrings(streamName, value))
    ensures Encode(EMIT, TwoStrings(streamName, value)) == Prefixed(streamName) + Prefixed(value)
  {
    hide Encode, Made, Decodable, Typed;
    StringBytes(streamName);
    StringBytes(value);
    PairBytes(STREAM_NAME, Bytes, VBytes(streamName), VBytes(value));
  }

  /** The chosen case of these payloads is encoded as its tag and these fields. */
  ghost predicate Follows(payloads: seq<Schema>, c: Chosen, bytes: seq<byte>) {
    && c.choice < |payloads|
    && WellMade(payloads[c.choice], c.payload)
    && bytes == [c.choice] + Encode(payloads[c.choice], c.payload)
  }

  lemma FollowsFrom(payloads: seq<Schema>, c: Chosen, schema: Schema, fields: seq<byte>, bytes: seq<byte>)
    requires c.choice < |payloads| && payloads[c.choice] == schema
    requires WellMade(schema, c.payload) && Encode(schema, c.payload) == fields && bytes == [c.choice] + fields
    ensures Follows(payloads, c, bytes)
  {
    hide Encode, WellMade;
  }

  lemma BaseFollows(r: BaseRequest)
    requires ValidBase(r)
    ensures Follows(BASE_PAYLOADS, ChooseBase(r), BaseLayout(r))
  {
    hide Encode, WellMade, OwnerValue, OwnerLayout, Follows;
    match r
    case ReadOwnerBalance(owner) =>
      OwnerBytes(owner);
      FollowsFrom(BASE_PAYLOADS, ChooseBase(r), ACCOUNT_OWNER, OwnerLayout(owner), BaseLayout(r));
    case ReadDataBlob(hash) =>
      HashBytes(hash);
      FollowsFrom(BASE_PAYLOADS, ChooseBase(r), DATA_BLOB_HASH, hash, BaseLayout(r));
    case AssertDataBlobExists(hash) =>
      HashBytes(hash);
      FollowsFrom(BASE_PAYLOADS, ChooseBase(r), DATA_BLOB_HASH, hash, BaseLayout(r));
    case _ =>
      NoBytes();
      assert BaseLayout(r) == [ChooseBase(r).choice] + [];
      FollowsFrom(BASE_PAYLOADS, ChooseBase(r), Unit, [], BaseLayout(r));
  }

  lemma PlainContractFollows(r: ContractRequest)
    requires ChooseContract(r).payload == VUnit
    ensures Follows(CONTRACT_PAYLOADS, ChooseContract(r), ContractLayout(r))
  {
    hide Encode, WellMade, Prefixed, Follows;
    NoBytes();
    assert ContractLayout(r) == [ChooseContract(r).choice] + [];
    FollowsFrom(CONTRACT_PAYLOADS, ChooseContract(r), Unit, [], ContractLayout(r));
  }

  lemma AddressedFollows(r: ContractRequest)
    requires ValidContract(r) && (r.SendMessage? || r.TryCallApplication? || r.QueryService?)
    ensures Follows(CONTRACT_PAYLOADS, ChooseContract(r), ContractLayout(r))
  {
    hide Encode, WellMade, Prefixed, Follows, TwoStrings;
    match r
    case SendMessage(destination, message) =>
      AddressedBytes(destination, message);
      FollowsFrom(CONTRACT_PAYLOADS, ChooseContract(r), SEND_MESSAGE, destination + Prefixed(message),
                  ContractLayout(r));
    case TryCallApplication(target, argument) =>
      AddressedBytes(target, argument);
      FollowsFrom(CONTRACT_PAYLOADS, ChooseContract(r), TRY_CALL_APPLICATION, target + Prefixed(argument),
                  ContractLayout(r));
    case QueryService(applicationId, query) =>
      AddressedBytes(applicationId, query);
      FollowsFrom(CONTRACT_PAYLOADS, ChooseContract(r), QUERY_SERVICE, applicationId + Prefixed(query),
                  ContractLayout(r));
  }

  lemma StreamFollows(r: ContractRequest)
    requires ValidContract(r) && (r.Emit? || r.ReadEvent? || r.SubscribeToEvents? || r.UnsubscribeFromEvents?)
    ensures Follows(CONTRACT_PAYLOADS, ChooseContract(r), ContractLayout(r))
  {
    hide Encode, WellMade, Prefixed, Follows, TwoStrings, LittleEndian;
    match r
    case Emit(streamName, value) =>
      EmitBytes(streamName, value);
      FollowsFrom(CONTRACT_PAYLOADS, ChooseContract(r), EMIT, Prefixed(streamName) + Prefixed(value),
                  ContractLayout(r));
    case ReadEvent(chainId, streamName, index) =>
      ReadEventBytes(chainId, streamName, index);
      FollowsFrom(CONTRACT_PAYLOADS, ChooseContract(r), READ_EVENT,
                  chainId + Prefixed(streamName) + LittleEndian(index, 4), ContractLayout(r));
    case SubscribeToEvents(chainId, applicationId, streamName) =>
      SubscriptionBytes(chainId, applicationId, streamName);
      FollowsFrom(CONTRACT_PAYLOADS, ChooseContract(r), SUBSCRIBE_TO_EVENTS,
                  chainId + applicationId + Prefixed(streamName), ContractLayout(r));
    case UnsubscribeFromEvents(chainId, applicationId, streamName) =>
      SubscriptionBytes(chainId, applicationId, streamName);
      FollowsFrom(CONTRACT_PAYLOADS, ChooseContract(r), UNSUBSCRIBE_FROM_EVENTS,
                  chainId + applicationId + Prefixed(streamName), ContractLayout(r));
  }

  lemma ContractFollows(r: ContractRequest)
    requires ValidContract(r)
    ensures Follows(CONTRACT_PAYLOADS, ChooseContract(r), ContractLayout(r))
  {
    hide Follows, ContractLayout, TwoStrings;
    if r.SendMessage? || r.TryCallApplication? || r.QueryService? {
      AddressedFollows(r);
    } else if r.Emit? || r.ReadEvent? || r.SubscribeToEvents? || r.UnsubscribeFromEvents? {
      StreamFollows(r);
    } else {
      PlainContractFollows(r);
    }
  }

  lemma FollowsInUnion(payloads: seq<Schema>, c: Chosen, bytes: seq<byte>)
    requires Follows(payloads, c, bytes)
    ensures var v := InUnion(CasesOf(payloads), c);
      WellMade(Union(CasesOf(payloads)), v) && Encode(Union(CasesOf(payloads)), v) == bytes
  {
    hide Encode, WellMade, CasesOf, CaseOf, Count, PayloadOf;
    CasesOfFacts(payloads, c.choice);
    UnionBytes(CasesOf(payloads), c.choice, c.payload);
  }

  /** The families are the cases of the whole. */
  lemma Families()
    ensures Count(RUNTIME_PRECOMPILE.cases) == 3
    ensures PayloadOf(RUNTIME_PRECOMPILE.cases, 0) == BASE_RUNTIME_PRECOMPILE
    ensures PayloadOf(RUNTIME_PRECOMPILE.cases, 1) == CONTRACT_RUNTIME_PRECOMPILE
    ensures PayloadOf(RUNTIME_PRECOMPILE.cases, 2) == SERVICE_RUNTIME_PRECOMPILE
  {
    RequestCases();
    hide CasesOf;
    var cases := RUNTIME_PRECOMPILE.cases;
    assert PayloadOf(cases, 1) == PayloadOf(cases.second, 0);
    assert PayloadOf(cases, 2) == PayloadOf(cases.second, 1) == PayloadOf(cases.second.second, 0);
  }

  lemma ServiceFollows(r: ServiceRequest)
    requires |r.target| == 32 && |r.argument| <= MAX_UINT256
    ensures Follows(SERVICE_PAYLOADS, Chosen(0, TwoStrings(r.target, r.argument)), ServiceLayout(r))
  {
    hide Encode, WellMade, TwoStrings, Prefixed;
    AddressedBytes(r.target, r.argument);
  }

  /** Every request is encoded as its two tags and its fields in order. */
  lemma RequestBytes(r: Request)
    requires ValidRequest(r)
    ensures WellMade(RUNTIME_PRECOMPILE, RequestValue(r))
    ensures Encode(RUNTIME_PRECOMPILE, RequestValue(r)) == Layout(r)
  {
    hide Encode, WellMade, Follows, BaseLayout, ContractLayout, ServiceLayout, ChooseBase, ChooseContract, InUnion,
      CaseOf, Count, PayloadOf, CasesOf, TwoStrings;
    var bytes := Layout(r)[1..];
    RequestFollows(r);
    FollowsInUnion(PayloadsOf(r), Choose(r), bytes);
    Families();
    UnionBytes(RUNTIME_PRECOMPILE.cases, FamilyOf(r), InUnion(CasesOf(PayloadsOf(r)), Choose(r)));
  }

  lemma RequestFollows(r: Request)
    requires ValidRequest(r)
    ensures Follows(PayloadsOf(r), Choose(r), Layout(r)[1..])
  {
    hide Encode, WellMade, Follows, BaseLayout, ContractLayout, ServiceLayout, ChooseBase, ChooseContract, TwoStrings;
    match r
    case Base(base) => BaseFollows(base);
    case Contract(contract) => ContractFollows(contract);
    case Service(service) => ServiceFollows(service);
  }

  lemma OwnersDetermine(o: Owner, o': Owner)
    requires OwnerValue(o) == OwnerValue(o')
    ensures o == o'
  {
    assert Count(ACCOUNT_OWNER.cases) == 3;
    match (o, o')
    case (Reserved(a), Reserved(b)) => CasesDetermine(ACCOUNT_OWNER.cases, 0, VInt(a), VInt(b));
    case (Address32(a), Address32(b)) => CasesDetermine(ACCOUNT_OWNER.cases, 1, VBytes(a), VBytes(b));
    case (Address20(a), Address20(b)) => CasesDetermine(ACCOUNT_OWNER.cases, 2, VBytes(a), VBytes(b));
    case _ =>
  }

  lemma BaseDetermines(r: BaseRequest, r': BaseRequest)
    requires ChooseBase(r) == ChooseBase(r')
    ensures r == r'
  {
    hide OwnerValue;
    if r.ReadOwnerBalance? {
      OwnersDetermine(r.owner, r'.owner);
    }
  }

  lemma ContractDetermines(r: ContractRequest, r': ContractRequest)
    requires ChooseContract(r) == ChooseContract(r')
    ensures r == r'
  {
  }

  lemma ChoicesDetermine(payloads: seq<Schema>, c: Chosen, c': Chosen)
    requires c.choice < |payloads| && InUnion(CasesOf(payloads), c) == InUnion(CasesOf(payloads), c')
    ensures c == c'
  {
    hide CasesOf, CaseOf;
    CasesOfFacts(payloads, c.choice);
    CasesDetermine(CasesOf(payloads), c.choice, c.payload, c'.payload);
  }

  lemma FamilyDetermines(family: byte, family': byte, v: Value, v': Value)
    requires family < 3 && BcsTypes.Request(family, v) == BcsTypes.Request(family', v')
    ensures family == family' && v == v'
  {
    hide CaseOf, Count;
    Families();
    CasesDetermine(RUNTIME_PRECOMPILE.cases, family, v, v');
  }

  lemma ChosenDetermines(r: Request, r': Request)
    requires FamilyOf(r) == FamilyOf(r') && Choose(r) == Choose(r')
    ensures r == r'
  {
    hide ChooseBase, ChooseContract;
    match r
    case Base(base) => BaseDetermines(base, r'.base);
    case Contract(contract) => ContractDetermines(contract, r'.contract);
    case Service(_) =>
  }

  lemma RequestsDetermine(r: Request, r': Request)
    requires ValidRequest(r) && RequestValue(r) == RequestValue(r')
    ensures r == r'
  {
    hide InUnion, CasesOf, Choose, BcsTypes.Request, Follows, BaseLayout, ContractLayout, ServiceLayout;
    FamilyDetermines(FamilyOf(r), FamilyOf(r'), InUnion(CasesOf(PayloadsOf(r)), Choose(r)),
                     InUnion(CasesOf(PayloadsOf(r')), Choose(r')));
    RequestFollows(r);
    FollowsInRange(PayloadsOf(r), Choose(r), Layout(r)[1..]);
    ChoicesDetermine(PayloadsOf(r), Choose(r), Choose(r'));
    ChosenDetermines(r, r');
  }

  lemma FollowsInRange(payloads: seq<Schema>, c: Chosen, bytes: seq<byte>)
    requires Follows(payloads, c, bytes)
    ensures c.choice < |payloads|
  {
  }

  /**
   * The bytes that the runtime receives determine the request: no request's bytes begin another's, and the bytes of a
   * request, between any other bytes, decode to it and to nothing else.
   */
  lemma RequestsAreRecovered(
      r: Request, r': Request, pre: seq<byte>, post: seq<byte>, beyond: (nat, nat) -> byte)
    requires ValidRequest(r) && ValidRequest(r')
    ensures Layout(r) <= Layout(r') && |Layout(r')| <= MAX_UINT256 ==> r == r'
    ensures |pre + Layout(r) + post| <= MAX_UINT256 ==>
      Decode(RUNTIME_PRECOMPILE, |pre|, Memory(pre + Layout(r) + post, beyond))
        == Some(Parsed(|pre| + |Layout(r)|, RequestValue(r)))
  {
    hide Encode, Decode, Made, Decodable, Typed, RequestValue, Layout, ValidRequest;
    RequestBytes(r);
    RequestBytes(r');
    WellMadeRoundTrip(RUNTIME_PRECOMPILE, RequestValue(r), pre, post, beyond);
    if Layout(r) <= Layout(r') && |Layout(r')| <= MAX_UINT256 {
      PrefixFree(RUNTIME_PRECOMPILE, RequestValue(r), RequestValue(r'));
      RequestsDetermine(r, r');
    }
  }

  // ---------------------------------------------------------------- other answers

  datatype Timeouts = Timeouts(fastRound: Option<uint64>, base: uint64, increment: uint64, fallback: uint64)

  datatype Weighted = Weighted(owner: Owner, weight: uint64)

  datatype Ownership = Ownership(
    superOwners: seq<Owner>, owners: seq<Weighted>, multiLeaderRounds: uint32, openMultiLeaderRounds: bool,
    timeouts: Timeouts)

  predicate ValidOwnership(o: Ownership) {
    && |o.superOwners| <= MAX_UINT256 && |o.owners| <= MAX_UINT256
    && (forall x :: x in o.superOwners ==> ValidOwner(x))
    && (forall x :: x in o.owners ==> ValidOwner(x.owner))
  }

  /** An option is one byte, and the value if there is one. */
  function OptionLayout(bytes: Option<seq<byte>>): seq<byte> {
    match bytes
    case None => [0]
    case Some(present) => [1] + present
  }

  function FastRoundLayout(fastRound: Option<uint64>): Option<seq<byte>> {
    match fastRound
    case None => None
    case Some(duration) => Some(LittleEndian(duration, 8))
  }

  function TimeoutsLayout(t: Timeouts): seq<byte> {
    OptionLayout(FastRoundLayout(t.fastRound))
    + (LittleEndian(t.base, 8) + (LittleEndian(t.increment, 8) + LittleEndian(t.fallback, 8)))
  }

  function OwnerLayouts(owners: seq<Owner>): seq<seq<byte>> {
    seq(|owners|, i requires 0 <= i < |owners| => OwnerLayout(owners[i]))
  }

  function WeightedLayouts(owners: seq<Weighted>): seq<seq<byte>> {
    seq(|owners|, i requires 0 <= i < |owners| => OwnerLayout(owners[i].owner) + LittleEndian(owners[i].weight, 8))
  }

  function OwnershipLayout(o: Ownership): seq<byte> {
    ListLayout(OwnerLayouts(o.superOwners))
    + (ListLayout(WeightedLayouts(o.owners))
       + (LittleEndian(o.multiLeaderRounds, 4)
          + ([if o.openMultiLeaderRounds then 1 else 0] + TimeoutsLayout(o.timeouts))))
  }

  function OptionValue(inner: Schema, v: Option<Value>): Value {
    match v
    case None => VOpt(false, Default(inner))
    case Some(value) => VOpt(true, value)
  }

  function FastRoundValue(fastRound: Option<uint64>): Option<Value> {
    match fastRound
    case None => None
    case Some(duration) => Some(VInt(duration))
  }

  function TimeoutsValue(t: Timeouts): Value {
    VPair(OptionValue(TIME_DELTA, FastRoundValue(t.fastRound)),
          VPair(VInt(t.base), VPair(VInt(t.increment), VInt(t.fallback))))
  }

  function OwnerValues(owners: seq<Owner>): seq<Value> {
    seq(|owners|, i requires 0 <= i < |owners| => OwnerValue(owners[i]))
  }

  function WeightedValues(owners: seq<Weighted>): seq<Value> {
    seq(|owners|, i requires 0 <= i < |owners| => VPair(OwnerValue(owners[i].owner), VInt(owners[i].weight)))
  }

  function OwnershipValue(o: Ownership): Value {
    VPair(VSeq(OwnerValues(o.superOwners)),
          VPair(VSeq(WeightedValues(o.owners)),
                VPair(VInt(o.multiLeaderRounds), VPair(VBool(o.openMultiLeaderRounds), TimeoutsValue(o.timeouts)))))
  }

  lemma PairWritten(a: Schema, b: Schema, x: Value, y: Value, xs: seq<byte>, ys: seq<byte>)
    requires Written(a, x, xs) && Written(b, y, ys)
    ensures Written(Pair(a, b), VPair(x, y), xs + ys)
  {
  }

  lemma Word64Written(n: uint64)
    ensures Written(UINT64, VInt(n), LittleEndian(n, 8))
  {
    UInt64Fits();
  }

  lemma UInt64Fits()
    ensures Pow256(8) == MAX_UINT64 + 1
  {
    UInt32Fits();
    assert Pow256(5) == 256 * Pow256(4);
    assert Pow256(6) == 256 * Pow256(5);
    assert Pow256(7) == 256 * Pow256(6);
  }

  lemma Word32Written(n: uint32)
    ensures Written(UINT32, VInt(n), LittleEndian(n, 4))
  {
    Word32Bytes(n);
  }

  lemma BoolWritten(b: bool)
    ensures Written(Bool, VBool(b), [if b then 1 else 0])
  {
  }

  lemma OptionWritten(inner: Schema, v: Option<Value>, bytes: Option<seq<byte>>)
    requires v.Some? <==> bytes.Some?
    requires v.Some? ==> Written(inner, v.value, bytes.value)
    ensures Written(Opt(inner), OptionValue(inner, v), OptionLayout(bytes))
  {
    DefaultTyped(inner);
  }

  lemma TimeoutsBytes(t: Timeouts)
    ensures Written(TIMEOUT_CONFIG, TimeoutsValue(t), TimeoutsLayout(t))
  {
    hide Written, LittleEndian, OptionValue, OptionLayout;
    if t.fastRound.Some? { Word64Written(t.fastRound.value); }
    Word64Written(t.base);
    Word64Written(t.increment);
    Word64Written(t.fallback);
    OptionWritten(TIME_DELTA, FastRoundValue(t.fastRound), FastRoundLayout(t.fastRound));
    var b, i, f := LittleEndian(t.base, 8), LittleEndian(t.increment, 8), LittleEndian(t.fallback, 8);
    PairWritten(TIME_DELTA, TIME_DELTA, VInt(t.increment), VInt(t.fallback), i, f);
    PairWritten(TIME_DELTA, Pair(TIME_DELTA, TIME_DELTA), VInt(t.base), VPair(VInt(t.increment), VInt(t.fallback)), b,
                i + f);
    PairWritten(Opt(TIME_DELTA), Pair(TIME_DELTA, Pair(TIME_DELTA, TIME_DELTA)),
                OptionValue(TIME_DELTA, FastRoundValue(t.fastRound)),
                VPair(VInt(t.base), VPair(VInt(t.increment), VInt(t.fallback))),
                OptionLayout(FastRoundLayout(t.fastRound)), b + (i + f));
  }

  lemma OwnersWritten(owners: seq<Owner>)
    requires |owners| <= MAX_UINT256 && forall x :: x in owners ==> ValidOwner(x)
    ensures Written(Seq(ACCOUNT_OWNER), VSeq(OwnerValues(owners)), ListLayout(OwnerLayouts(owners)))
  {
    hide WellMade, Encode, OwnerValue, OwnerLayout, Concat, EncodeLen;
    var items, parts := OwnerValues(owners), OwnerLayouts(owners);
    forall i | 0 <= i < |items| ensures Written(ACCOUNT_OWNER, items[i], parts[i]) {
      OwnerBytes(owners[i]);
    }
    hide Written;
    ListBytes(ACCOUNT_OWNER, items, parts);
  }

  lemma WeightedWritten(owners: seq<Weighted>)
    requires |owners| <= MAX_UINT256 && forall x :: x in owners ==> ValidOwner(x.owner)
    ensures Written(Seq(KEY_VALUES_ACCOUNT_OWNER_UINT64), VSeq(WeightedValues(owners)),
                    ListLayout(WeightedLayouts(owners)))
  {
    hide WellMade, Encode, OwnerValue, OwnerLayout, Concat, EncodeLen, LittleEndian;
    var items, parts := WeightedValues(owners), WeightedLayouts(owners);
    forall i | 0 <= i < |items| ensures Written(KEY_VALUES_ACCOUNT_OWNER_UINT64, items[i], parts[i]) {
      OwnerBytes(owners[i].owner);
      Word64Written(owners[i].weight);
      PairWritten(ACCOUNT_OWNER, UINT64, OwnerValue(owners[i].owner), VInt(owners[i].weight),
                  OwnerLayout(owners[i].owner), LittleEndian(owners[i].weight, 8));
    }
    hide Written;
    ListBytes(KEY_VALUES_ACCOUNT_OWNER_UINT64, items, parts);
  }

  /** The ownership of a chain is its super owners, its owners with their weights, its rounds, and its timeouts. */
  lemma OwnershipBytes(o: Ownership)
    requires ValidOwnership(o)
    ensures Written(CHAIN_OWNERSHIP, OwnershipValue(o), OwnershipLayout(o))
  {
    hide Written, OwnerValues, WeightedValues, ListLayout, LittleEndian, TimeoutsValue, TimeoutsLayout;
    OwnersWritten(o.superOwners);
    WeightedWritten(o.owners);
    Word32Written(o.multiLeaderRounds);
    BoolWritten(o.openMultiLeaderRounds);
    TimeoutsBytes(o.timeouts);
    var open, timeouts := VBool(o.openMultiLeaderRounds), TimeoutsValue(o.timeouts);
    var openBytes: seq<byte>, timeoutBytes := [if o.openMultiLeaderRounds then 1 else 0], TimeoutsLayout(o.timeouts);
    PairWritten(Bool, TIMEOUT_CONFIG, open, timeouts, openBytes, timeoutBytes);
    var rest, restBytes := VPair(open, timeouts), openBytes + timeoutBytes;
    var rounds, roundBytes := VInt(o.multiLeaderRounds), LittleEndian(o.multiLeaderRounds, 4);
    PairWritten(UINT32, Pair(Bool, TIMEOUT_CONFIG), rounds, rest, roundBytes, restBytes);
    PairWritten(Seq(KEY_VALUES_ACCOUNT_OWNER_UINT64), Pair(UINT32, Pair(Bool, TIMEOUT_CONFIG)),
                VSeq(WeightedValues(o.owners)), VPair(rounds, rest), ListLayout(WeightedLayouts(o.owners)),
                roundBytes + restBytes);
    PairWritten(Seq(ACCOUNT_OWNER),
                Pair(Seq(KEY_VALUES_ACCOUNT_OWNER_UINT64), Pair(UINT32, Pair(Bool, TIMEOUT_CONFIG))),
                VSeq(OwnerValues(o.superOwners)), VPair(VSeq(WeightedValues(o.owners)), VPair(rounds, rest)),
                ListLayout(OwnerLayouts(o.superOwners)),
                ListLayout(WeightedLayouts(o.owners)) + (roundBytes + restBytes));
  }

  /** An owner and a balance in 32 bytes. */
  datatype Holding = Holding(owner: Owner, amount: seq<byte>)

  function HoldingLayouts(holdings: seq<Holding>): seq<seq<byte>> {
    seq(|holdings|, i requires 0 <= i < |holdings| => OwnerLayout(holdings[i].owner) + holdings[i].amount)
  }

  function HoldingValues(holdings: seq<Holding>): seq<Value> {
    seq(|holdings|, i requires 0 <= i < |holdings| =>
      VPair(OwnerValue(holdings[i].owner), VBytes(holdings[i].amount)))
  }

  lemma HoldingsBytes(holdings: seq<Holding>)
    requires |holdings| <= MAX_UINT256
    requires forall x :: x in holdings ==> ValidOwner(x.owner) && |x.amount| == 32
    ensures Written(RESPONSE_READ_OWNER_BALANCES, VSeq(HoldingValues(holdings)), ListLayout(HoldingLayouts(holdings)))
  {
    hide WellMade, Encode, OwnerValue, OwnerLayout, Concat, EncodeLen;
    var items, parts := HoldingValues(holdings), HoldingLayouts(holdings);
    forall i | 0 <= i < |items| ensures Written(ACCOUNT_OWNER_BALANCE_INNER, items[i], parts[i]) {
      OwnerBytes(holdings[i].owner);
      HashBytes(holdings[i].amount);
      PairWritten(ACCOUNT_OWNER, AMOUNT, OwnerValue(holdings[i].owner), VBytes(holdings[i].amount),
                  OwnerLayout(holdings[i].owner), holdings[i].amount);
    }
    hide Written;
    ListBytes(ACCOUNT_OWNER_BALANCE_INNER, items, parts);
  }

  /** Whether a message comes back is one byte for whether there is one, and one for the answer. */
  lemma BouncingBytes(t: Tri)
    ensures Written(MESSAGE_IS_BOUNCING, VOptionBool(t),
                    match t case Neither => [0] case No => [1, 0] case Yes => [1, 1])
  {
  }

  /** The owners who hold something are listed; a round, a chain and an application may be missing. */
  lemma OtherAnswers(
      owners: seq<Owner>, round: Option<uint32>, hash: Option<seq<byte>>, owner: Option<Owner>)
    requires |owners| <= MAX_UINT256 && forall x :: x in owners ==> ValidOwner(x)
    requires (hash.Some? ==> |hash.value| == 32) && (owner.Some? ==> ValidOwner(owner.value))
    ensures Written(RESPONSE_READ_BALANCE_OWNERS, VSeq(OwnerValues(owners)), ListLayout(OwnerLayouts(owners)))
    ensures
      var v := if round.Some? then Some(VInt(round.value)) else None;
      var bytes := if round.Some? then Some(LittleEndian(round.value, 4)) else None;
      Written(OPTION_U32, OptionValue(UINT32, v), OptionLayout(bytes))
    ensures
      var v := if hash.Some? then Some(VBytes(hash.value)) else None;
      && Written(OPTION_CHAIN_ID, OptionValue(CHAIN_ID, v), OptionLayout(hash))
      && Written(OPTION_APPLICATION_ID, OptionValue(APPLICATION_ID, v), OptionLayout(hash))
    ensures
      var v := if owner.Some? then Some(OwnerValue(owner.value)) else None;
      var bytes := if owner.Some? then Some(OwnerLayout(owner.value)) else None;
      Written(OPTION_ACCOUNT_OWNER, OptionValue(ACCOUNT_OWNER, v), OptionLayout(bytes))
  {
    hide Encode, WellMade, OptionValue, OptionLayout, OwnerValue, OwnerLayout, LittleEndian, OwnerValues, OwnerLayouts;
    OwnersWritten(owners);
    if round.Some? { Word32Bytes(round.value); }
    if hash.Some? { HashBytes(hash.value); }
    if owner.Some? { OwnerBytes(owner.value); }
    OptionWritten(UINT32, if round.Some? then Some(VInt(round.value)) else None,
                  if round.Some? then Some(LittleEndian(round.value, 4)) else None);
    OptionWritten(CHAIN_ID, if hash.Some? then Some(VBytes(hash.value)) else None, hash);
    OptionWritten(ACCOUNT_OWNER, if owner.Some? then Some(OwnerValue(owner.value)) else None,
                  if owner.Some? then Some(OwnerLayout(owner.value)) else None);
  }
}
