/** The types of the Solidity library, each a schema, and what the codec's theorems say of the two largest families. */
module BcsTypes {
  import opened Wrappers
  import opened Words
  import opened BcsCodec

  const UINT8 := UInt(1)
  const UINT32 := UInt(4)
  const UINT64 := UInt(8)

  const CRYPTO_HASH := Fixed(32)
  const AMOUNT := Fixed(32)
  const CHAIN_ID := CRYPTO_HASH
  const APPLICATION_ID := CRYPTO_HASH
  const DATA_BLOB_HASH := CRYPTO_HASH
  const BLOCK_HEIGHT := UINT64
  const TIME_DELTA := UINT64
  const TIMESTAMP := UINT64
  const STREAM_NAME := Bytes

  /** Reserved, Address32, Address20. */
  const ACCOUNT_OWNER := Union(Pair(UINT8, Pair(CRYPTO_HASH, Pair(Fixed(20), Unit))))

  /** System, User. */
  const GENERIC_APPLICATION_ID := Union(Pair(Unit, Pair(APPLICATION_ID, Unit)))

  const STREAM_ID := Pair(GENERIC_APPLICATION_ID, STREAM_NAME)

  // ---------------------------------------------------------------- requests

  /** The payloads of a union's cases, in order. A case without one has the schema Unit. */
  function CasesOf(payloads: seq<Schema>): Schema {
    if payloads == [] then Unit else Pair(payloads[0], CasesOf(payloads[1..]))
  }

  /** Cases 5, 9 and 10 carry a payload. */
  const BASE_PAYLOADS :=
    [Unit, Unit, Unit, Unit, Unit, ACCOUNT_OWNER, Unit, Unit, Unit, DATA_BLOB_HASH, DATA_BLOB_HASH]

  const BASE_RUNTIME_PRECOMPILE := Union(CasesOf(BASE_PAYLOADS))

  const SEND_MESSAGE := Pair(CHAIN_ID, Bytes)
  const TRY_CALL_APPLICATION := Pair(APPLICATION_ID, Bytes)
  const EMIT := Pair(STREAM_NAME, Bytes)
  const READ_EVENT := Pair(CHAIN_ID, Pair(STREAM_NAME, UINT32))
  const SUBSCRIBE_TO_EVENTS := Pair(CHAIN_ID, Pair(APPLICATION_ID, STREAM_NAME))
  const UNSUBSCRIBE_FROM_EVENTS := Pair(CHAIN_ID, Pair(APPLICATION_ID, STREAM_NAME))
  const QUERY_SERVICE := Pair(APPLICATION_ID, Bytes)

  /** Cases 4 to 10 carry a payload. */
  const CONTRACT_PAYLOADS :=
    [Unit, Unit, Unit, Unit, SEND_MESSAGE, TRY_CALL_APPLICATION, EMIT, READ_EVENT, SUBSCRIBE_TO_EVENTS,
     UNSUBSCRIBE_FROM_EVENTS, QUERY_SERVICE, Unit]

  const CONTRACT_RUNTIME_PRECOMPILE := Union(CasesOf(CONTRACT_PAYLOADS))

  const TRY_QUERY_APPLICATION := Pair(APPLICATION_ID, Bytes)

  const SERVICE_PAYLOADS := [TRY_QUERY_APPLICATION]

  const SERVICE_RUNTIME_PRECOMPILE := Union(CasesOf(SERVICE_PAYLOADS))

  const RUNTIME_PRECOMPILE :=
    Union(Pair(BASE_RUNTIME_PRECOMPILE, Pair(CONTRACT_RUNTIME_PRECOMPILE, Pair(SERVICE_RUNTIME_PRECOMPILE, Unit))))

  // ---------------------------------------------------------------- answers

  const STREAM_UPDATE := Pair(CHAIN_ID, Pair(STREAM_ID, Pair(UINT32, UINT32)))
  const STREAM_UPDATES := Seq(STREAM_UPDATE)
  const TIMEOUT_CONFIG := Pair(Opt(TIME_DELTA), Pair(TIME_DELTA, Pair(TIME_DELTA, TIME_DELTA)))
  const KEY_VALUES_ACCOUNT_OWNER_UINT64 := Pair(ACCOUNT_OWNER, UINT64)
  const CHAIN_OWNERSHIP :=
    Pair(Seq(ACCOUNT_OWNER), Pair(Seq(KEY_VALUES_ACCOUNT_OWNER_UINT64), Pair(UINT32, Pair(Bool, TIMEOUT_CONFIG))))
  const ACCOUNT_OWNER_BALANCE_INNER := Pair(ACCOUNT_OWNER, AMOUNT)
  const RESPONSE_READ_OWNER_BALANCES := Seq(ACCOUNT_OWNER_BALANCE_INNER)
  const RESPONSE_READ_BALANCE_OWNERS := Seq(ACCOUNT_OWNER)
  const OPTION_ACCOUNT_OWNER := Opt(ACCOUNT_OWNER)
  const OPTION_APPLICATION_ID := Opt(APPLICATION_ID)
  const OPTION_CHAIN_ID := Opt(CHAIN_ID)
  const OPTION_U32 := Opt(UINT32)
  const MESSAGE_IS_BOUNCING := OptionBool

  // ---------------------------------------------------------------- case constructors

  /** A union built by a case constructor: the given payload and defaults for all other cases. */
  function CaseOf(cases: Schema, choice: nat, payload: Value): Value {
    match cases
    case Pair(first, rest) =>
      if choice == 0 then VPair(payload, Default(rest)) else VPair(Default(first), CaseOf(rest, choice - 1, payload))
    case _ => Default(cases)
  }

  /** The payload type of a case. */
  function PayloadOf(cases: Schema, choice: nat): Schema
    requires choice < Count(cases)
  {
    if choice == 0 then cases.first else PayloadOf(cases.second, choice - 1)
  }

  /** Case constructors build exactly the values that survive a round trip, from payloads that do. */
  lemma {:induction false} CasesAreMade(cases: Schema, choice: nat, payload: Value)
    requires choice < Count(cases) && WellMade(PayloadOf(cases, choice), payload)
    ensures var f := CaseOf(cases, choice, payload);
      Typed(cases, f) && DecodableCase(cases, choice, f) && MadeCase(cases, choice, f)
  {
    DefaultTyped(cases.first);
    DefaultTyped(cases.second);
    if choice > 0 {
      CasesAreMade(cases.second, choice - 1, payload);
    }
  }

  function Request(choice: byte, payload: Value): Value {
    VUnion(choice, CaseOf(RUNTIME_PRECOMPILE.cases, choice, payload))
  }

  lemma UnionIsMade(cases: Schema, choice: byte, payload: Value)
    requires choice < Count(cases) && WellMade(PayloadOf(cases, choice), payload)
    ensures WellMade(Union(cases), VUnion(choice, CaseOf(cases, choice, payload)))
  {
    CasesAreMade(cases, choice, payload);
  }

  lemma RequestCases()
    ensures Count(RUNTIME_PRECOMPILE.cases) == 3
  {
    hide CasesOf;
    var cases := RUNTIME_PRECOMPILE.cases;
    assert Count(cases) == 1 + Count(cases.second) == 2 + Count(cases.second.second);
  }

  lemma RequestIsMade(choice: byte, payload: Value)
    requires choice < Count(RUNTIME_PRECOMPILE.cases) && WellMade(PayloadOf(RUNTIME_PRECOMPILE.cases, choice), payload)
    ensures WellMade(RUNTIME_PRECOMPILE, Request(choice, payload))
  {
    hide CaseOf, PayloadOf, Count, WellMade;
    RequestCases();
    UnionIsMade(RUNTIME_PRECOMPILE.cases, choice, payload);
  }

  /** Every request built by the case constructors is recovered at any offset, between any bytes. */
  lemma RequestRoundTrip(choice: byte, payload: Value, pre: seq<byte>, post: seq<byte>, beyond: (nat, nat) -> byte)
    requires choice < Count(RUNTIME_PRECOMPILE.cases) && WellMade(PayloadOf(RUNTIME_PRECOMPILE.cases, choice), payload)
    ensures var v := Request(choice, payload);
      && Typed(RUNTIME_PRECOMPILE, v)
      && var bytes := Encode(RUNTIME_PRECOMPILE, v);
      && (|pre + bytes + post| <= MAX_UINT256 ==>
        Decode(RUNTIME_PRECOMPILE, |pre|, Memory(pre + bytes + post, beyond)) == Some(Parsed(|pre| + |bytes|, v)))
  {
    hide Encode, Decode, Made, Decodable, Typed, Request, PayloadOf;
    RequestIsMade(choice, payload);
    WellMadeRoundTrip(RUNTIME_PRECOMPILE, Request(choice, payload), pre, post, beyond);
  }

  /** No request's encoding begins another's, and equal encodings come from equal requests. */
  lemma RequestsArePrefixFree(choice: byte, payload: Value, choice': byte, payload': Value)
    requires choice < Count(RUNTIME_PRECOMPILE.cases) && WellMade(PayloadOf(RUNTIME_PRECOMPILE.cases, choice), payload)
    requires choice' < Count(RUNTIME_PRECOMPILE.cases)
    requires WellMade(PayloadOf(RUNTIME_PRECOMPILE.cases, choice'), payload')
    ensures var v, w := Request(choice, payload), Request(choice', payload');
      && Typed(RUNTIME_PRECOMPILE, v) && Typed(RUNTIME_PRECOMPILE, w)
      && (Encode(RUNTIME_PRECOMPILE, v) <= Encode(RUNTIME_PRECOMPILE, w)
          && |Encode(RUNTIME_PRECOMPILE, w)| <= MAX_UINT256
          ==> choice == choice' && payload == payload')
  {
    hide Encode, Made, Decodable, Typed, CaseOf, PayloadOf;
    var v, w := Request(choice, payload), Request(choice', payload');
    RequestIsMade(choice, payload);
    RequestIsMade(choice', payload');
    if Encode(RUNTIME_PRECOMPILE, v) <= Encode(RUNTIME_PRECOMPILE, w)
        && |Encode(RUNTIME_PRECOMPILE, w)| <= MAX_UINT256 {
      PrefixFree(RUNTIME_PRECOMPILE, v, w);
      CasesDetermine(RUNTIME_PRECOMPILE.cases, choice, payload, payload');
    }
  }

  lemma {:induction false} CasesDetermine(cases: Schema, choice: nat, payload: Value, payload': Value)
    requires choice < Count(cases)
    requires CaseOf(cases, choice, payload) == CaseOf(cases, choice, payload')
    ensures payload == payload'
  {
    if choice > 0 {
      CasesDetermine(cases.second, choice - 1, payload, payload');
    }
  }

  // ---------------------------------------------------------------- stream updates

  /** An entry of a list of updates; the stream belongs to the system, or to a user application. */
  datatype StreamUpdate = StreamUpdate(
    chainId: seq<byte>, application: Option<seq<byte>>, streamName: seq<byte>, previousIndex: uint32, nextIndex: uint32)

  predicate Valid(u: StreamUpdate) {
    |u.chainId| == 32 && (u.application.Some? ==> |u.application.value| == 32) && |u.streamName| <= MAX_UINT256
  }

  function ApplicationValue(application: Option<seq<byte>>): Value {
    match application
    case None => VUnion(0, CaseOf(GENERIC_APPLICATION_ID.cases, 0, VUnit))
    case Some(user) => VUnion(1, CaseOf(GENERIC_APPLICATION_ID.cases, 1, VBytes(user)))
  }

  function UpdateValue(u: StreamUpdate): Value {
    VPair(VBytes(u.chainId), VPair(VPair(ApplicationValue(u.application), VBytes(u.streamName)),
        VPair(VInt(u.previousIndex), VInt(u.nextIndex))))
  }

  function UpdateValues(updates: seq<StreamUpdate>): Value {
    VSeq(seq(|updates|, i requires 0 <= i < |updates| => UpdateValue(updates[i])))
  }

  lemma UpdateIsMade(u: StreamUpdate)
    requires Valid(u)
    ensures WellMade(STREAM_UPDATE, UpdateValue(u))
  {
    ApplicationIsMade(u.application);
    UInt32Fits();
    hide ApplicationValue, Pow256;
    var id := VPair(ApplicationValue(u.application), VBytes(u.streamName));
    PairIsMade(GENERIC_APPLICATION_ID, STREAM_NAME, id);
    var indices := VPair(VInt(u.previousIndex), VInt(u.nextIndex));
    PairIsMade(UINT32, UINT32, indices);
    PairIsMade(STREAM_ID, Pair(UINT32, UINT32), VPair(id, indices));
    PairIsMade(CHAIN_ID, Pair(STREAM_ID, Pair(UINT32, UINT32)), UpdateValue(u));
  }

  lemma PairIsMade(a: Schema, b: Schema, v: Value)
    requires v.VPair? && WellMade(a, v.first) && WellMade(b, v.second)
    ensures WellMade(Pair(a, b), v)
  {
  }

  lemma UInt32Fits()
    ensures Pow256(4) == MAX_UINT32 + 1
  {
    assert Pow256(2) == 256 * Pow256(1);
    assert Pow256(3) == 256 * Pow256(2);
  }

  lemma ApplicationIsMade(application: Option<seq<byte>>)
    requires application.Some? ==> |application.value| == 32
    ensures WellMade(GENERIC_APPLICATION_ID, ApplicationValue(application))
  {
    match application
    case None => CasesAreMade(GENERIC_APPLICATION_ID.cases, 0, VUnit);
    case Some(user) => CasesAreMade(GENERIC_APPLICATION_ID.cases, 1, VBytes(user));
  }

  lemma UpdatesAreMade(updates: seq<StreamUpdate>)
    requires |updates| <= MAX_UINT256 && forall u :: u in updates ==> Valid(u)
    ensures WellMade(STREAM_UPDATES, UpdateValues(updates))
  {
    hide UpdateValue;
    forall i | 0 <= i < |updates| ensures WellMade(STREAM_UPDATE, UpdateValue(updates[i])) {
      UpdateIsMade(updates[i]);
    }
  }

  /** A list of updates is recovered at any offset, between any bytes. */
  lemma UpdatesRoundTrip(updates: seq<StreamUpdate>, pre: seq<byte>, post: seq<byte>, beyond: (nat, nat) -> byte)
    requires |updates| <= MAX_UINT256 && forall u :: u in updates ==> Valid(u)
    ensures var v := UpdateValues(updates);
      && Typed(STREAM_UPDATES, v)
      && var bytes := Encode(STREAM_UPDATES, v);
      && (|pre + bytes + post| <= MAX_UINT256 ==>
        Decode(STREAM_UPDATES, |pre|, Memory(pre + bytes + post, beyond)) == Some(Parsed(|pre| + |bytes|, v)))
  {
    hide Encode, Decode, Made, Decodable, Typed, UpdateValues;
    UpdatesAreMade(updates);
    WellMadeRoundTrip(STREAM_UPDATES, UpdateValues(updates), pre, post, beyond);
  }

  /** Lists of updates with encodings of which one begins the other are equal. */
  lemma UpdatesArePrefixFree(updates: seq<StreamUpdate>, updates': seq<StreamUpdate>)
    requires |updates| <= MAX_UINT256 && forall u :: u in updates ==> Valid(u)
    requires |updates'| <= MAX_UINT256 && forall u :: u in updates' ==> Valid(u)
    ensures var v, w := UpdateValues(updates), UpdateValues(updates');
      && Typed(STREAM_UPDATES, v) && Typed(STREAM_UPDATES, w)
      && (Encode(STREAM_UPDATES, v) <= Encode(STREAM_UPDATES, w) && |Encode(STREAM_UPDATES, w)| <= MAX_UINT256
          ==> updates == updates')
  {
    UpdatesAreMade(updates);
    UpdatesAreMade(updates');
    var v, w := UpdateValues(updates), UpdateValues(updates');
    if v == w {
      UpdateValuesDetermine(updates, updates');
    }
    hide Encode, Decode, Made, Decodable, Typed, UpdateValues;
    if Encode(STREAM_UPDATES, v) <= Encode(STREAM_UPDATES, w) && |Encode(STREAM_UPDATES, w)| <= MAX_UINT256 {
      PrefixFree(STREAM_UPDATES, v, w);
    }
  }

  lemma UpdateValuesDetermine(updates: seq<StreamUpdate>, updates': seq<StreamUpdate>)
    requires UpdateValues(updates) == UpdateValues(updates')
    ensures updates == updates'
  {
    assert |UpdateValues(updates).items| == |UpdateValues(updates').items|;
    forall i | 0 <= i < |updates| ensures updates[i] == updates'[i] {
      assert UpdateValues(updates).items[i] == UpdateValues(updates').items[i];
      UpdateDetermines(updates[i], updates'[i]);
    }
  }

  lemma UpdateDetermines(u: StreamUpdate, u': StreamUpdate)
    requires UpdateValue(u) == UpdateValue(u')
    ensures u == u'
  {
    if u.application.Some? && u'.application.Some? {
      CasesDetermine(GENERIC_APPLICATION_ID.cases, 1, VBytes(u.application.value), VBytes(u'.application.value));
    }
  }
}
