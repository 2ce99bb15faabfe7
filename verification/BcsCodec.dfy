/**
 * The generated codec. Every type of the Solidity library is a schema, every Solidity value of it a value, and its
 * encoder and decoder are those of the schema.
 */
module BcsCodec {
  import opened Wrappers
  import opened Words
  import opened BcsLength

  /** Pairs chain the fields of a struct; in a union they chain the payloads of its cases and end with Unit. */
  datatype Schema =
    | Unit
    | UInt(size: nat)
    | Bool
    | OptionBool
    | Bytes
    | Fixed(size: nat)
    | Seq(element: Schema)
    | Opt(inner: Schema)
    | Pair(first: Schema, second: Schema)
    | Union(cases: Schema)

  datatype Tri = Neither | Yes | No

  /**
   * A Solidity value. The struct of a union carries the payloads of all cases beside the choice, and that of an option
   * a value beside the flag; the ones not chosen are meant to be default values but need not be.
   */
  datatype Value =
    | VUnit
    | VInt(n: nat)
    | VBool(b: bool)
    | VOptionBool(t: Tri)
    | VBytes(bytes: seq<byte>)
    | VSeq(items: seq<Value>)
    | VOpt(hasValue: bool, value: Value)
    | VPair(first: Value, second: Value)
    | VUnion(choice: byte, payloads: Value)

  // ---------------------------------------------------------------- integers

  function Pow256(k: nat): (p: nat)
    ensures p > 0
  {
    if k == 0 then 1 else 256 * Pow256(k - 1)
  }

  function LittleEndian(n: nat, size: nat): (bytes: seq<byte>)
    ensures |bytes| == size
  {
    if size == 0 then [] else [n % 256] + LittleEndian(n / 256, size - 1)
  }

  function FromLittleEndian(bytes: seq<byte>): (n: nat)
    ensures n < Pow256(|bytes|)
  {
    if |bytes| == 0 then 0 else bytes[0] + 256 * FromLittleEndian(bytes[1..])
  }

  lemma {:induction false} LittleEndianRoundTrip(n: nat, size: nat)
    requires n < Pow256(size)
    ensures FromLittleEndian(LittleEndian(n, size)) == n
  {
    if size > 0 {
      LittleEndianRoundTrip(n / 256, size - 1);
      assert LittleEndian(n, size)[1..] == LittleEndian(n / 256, size - 1);
    }
  }

  // ---------------------------------------------------------------- values of a schema

  ghost predicate Typed(s: Schema, v: Value) {
    match (s, v)
    case (Unit, VUnit) => true
    case (UInt(size), VInt(n)) => n < Pow256(size)
    case (Bool, VBool(_)) => true
    case (OptionBool, VOptionBool(_)) => true
    case (Bytes, VBytes(bytes)) => |bytes| <= MAX_UINT256
    case (Fixed(size), VBytes(bytes)) => |bytes| == size
    case (Seq(element), VSeq(items)) => |items| <= MAX_UINT256 && forall i :: 0 <= i < |items| ==>
        Typed(element, items[i])
    case (Opt(inner), VOpt(_, value)) => Typed(inner, value)
    case (Pair(a, b), VPair(x, y)) => Typed(a, x) && Typed(b, y)
    case (Union(cases), VUnion(_, payloads)) => Typed(cases, payloads)
    case _ => false
  }

  ghost predicate AllTyped(element: Schema, items: seq<Value>) {
    forall i :: 0 <= i < |items| ==> Typed(element, items[i])
  }

  /** Uninitialized Solidity memory. */
  function Default(s: Schema): Value {
    match s
    case Unit => VUnit
    case UInt(_) => VInt(0)
    case Bool => VBool(false)
    case OptionBool => VOptionBool(Neither)
    case Bytes => VBytes([])
    case Fixed(size) => VBytes(seq(size, _ => 0))
    case Seq(_) => VSeq([])
    case Opt(inner) => VOpt(false, Default(inner))
    case Pair(a, b) => VPair(Default(a), Default(b))
    case Union(cases) => VUnion(0, Default(cases))
  }

  lemma {:induction false} DefaultTyped(s: Schema)
    ensures Typed(s, Default(s))
  {
    match s
    case Opt(inner) => DefaultTyped(inner);
    case Pair(a, b) => DefaultTyped(a); DefaultTyped(b);
    case Union(cases) => DefaultTyped(cases);
    case _ =>
  }

  /** The number of cases of a union. */
  function Count(cases: Schema): nat {
    match cases
    case Pair(_, rest) => 1 + Count(rest)
    case _ => 0
  }

  // ---------------------------------------------------------------- encoding

  function Encode(s: Schema, v: Value): seq<byte>
    requires Typed(s, v)
    decreases s, 0, 0
  {
    match s
    case Unit => []
    case UInt(size) => LittleEndian(v.n, size)
    case Bool => [if v.b then 1 else 0]
    case OptionBool => if v.t == Neither then [0] else if v.t == No then [1, 0] else [1, 1]
    case Bytes => EncodeLen(|v.bytes|) + v.bytes
    case Fixed(_) => v.bytes
    case Seq(element) => EncodeLen(|v.items|) + EncodeAll(element, v.items)
    case Opt(inner) => if v.hasValue then [1] + Encode(inner, v.value) else [0]
    case Pair(a, b) => Encode(a, v.first) + Encode(b, v.second)
    case Union(cases) => [v.choice] + EncodeCase(cases, v.choice, v.payloads)
  }

  function EncodeAll(element: Schema, items: seq<Value>): seq<byte>
    requires AllTyped(element, items)
    decreases element, 1, |items|
  {
    if items == [] then [] else Encode(element, items[0]) + EncodeAll(element, items[1..])
  }

  /** A choice outside the cases has no payload and is encoded all the same. */
  function EncodeCase(cases: Schema, choice: nat, payloads: Value): seq<byte>
    requires Typed(cases, payloads)
    decreases cases, 1, 0
  {
    match cases
    case Pair(payload, rest) =>
      if choice == 0 then Encode(payload, payloads.first) else EncodeCase(rest, choice - 1, payloads.second)
    case _ => []
  }

  // ---------------------------------------------------------------- decoding

  /**
   * The input and whatever lies in memory behind it, which unchecked loads can read. A decoder allocates memory as it
   * goes, so what lies there may differ from load to load: `beyond` is told the position of the load.
   */
  datatype Memory = Memory(input: seq<byte>, beyond: (nat, nat) -> byte)

  datatype Parsed = Parsed(pos: nat, value: Value)

  datatype ParsedAll = ParsedAll(pos: nat, items: seq<Value>)

  /** A load of `size` bytes without a bounds check. */
  function Load(mem: Memory, pos: nat, size: nat): (bytes: seq<byte>)
    ensures |bytes| == size
    ensures forall i :: 0 <= i < size ==> bytes[i] == ByteAt(mem, pos, pos + i)
  {
    if size == 0 then [] else Load(mem, pos, size - 1) + [ByteAt(mem, pos, pos + size - 1)]
  }

  /** The byte at `i` as a load at `pos` sees it. */
  function ByteAt(mem: Memory, pos: nat, i: nat): byte {
    if i < |mem.input| then mem.input[i] else mem.beyond(pos, i - |mem.input|)
  }

  function Decode(s: Schema, pos: nat, mem: Memory): Option<Parsed>
    decreases s, 0, 0
  {
    match s
    case Unit => Some(Parsed(pos, VUnit))
    case UInt(size) =>
      if pos + size <= |mem.input| then Some(Parsed(pos + size, VInt(FromLittleEndian(mem.input[pos..pos + size]))))
          else None
    case Bool =>
      var b :- DecodeBool(pos, mem.input);
      Some(Parsed(pos + 1, VBool(b)))
    case OptionBool =>
      if pos >= |mem.input| || mem.input[pos] > 1 then None
      else if mem.input[pos] == 0 then Some(Parsed(pos + 1, VOptionBool(Neither)))
      else
        var b :- DecodeBool(pos + 1, mem.input);
        Some(Parsed(pos + 2, VOptionBool(if b then Yes else No)))
    case Bytes =>
      var n :- DecodeLen(pos, mem.input);
      if n.pos + n.value <= |mem.input|
      then Some(Parsed(n.pos + n.value, VBytes(mem.input[n.pos..n.pos + n.value])))
      else None
    case Fixed(size) =>
      if pos + size <= MAX_UINT256 then Some(Parsed(pos + size, VBytes(Load(mem, pos, size)))) else None
    case Seq(element) =>
      var n :- DecodeLen(pos, mem.input);
      var r :- DecodeAll(element, n.value, n.pos, mem);
      Some(Parsed(r.pos, VSeq(r.items)))
    case Opt(inner) =>
      var hasValue :- DecodeBool(pos, mem.input);
      if hasValue then
        var r :- Decode(inner, pos + 1, mem);
        Some(Parsed(r.pos, VOpt(true, r.value)))
      else Some(Parsed(pos + 1, VOpt(false, Default(inner))))
    case Pair(a, b) =>
      var x :- Decode(a, pos, mem);
      var y :- Decode(b, x.pos, mem);
      Some(Parsed(y.pos, VPair(x.value, y.value)))
    case Union(cases) =>
      if pos >= |mem.input| then None
      else
        var choice := mem.input[pos];
        var r :- DecodeCase(cases, choice, pos + 1, mem);
        if choice < Count(cases) then Some(Parsed(r.pos, VUnion(choice, r.value))) else None
  }

  function DecodeBool(pos: nat, input: seq<byte>): Option<bool> {
    if pos >= |input| || input[pos] > 1 then None else Some(input[pos] == 1)
  }

  function DecodeAll(element: Schema, n: nat, pos: nat, mem: Memory): Option<ParsedAll>
    decreases element, 1, n
  {
    if n == 0 then Some(ParsedAll(pos, []))
    else
      var x :- Decode(element, pos, mem);
      var r :- DecodeAll(element, n - 1, x.pos, mem);
      Some(ParsedAll(r.pos, [x.value] + r.items))
  }

  /** The payload of the chosen case, and defaults for all others. */
  function DecodeCase(cases: Schema, choice: nat, pos: nat, mem: Memory): Option<Parsed>
    decreases cases, 1, 0
  {
    match cases
    case Pair(payload, rest) =>
      if choice == 0 then
        var r :- Decode(payload, pos, mem);
        Some(Parsed(r.pos, VPair(r.value, Default(rest))))
      else
        var r :- DecodeCase(rest, choice - 1, pos, mem);
        Some(Parsed(r.pos, VPair(Default(payload), r.value)))
    case _ => Some(Parsed(pos, Default(cases)))
  }

  /** A complete decoder starts at zero and must end exactly where the input does. */
  function Deserialize(s: Schema, input: seq<byte>, beyond: (nat, nat) -> byte): Option<Value> {
    var r :- Decode(s, 0, Memory(input, beyond));
    if r.pos == |input| then Some(r.value) else None
  }

  // ---------------------------------------------------------------- which values survive

  /** Every choice that gets encoded is one of the cases. */
  ghost predicate Decodable(s: Schema, v: Value)
    requires Typed(s, v)
    decreases s, 0
  {
    match s
    case Seq(element) => forall i :: 0 <= i < |v.items| ==> Decodable(element, v.items[i])
    case Opt(inner) => v.hasValue ==> Decodable(inner, v.value)
    case Pair(a, b) => Decodable(a, v.first) && Decodable(b, v.second)
    case Union(cases) => v.choice < Count(cases) && DecodableCase(cases, v.choice, v.payloads)
    case _ => true
  }

  ghost predicate DecodableCase(cases: Schema, choice: nat, payloads: Value)
    requires Typed(cases, payloads)
    decreases cases, 1
  {
    match cases
    case Pair(payload, rest) =>
      if choice == 0 then Decodable(payload, payloads.first) else DecodableCase(rest, choice - 1, payloads.second)
    case _ => true
  }

  /** The value as its case constructors build it: whatever is not chosen is a default. */
  ghost predicate Made(s: Schema, v: Value)
    requires Typed(s, v)
    decreases s, 0
  {
    match s
    case Seq(element) => forall i :: 0 <= i < |v.items| ==> Made(element, v.items[i])
    case Opt(inner) => if v.hasValue then Made(inner, v.value) else v.value == Default(inner)
    case Pair(a, b) => Made(a, v.first) && Made(b, v.second)
    case Union(cases) => MadeCase(cases, v.choice, v.payloads)
    case _ => true
  }

  ghost predicate MadeCase(cases: Schema, choice: nat, payloads: Value)
    requires Typed(cases, payloads)
    decreases cases, 1
  {
    match cases
    case Pair(payload, rest) =>
      if choice == 0 then Made(payload, payloads.first) && payloads.second == Default(rest)
      else payloads.first == Default(payload) && MadeCase(rest, choice - 1, payloads.second)
    case _ => payloads == Default(cases)
  }

  /** A value that case constructors build and that has an encoding every decoder takes back. */
  ghost predicate WellMade(s: Schema, v: Value) {
    Typed(s, v) && Decodable(s, v) && Made(s, v)
  }

  /** The value with everything that is not chosen reset to defaults. */
  function Canonical(s: Schema, v: Value): Value
    requires Typed(s, v)
    decreases s, 0, 0
  {
    match s
    case Seq(element) => VSeq(CanonicalAll(element, v.items))
    case Opt(inner) => VOpt(v.hasValue, if v.hasValue then Canonical(inner, v.value) else Default(inner))
    case Pair(a, b) => VPair(Canonical(a, v.first), Canonical(b, v.second))
    case Union(cases) => VUnion(v.choice, CanonicalCase(cases, v.choice, v.payloads))
    case _ => v
  }

  function CanonicalAll(element: Schema, items: seq<Value>): (r: seq<Value>)
    requires AllTyped(element, items)
    ensures |r| == |items|
    decreases element, 1, |items|
  {
    if items == [] then [] else [Canonical(element, items[0])] + CanonicalAll(element, items[1..])
  }

  function CanonicalCase(cases: Schema, choice: nat, payloads: Value): Value
    requires Typed(cases, payloads)
    decreases cases, 1, 0
  {
    match cases
    case Pair(payload, rest) =>
      if choice == 0 then VPair(Canonical(payload, payloads.first), Default(rest))
      else VPair(Default(payload), CanonicalCase(rest, choice - 1, payloads.second))
    case _ => Default(cases)
  }

  lemma {:induction false} CanonicalIffMade(s: Schema, v: Value)
    requires Typed(s, v)
    ensures Canonical(s, v) == v <==> Made(s, v)
    decreases s, 0, 0
  {
    match s
    case Seq(element) => CanonicalAllIffMade(element, v.items);
    case Opt(inner) => CanonicalIffMade(inner, v.value);
    case Pair(a, b) => CanonicalIffMade(a, v.first); CanonicalIffMade(b, v.second);
    case Union(cases) => CanonicalCaseIffMade(cases, v.choice, v.payloads);
    case _ =>
  }

  lemma {:induction false} CanonicalAllIffMade(element: Schema, items: seq<Value>)
    requires AllTyped(element, items)
    ensures CanonicalAll(element, items) == items <==> forall i :: 0 <= i < |items| ==> Made(element, items[i])
    decreases element, 1, |items|
  {
    if items != [] {
      CanonicalIffMade(element, items[0]);
      CanonicalAllIffMade(element, items[1..]);
      assert items == [items[0]] + items[1..];
      var c := CanonicalAll(element, items);
      assert c[0] == Canonical(element, items[0]) && c[1..] == CanonicalAll(element, items[1..]);
      assert forall i :: 1 <= i < |items| ==> items[i] == items[1..][i - 1];
    }
  }

  lemma {:induction false} CanonicalCaseIffMade(cases: Schema, choice: nat, payloads: Value)
    requires Typed(cases, payloads)
    ensures CanonicalCase(cases, choice, payloads) == payloads <==> MadeCase(cases, choice, payloads)
    decreases cases, 1, 0
  {
    match cases
    case Pair(payload, rest) =>
      if choice == 0 {
        CanonicalIffMade(payload, payloads.first);
      } else {
        CanonicalCaseIffMade(rest, choice - 1, payloads.second);
      }
    case _ =>
  }

  // ---------------------------------------------------------------- round trip

  /** The bytes stand in the input at this position. */
  ghost predicate Stands(bytes: seq<byte>, pos: nat, input: seq<byte>) {
    pos + |bytes| <= |input| && input[pos..pos + |bytes|] == bytes
  }

  lemma StandsSplit(a: seq<byte>, b: seq<byte>, pos: nat, input: seq<byte>)
    requires Stands(a + b, pos, input)
    ensures Stands(a, pos, input) && Stands(b, pos + |a|, input)
  {
    var slice := input[pos..pos + |a + b|];
    assert a == slice[..|a|] == input[pos..pos + |a|];
    assert b == slice[|a|..] == input[pos + |a|..pos + |a| + |b|];
  }

  lemma StandsAt(bytes: seq<byte>, pos: nat, input: seq<byte>, i: nat)
    requires Stands(bytes, pos, input) && i < |bytes|
    ensures input[pos + i] == bytes[i]
  {
    assert input[pos..pos + |bytes|][i] == bytes[i];
  }

  /**
   * Decoding what was encoded yields the canonical value and the position behind it, or fails for a choice without a
   * case.
   */
  lemma {:induction false} DecodeEncoded(s: Schema, v: Value, pos: nat, mem: Memory)
    requires Typed(s, v)
    requires Stands(Encode(s, v), pos, mem.input) && |mem.input| <= MAX_UINT256
    ensures Decode(s, pos, mem) ==
      if Decodable(s, v) then Some(Parsed(pos + |Encode(s, v)|, Canonical(s, v))) else None
    decreases s, 3, 0
  {
    hide *;
    match s
    case Seq(_) => DecodeEncodedSeq(s, v, pos, mem);
    case Opt(_) => DecodeEncodedOpt(s, v, pos, mem);
    case Pair(_, _) => DecodeEncodedPair(s, v, pos, mem);
    case Union(_) => DecodeEncodedUnion(s, v, pos, mem);
    case _ => DecodeEncodedBase(s, v, pos, mem);
  }

  lemma DecodeEncodedBase(s: Schema, v: Value, pos: nat, mem: Memory)
    requires !s.Seq? && !s.Opt? && !s.Pair? && !s.Union?
    requires Typed(s, v)
    requires Stands(Encode(s, v), pos, mem.input) && |mem.input| <= MAX_UINT256
    ensures Decode(s, pos, mem) ==
      if Decodable(s, v) then Some(Parsed(pos + |Encode(s, v)|, Canonical(s, v))) else None
  {
    var bytes := Encode(s, v);
    match s
    case Unit =>
    case UInt(size) =>
      LittleEndianRoundTrip(v.n, size);
    case Bool =>
      StandsAt(bytes, pos, mem.input, 0);
    case OptionBool =>
      OptionBoolEncoded(v, pos, mem);
    case Bytes =>
      hide EncodeLen, DecodeLen;
      StandsSplit(EncodeLen(|v.bytes|), v.bytes, pos, mem.input);
      LengthAt(pos, mem.input, |v.bytes|);
    case Fixed(size) =>
      assert Load(mem, pos, size) == mem.input[pos..pos + size];
  }

  lemma OptionBoolEncoded(v: Value, pos: nat, mem: Memory)
    requires v.VOptionBool? && Stands(Encode(OptionBool, v), pos, mem.input)
    ensures Decode(OptionBool, pos, mem) == Some(Parsed(pos + |Encode(OptionBool, v)|, v))
  {
    var bytes := Encode(OptionBool, v);
    StandsAt(bytes, pos, mem.input, 0);
    if v.t != Neither {
      StandsAt(bytes, pos, mem.input, 1);
    }
  }

  lemma {:induction false} DecodeEncodedSeq(s: Schema, v: Value, pos: nat, mem: Memory)
    requires s.Seq?
    requires Typed(s, v)
    requires Stands(Encode(s, v), pos, mem.input) && |mem.input| <= MAX_UINT256
    ensures Decode(s, pos, mem) ==
      if Decodable(s, v) then Some(Parsed(pos + |Encode(s, v)|, Canonical(s, v))) else None
    decreases s, 2, 0
  {
    hide EncodeLen, DecodeLen, EncodeAll, DecodeAll, CanonicalAll;
    var n := |v.items|;
    StandsSplit(EncodeLen(n), EncodeAll(s.element, v.items), pos, mem.input);
    LengthAt(pos, mem.input, n);
    DecodeEncodedAll(s.element, v.items, pos + |EncodeLen(n)|, mem);
  }

  lemma {:induction false} DecodeEncodedOpt(s: Schema, v: Value, pos: nat, mem: Memory)
    requires s.Opt?
    requires Typed(s, v)
    requires Stands(Encode(s, v), pos, mem.input) && |mem.input| <= MAX_UINT256
    ensures Decode(s, pos, mem) ==
      if Decodable(s, v) then Some(Parsed(pos + |Encode(s, v)|, Canonical(s, v))) else None
    decreases s, 2, 0
  {
    StandsAt(Encode(s, v), pos, mem.input, 0);
    if v.hasValue {
      StandsSplit([1], Encode(s.inner, v.value), pos, mem.input);
      DecodeEncoded(s.inner, v.value, pos + 1, mem);
    }
  }

  lemma PairUnfolds(s: Schema, v: Value)
    requires s.Pair? && Typed(s, v)
    ensures v.VPair? && Typed(s.first, v.first) && Typed(s.second, v.second)
    ensures Encode(s, v) == Encode(s.first, v.first) + Encode(s.second, v.second)
    ensures Decodable(s, v) <==> Decodable(s.first, v.first) && Decodable(s.second, v.second)
    ensures Canonical(s, v) == VPair(Canonical(s.first, v.first), Canonical(s.second, v.second))
  {
  }

  lemma {:induction false} DecodeEncodedPair(s: Schema, v: Value, pos: nat, mem: Memory)
    requires s.Pair?
    requires Typed(s, v)
    requires Stands(Encode(s, v), pos, mem.input) && |mem.input| <= MAX_UINT256
    ensures Decode(s, pos, mem) ==
      if Decodable(s, v) then Some(Parsed(pos + |Encode(s, v)|, Canonical(s, v))) else None
    decreases s, 2, 0
  {
    hide Typed, Encode, Decodable, Canonical, Stands;
    PairUnfolds(s, v);
    StandsSplit(Encode(s.first, v.first), Encode(s.second, v.second), pos, mem.input);
    DecodeEncoded(s.first, v.first, pos, mem);
    DecodeEncoded(s.second, v.second, pos + |Encode(s.first, v.first)|, mem);
  }

  lemma {:induction false} DecodeEncodedUnion(s: Schema, v: Value, pos: nat, mem: Memory)
    requires s.Union?
    requires Typed(s, v)
    requires Stands(Encode(s, v), pos, mem.input) && |mem.input| <= MAX_UINT256
    ensures Decode(s, pos, mem) ==
      if Decodable(s, v) then Some(Parsed(pos + |Encode(s, v)|, Canonical(s, v))) else None
    decreases s, 2, 0
  {
    hide EncodeCase, DecodeCase, CanonicalCase, DecodableCase;
    StandsAt(Encode(s, v), pos, mem.input, 0);
    StandsSplit([v.choice], EncodeCase(s.cases, v.choice, v.payloads), pos, mem.input);
    DecodeEncodedCase(s.cases, v.choice, v.payloads, pos + 1, mem);
  }

  ghost predicate AllDecodable(element: Schema, items: seq<Value>)
    requires AllTyped(element, items)
  {
    forall i :: 0 <= i < |items| ==> Decodable(element, items[i])
  }

  lemma AllOfHeadAndRest(element: Schema, head: Value, rest: seq<Value>)
    ensures AllTyped(element, [head] + rest) <==> Typed(element, head) && AllTyped(element, rest)
    ensures AllTyped(element, [head] + rest) ==>
      (AllDecodable(element, [head] + rest) <==> Decodable(element, head) && AllDecodable(element, rest))
  {
    hide Typed, Decodable;
    var items := [head] + rest;
    assert items[0] == head;
    assert forall i :: 0 <= i < |rest| ==> rest[i] == items[i + 1];
    assert forall i :: 1 <= i < |items| ==> items[i] == rest[i - 1];
  }

  lemma HeadAndRestUnfold(element: Schema, head: Value, rest: seq<Value>)
    requires Typed(element, head) && AllTyped(element, rest)
    ensures AllTyped(element, [head] + rest)
    ensures EncodeAll(element, [head] + rest) == Encode(element, head) + EncodeAll(element, rest)
    ensures CanonicalAll(element, [head] + rest) == [Canonical(element, head)] + CanonicalAll(element, rest)
  {
    AllOfHeadAndRest(element, head, rest);
    hide Typed, Encode, Canonical;
    assert ([head] + rest)[1..] == rest;
  }

  ghost predicate DecodesAll(element: Schema, items: seq<Value>, pos: nat, mem: Memory)
    requires AllTyped(element, items)
  {
    DecodeAll(element, |items|, pos, mem) ==
      if AllDecodable(element, items)
      then Some(ParsedAll(pos + |EncodeAll(element, items)|, CanonicalAll(element, items))) else None
  }

  lemma {:induction false} DecodeEncodedAll(element: Schema, items: seq<Value>, pos: nat, mem: Memory)
    requires AllTyped(element, items)
    requires Stands(EncodeAll(element, items), pos, mem.input) && |mem.input| <= MAX_UINT256
    ensures DecodesAll(element, items, pos, mem)
    decreases element, 4, |items|
  {
    if items != [] {
      var head, rest := items[0], items[1..];
      hide *;
      assert items == [head] + rest;
      AllOfHeadAndRest(element, head, rest);
      HeadAndRestUnfold(element, head, rest);
      StandsSplit(Encode(element, head), EncodeAll(element, rest), pos, mem.input);
      DecodeEncoded(element, head, pos, mem);
      DecodeEncodedAll(element, rest, pos + |Encode(element, head)|, mem);
      DecodeHeadAndRest(element, head, rest, pos, mem);
    }
  }

  lemma DecodeHeadAndRest(element: Schema, head: Value, rest: seq<Value>, pos: nat, mem: Memory)
    requires Typed(element, head) && AllTyped(element, rest) && AllTyped(element, [head] + rest)
    requires Decode(element, pos, mem) ==
      if Decodable(element, head) then Some(Parsed(pos + |Encode(element, head)|, Canonical(element, head))) else None
    requires DecodesAll(element, rest, pos + |Encode(element, head)|, mem)
    ensures DecodesAll(element, [head] + rest, pos, mem)
  {
    hide Typed, AllDecodable, AllTyped, Decode, Encode, Decodable, Canonical, EncodeAll, CanonicalAll, DecodeAll;
    AllOfHeadAndRest(element, head, rest);
    HeadAndRestUnfold(element, head, rest);
    DecodeAllUnfolds(element, |[head] + rest|, pos, mem);
  }

  lemma DecodeAllUnfolds(element: Schema, n: nat, pos: nat, mem: Memory)
    requires n > 0
    ensures DecodeAll(element, n, pos, mem) ==
      match Decode(element, pos, mem)
      case None => None
      case Some(x) =>
        match DecodeAll(element, n - 1, x.pos, mem)
        case None => None
        case Some(r) => Some(ParsedAll(r.pos, [x.value] + r.items))
  {
    hide Decode;
  }

  lemma {:induction false} DecodeEncodedCase(cases: Schema, choice: nat, payloads: Value, pos: nat, mem: Memory)
    requires Typed(cases, payloads)
    requires Stands(EncodeCase(cases, choice, payloads), pos, mem.input) && |mem.input| <= MAX_UINT256
    ensures DecodeCase(cases, choice, pos, mem) ==
      if DecodableCase(cases, choice, payloads)
      then Some(Parsed(pos + |EncodeCase(cases, choice, payloads)|, CanonicalCase(cases, choice, payloads))) else None
    decreases cases, 4, 0
  {
    match cases
    case Pair(payload, rest) =>
      if choice == 0 {
        DecodeEncoded(payload, payloads.first, pos, mem);
      } else {
        DecodeEncodedCase(rest, choice - 1, payloads.second, pos, mem);
      }
    case _ =>
  }

  /** Round trip at any offset, between any bytes. */
  lemma RoundTripAnywhere(s: Schema, v: Value, pre: seq<byte>, post: seq<byte>, beyond: (nat, nat) -> byte)
    requires Typed(s, v)
    requires |pre + Encode(s, v) + post| <= MAX_UINT256
    ensures var r := Decode(s, |pre|, Memory(pre + Encode(s, v) + post, beyond));
      && (r.Some? <==> Decodable(s, v))
      && (r.Some? ==> r.value.pos == |pre| + |Encode(s, v)|)
      && (r == Some(Parsed(|pre| + |Encode(s, v)|, v)) <==> Decodable(s, v) && Made(s, v))
  {
    var input := pre + Encode(s, v) + post;
    assert input[|pre|..|pre| + |Encode(s, v)|] == Encode(s, v);
    DecodeEncoded(s, v, |pre|, Memory(input, beyond));
    CanonicalIffMade(s, v);
  }

  /** What case constructors build is recovered at any offset, between any bytes. */
  lemma WellMadeRoundTrip(s: Schema, v: Value, pre: seq<byte>, post: seq<byte>, beyond: (nat, nat) -> byte)
    requires WellMade(s, v)
    ensures var bytes := Encode(s, v);
      |pre + bytes + post| <= MAX_UINT256 ==>
        Decode(s, |pre|, Memory(pre + bytes + post, beyond)) == Some(Parsed(|pre| + |bytes|, v))
  {
    hide Encode, Decode, Made, Decodable, Typed;
    if |pre + Encode(s, v) + post| <= MAX_UINT256 {
      RoundTripAnywhere(s, v, pre, post, beyond);
    }
  }

  /**
   * A complete decoder recovers a value from its encoding exactly if every choice has a case and the rest is default.
   */
  lemma RoundTrip(s: Schema, v: Value, beyond: (nat, nat) -> byte)
    requires Typed(s, v) && |Encode(s, v)| <= MAX_UINT256
    ensures Deserialize(s, Encode(s, v), beyond) == Some(v) <==> Decodable(s, v) && Made(s, v)
  {
    hide Typed, Encode, Decode, Decodable, Made;
    assert [] + Encode(s, v) + [] == Encode(s, v);
    RoundTripAnywhere(s, v, [], [], beyond);
  }

  /** No encoding is a prefix of the encoding of another value. */
  lemma PrefixFree(s: Schema, v: Value, w: Value)
    requires WellMade(s, v) && WellMade(s, w)
    requires |Encode(s, w)| <= MAX_UINT256
    requires Encode(s, v) <= Encode(s, w)
    ensures v == w
  {
    hide Encode, Decode, Made, Decodable, Typed;
    var a, b := Encode(s, v), Encode(s, w);
    var post := b[|a|..];
    assert [] + a + post == b && [] + b + [] == b;
    WellMadeRoundTrip(s, v, [], post, (_, _) => 0);
    WellMadeRoundTrip(s, w, [], [], (_, _) => 0);
  }

  // ---------------------------------------------------------------- unchecked loads

  /** Positions only grow. */
  lemma {:induction false} DecodeMovesForward(s: Schema, pos: nat, mem: Memory)
    ensures Decode(s, pos, mem).Some? ==> pos <= Decode(s, pos, mem).value.pos
    decreases s, 0, 0
  {
    match s
    case Seq(element) =>
      if DecodeLen(pos, mem.input).Some? {
        var n := DecodeLen(pos, mem.input).value;
        DecodeAllMovesForward(element, n.value, n.pos, mem);
      }
    case Opt(inner) => DecodeMovesForward(inner, pos + 1, mem);
    case Pair(a, b) =>
      DecodeMovesForward(a, pos, mem);
      if Decode(a, pos, mem).Some? { DecodeMovesForward(b, Decode(a, pos, mem).value.pos, mem); }
    case Union(cases) =>
      if pos < |mem.input| { DecodeCaseMovesForward(cases, mem.input[pos], pos + 1, mem); }
    case _ =>
  }

  lemma {:induction false} DecodeAllMovesForward(element: Schema, n: nat, pos: nat, mem: Memory)
    ensures DecodeAll(element, n, pos, mem).Some? ==> pos <= DecodeAll(element, n, pos, mem).value.pos
    decreases element, 1, n
  {
    if n > 0 {
      DecodeMovesForward(element, pos, mem);
      if Decode(element, pos, mem).Some? {
        DecodeAllMovesForward(element, n - 1, Decode(element, pos, mem).value.pos, mem);
      }
    }
  }

  lemma {:induction false} DecodeCaseMovesForward(cases: Schema, choice: nat, pos: nat, mem: Memory)
    ensures DecodeCase(cases, choice, pos, mem).Some? ==> pos <= DecodeCase(cases, choice, pos, mem).value.pos
    decreases cases, 1, 0
  {
    match cases
    case Pair(payload, rest) =>
      if choice == 0 { DecodeMovesForward(payload, pos, mem); }
          else { DecodeCaseMovesForward(rest, choice - 1, pos, mem); }
    case _ =>
  }

  /** What counts of a result: it, if it stays inside the input. */
  function Within(r: Option<Parsed>, input: seq<byte>): Option<Parsed> {
    if r.Some? && r.value.pos <= |input| then r else None
  }

  function WithinAll(r: Option<ParsedAll>, input: seq<byte>): Option<ParsedAll> {
    if r.Some? && r.value.pos <= |input| then r else None
  }

  /** As far as results inside the input go, it does not matter what lies behind the input. */
  lemma {:induction false} BeyondIrrelevant(s: Schema, pos: nat, mem: Memory, mem': Memory)
    requires mem.input == mem'.input
    ensures Within(Decode(s, pos, mem), mem.input) == Within(Decode(s, pos, mem'), mem.input)
    decreases s, 3, 0
  {
    hide *;
    match s
    case Fixed(_) => BeyondIrrelevantFixed(s, pos, mem, mem');
    case Seq(_) => BeyondIrrelevantSeq(s, pos, mem, mem');
    case Opt(_) => BeyondIrrelevantOpt(s, pos, mem, mem');
    case Pair(_, _) => BeyondIrrelevantPair(s, pos, mem, mem');
    case Union(_) => BeyondIrrelevantUnion(s, pos, mem, mem');
    case _ => CheckedReads(s, pos, mem, mem');
  }

  lemma CheckedReads(s: Schema, pos: nat, mem: Memory, mem': Memory)
    requires !s.Fixed? && !s.Seq? && !s.Opt? && !s.Pair? && !s.Union?
    requires mem.input == mem'.input
    ensures Within(Decode(s, pos, mem), mem.input) == Within(Decode(s, pos, mem'), mem.input)
  {
  }

  lemma BeyondIrrelevantFixed(s: Schema, pos: nat, mem: Memory, mem': Memory)
    requires s.Fixed?
    requires mem.input == mem'.input
    ensures Within(Decode(s, pos, mem), mem.input) == Within(Decode(s, pos, mem'), mem.input)
  {
    if pos + s.size <= |mem.input| {
      assert Load(mem, pos, s.size) == Load(mem', pos, s.size);
    }
  }

  lemma {:induction false} BeyondIrrelevantSeq(s: Schema, pos: nat, mem: Memory, mem': Memory)
    requires s.Seq?
    requires mem.input == mem'.input
    ensures Within(Decode(s, pos, mem), mem.input) == Within(Decode(s, pos, mem'), mem.input)
    decreases s, 2, 0
  {
    hide DecodeLen, DecodeAll;
    if DecodeLen(pos, mem.input).Some? {
      var n := DecodeLen(pos, mem.input).value;
      BeyondIrrelevantAll(s.element, n.value, n.pos, mem, mem');
    }
  }

  lemma {:induction false} BeyondIrrelevantOpt(s: Schema, pos: nat, mem: Memory, mem': Memory)
    requires s.Opt?
    requires mem.input == mem'.input
    ensures Within(Decode(s, pos, mem), mem.input) == Within(Decode(s, pos, mem'), mem.input)
    decreases s, 2, 0
  {
    BeyondIrrelevant(s.inner, pos + 1, mem, mem');
  }

  lemma {:induction false} BeyondIrrelevantPair(s: Schema, pos: nat, mem: Memory, mem': Memory)
    requires s.Pair?
    requires mem.input == mem'.input
    ensures Within(Decode(s, pos, mem), mem.input) == Within(Decode(s, pos, mem'), mem.input)
    decreases s, 2, 0
  {
    BeyondIrrelevant(s.first, pos, mem, mem');
    SecondIrrelevant(s.second, Decode(s.first, pos, mem), mem);
    SecondIrrelevant(s.second, Decode(s.first, pos, mem'), mem');
    if Within(Decode(s.first, pos, mem), mem.input).Some? {
      BeyondIrrelevant(s.second, Decode(s.first, pos, mem).value.pos, mem, mem');
    }
  }

  lemma {:induction false} BeyondIrrelevantUnion(s: Schema, pos: nat, mem: Memory, mem': Memory)
    requires s.Union?
    requires mem.input == mem'.input
    ensures Within(Decode(s, pos, mem), mem.input) == Within(Decode(s, pos, mem'), mem.input)
    decreases s, 2, 0
  {
    hide DecodeCase, Count;
    if pos < |mem.input| {
      BeyondIrrelevantCase(s.cases, mem.input[pos], pos + 1, mem, mem');
    }
  }

  /** Once a position is past the input, it stays there. */
  lemma SecondIrrelevant(s: Schema, first: Option<Parsed>, mem: Memory)
    ensures first.Some? && first.value.pos > |mem.input| ==> Within(Decode(s, first.value.pos, mem), mem.input) == None
  {
    if first.Some? {
      DecodeMovesForward(s, first.value.pos, mem);
    }
  }

  lemma {:induction false} BeyondIrrelevantAll(element: Schema, n: nat, pos: nat, mem: Memory, mem': Memory)
    requires mem.input == mem'.input
    ensures WithinAll(DecodeAll(element, n, pos, mem), mem.input)
      == WithinAll(DecodeAll(element, n, pos, mem'), mem.input)
    decreases element, 4, n
  {
    if n > 0 {
      hide Decode, DecodeAll;
      DecodeAllUnfolds(element, n, pos, mem);
      DecodeAllUnfolds(element, n, pos, mem');
      BeyondIrrelevant(element, pos, mem, mem');
      RestIrrelevant(element, n - 1, Decode(element, pos, mem), mem);
      RestIrrelevant(element, n - 1, Decode(element, pos, mem'), mem');
      if Within(Decode(element, pos, mem), mem.input).Some? {
        BeyondIrrelevantAll(element, n - 1, Decode(element, pos, mem).value.pos, mem, mem');
      }
    }
  }

  lemma RestIrrelevant(element: Schema, n: nat, first: Option<Parsed>, mem: Memory)
    ensures first.Some? && first.value.pos > |mem.input| ==>
      WithinAll(DecodeAll(element, n, first.value.pos, mem), mem.input) == None
  {
    if first.Some? {
      DecodeAllMovesForward(element, n, first.value.pos, mem);
    }
  }

  lemma {:induction false} BeyondIrrelevantCase(cases: Schema, choice: nat, pos: nat, mem: Memory, mem': Memory)
    requires mem.input == mem'.input
    ensures Within(DecodeCase(cases, choice, pos, mem), mem.input)
      == Within(DecodeCase(cases, choice, pos, mem'), mem.input)
    decreases cases, 4, 0
  {
    match cases
    case Pair(payload, rest) =>
      if choice == 0 { BeyondIrrelevant(payload, pos, mem, mem'); }
          else { BeyondIrrelevantCase(rest, choice - 1, pos, mem, mem'); }
    case _ =>
  }

  /**
   * Unchecked loads are harmless to the result: whether a complete decoder accepts, and what it returns, depends on the
   * bytes of the input only.
   */
  lemma UncheckedLoadsAreHarmless(s: Schema, input: seq<byte>, beyond: (nat, nat) -> byte, beyond': (nat, nat) -> byte)
    ensures Deserialize(s, input, beyond) == Deserialize(s, input, beyond')
  {
    BeyondIrrelevant(s, 0, Memory(input, beyond), Memory(input, beyond'));
  }

  // ---------------------------------------------------------------- partial decodings

  ghost predicate SameEnd(r: Option<Parsed>, r': Option<Parsed>) {
    (r.Some? <==> r'.Some?) && (r.Some? ==> r.value.pos == r'.value.pos)
  }

  ghost predicate SameEndOfAll(r: Option<ParsedAll>, r': Option<ParsedAll>) {
    (r.Some? <==> r'.Some?) && (r.Some? ==> r.value.pos == r'.value.pos)
  }

  /** Whether a decoder accepts and where it ends never depends on what lies behind the input. */
  lemma {:induction false} EndIsIndependent(s: Schema, pos: nat, mem: Memory, mem': Memory)
    requires mem.input == mem'.input
    ensures SameEnd(Decode(s, pos, mem), Decode(s, pos, mem'))
    decreases s, 2, 0
  {
    hide DecodeLen, DecodeAll, DecodeCase, Count, FromLittleEndian, Load;
    match s
    case Seq(element) =>
      if DecodeLen(pos, mem.input).Some? {
        var n := DecodeLen(pos, mem.input).value;
        EndOfAllIsIndependent(element, n.value, n.pos, mem, mem');
      }
    case Opt(inner) => EndIsIndependent(inner, pos + 1, mem, mem');
    case Pair(a, b) =>
      EndIsIndependent(a, pos, mem, mem');
      if Decode(a, pos, mem).Some? { EndIsIndependent(b, Decode(a, pos, mem).value.pos, mem, mem'); }
    case Union(cases) =>
      if pos < |mem.input| { EndOfCaseIsIndependent(cases, mem.input[pos], pos + 1, mem, mem'); }
    case _ =>
  }

  lemma {:induction false} EndOfAllIsIndependent(element: Schema, n: nat, pos: nat, mem: Memory, mem': Memory)
    requires mem.input == mem'.input
    ensures SameEndOfAll(DecodeAll(element, n, pos, mem), DecodeAll(element, n, pos, mem'))
    decreases element, 3, n
  {
    if n > 0 {
      hide Decode, DecodeAll;
      DecodeAllUnfolds(element, n, pos, mem);
      DecodeAllUnfolds(element, n, pos, mem');
      EndIsIndependent(element, pos, mem, mem');
      if Decode(element, pos, mem).Some? {
        EndOfAllIsIndependent(element, n - 1, Decode(element, pos, mem).value.pos, mem, mem');
      }
    }
  }

  lemma {:induction false} EndOfCaseIsIndependent(cases: Schema, choice: nat, pos: nat, mem: Memory, mem': Memory)
    requires mem.input == mem'.input
    ensures SameEnd(DecodeCase(cases, choice, pos, mem), DecodeCase(cases, choice, pos, mem'))
    decreases cases, 3, 0
  {
    hide Decode;
    match cases
    case Pair(payload, rest) =>
      if choice == 0 {
        EndIsIndependent(payload, pos, mem, mem');
      } else {
        EndOfCaseIsIndependent(rest, choice - 1, pos, mem, mem');
      }
    case _ =>
  }

  /** The first byte behind the input is 0 for one memory and 1 for the other, whichever load looks at it. */
  ghost predicate DifferBehind(mem: Memory, mem': Memory) {
    mem.input == mem'.input && (forall pos: nat :: mem.beyond(pos, 0) == 0 && mem'.beyond(pos, 0) == 1)
  }

  /** A decoding that starts inside the input and ends behind it has looked there. */
  lemma {:induction false} CrossingIsSeen(s: Schema, pos: nat, mem: Memory, mem': Memory)
    requires DifferBehind(mem, mem') && pos <= |mem.input|
    requires Decode(s, pos, mem).Some? && Decode(s, pos, mem).value.pos > |mem.input|
    ensures Decode(s, pos, mem) != Decode(s, pos, mem')
    decreases s, 2, 0
  {
    SameInput(mem, mem');
    hide DecodeAll, DecodeCase, Count, FromLittleEndian, Load, DifferBehind;
    EndIsIndependent(s, pos, mem, mem');
    match s
    case Bytes => DecodedInside(pos, mem.input);
    case Fixed(size) => LoadCrosses(pos, size, mem, mem');
    case Seq(element) =>
      DecodedInside(pos, mem.input);
      hide DecodeLen;
      var n := DecodeLen(pos, mem.input).value;
      AllCrossingIsSeen(element, n.value, n.pos, mem, mem');
    case Opt(inner) => CrossingIsSeen(inner, pos + 1, mem, mem');
    case Pair(a, b) =>
      EndIsIndependent(a, pos, mem, mem');
      var x := Decode(a, pos, mem).value;
      if x.pos > |mem.input| {
        CrossingIsSeen(a, pos, mem, mem');
      } else {
        CrossingIsSeen(b, x.pos, mem, mem');
      }
    case Union(cases) => CaseCrossingIsSeen(cases, mem.input[pos], pos + 1, mem, mem');
    case _ =>
  }

  lemma LoadCrosses(pos: nat, size: nat, mem: Memory, mem': Memory)
    requires DifferBehind(mem, mem') && pos <= |mem.input| < pos + size
    ensures Load(mem, pos, size) != Load(mem', pos, size)
  {
    var i := |mem.input| - pos;
    assert Load(mem, pos, size)[i] == 0 && Load(mem', pos, size)[i] == 1;
  }

  lemma {:induction false} AllCrossingIsSeen(element: Schema, n: nat, pos: nat, mem: Memory, mem': Memory)
    requires DifferBehind(mem, mem') && pos <= |mem.input|
    requires DecodeAll(element, n, pos, mem).Some? && DecodeAll(element, n, pos, mem).value.pos > |mem.input|
    ensures DecodeAll(element, n, pos, mem) != DecodeAll(element, n, pos, mem')
    decreases element, 3, n
  {
    hide Decode, DifferBehind;
    assert n > 0;
    hide DecodeAll;
    SameInput(mem, mem');
    DecodeAllUnfolds(element, n, pos, mem);
    DecodeAllUnfolds(element, n, pos, mem');
    EndOfAllIsIndependent(element, n, pos, mem, mem');
    EndIsIndependent(element, pos, mem, mem');
    var x, x' := Decode(element, pos, mem).value, Decode(element, pos, mem').value;
    EndOfAllIsIndependent(element, n - 1, x.pos, mem, mem');
    var rest, rest' := DecodeAll(element, n - 1, x.pos, mem).value, DecodeAll(element, n - 1, x.pos, mem').value;
    if x.pos > |mem.input| {
      CrossingIsSeen(element, pos, mem, mem');
    } else {
      AllCrossingIsSeen(element, n - 1, x.pos, mem, mem');
    }
    assert ([x.value] + rest.items)[0] == x.value && ([x'.value] + rest'.items)[0] == x'.value;
    assert ([x.value] + rest.items)[1..] == rest.items && ([x'.value] + rest'.items)[1..] == rest'.items;
  }

  lemma SameInput(mem: Memory, mem': Memory)
    requires DifferBehind(mem, mem')
    ensures mem.input == mem'.input
  {
  }

  lemma {:induction false} CaseCrossingIsSeen(cases: Schema, choice: nat, pos: nat, mem: Memory, mem': Memory)
    requires DifferBehind(mem, mem') && pos <= |mem.input|
    requires DecodeCase(cases, choice, pos, mem).Some? && DecodeCase(cases, choice, pos, mem).value.pos > |mem.input|
    ensures DecodeCase(cases, choice, pos, mem) != DecodeCase(cases, choice, pos, mem')
    decreases cases, 3, 0
  {
    SameInput(mem, mem');
    hide Decode, DifferBehind;
    EndOfCaseIsIndependent(cases, choice, pos, mem, mem');
    match cases
    case Pair(payload, rest) =>
      if choice == 0 {
        CrossingIsSeen(payload, pos, mem, mem');
      } else {
        CaseCrossingIsSeen(rest, choice - 1, pos, mem, mem');
      }
    case _ =>
  }

  /** A partial decoding gives the same result whatever lies behind the input. */
  ghost predicate Independent(s: Schema, pos: nat, input: seq<byte>) {
    forall beyond: (nat, nat) -> byte, beyond': (nat, nat) -> byte ::
      Decode(s, pos, Memory(input, beyond)) == Decode(s, pos, Memory(input, beyond'))
  }

  /**
   * Partial decodings can read behind the input. One that starts inside is independent of what lies there exactly if it
   * fails or ends inside; and that is decided by the input, since acceptance and end are the same for every memory.
   */
  lemma IndependentIffInside(s: Schema, pos: nat, input: seq<byte>, beyond: (nat, nat) -> byte)
    requires pos <= |input|
    ensures Independent(s, pos, input) <==>
      var r := Decode(s, pos, Memory(input, beyond)); r.None? || r.value.pos <= |input|
  {
    hide Decode;
    var mem := Memory(input, beyond);
    var r := Decode(s, pos, mem);
    if r.None? || r.value.pos <= |input| {
      forall b: (nat, nat) -> byte, b': (nat, nat) -> byte
        ensures Decode(s, pos, Memory(input, b)) == Decode(s, pos, Memory(input, b'))
      {
        EndIsIndependent(s, pos, mem, Memory(input, b));
        EndIsIndependent(s, pos, mem, Memory(input, b'));
        BeyondIrrelevant(s, pos, Memory(input, b), Memory(input, b'));
      }
    } else {
      var zeros, ones := Memory(input, (_, _) => 0), Memory(input, (_, _) => 1);
      EndIsIndependent(s, pos, mem, zeros);
      CrossingIsSeen(s, pos, zeros, ones);
    }
  }

  /** For an unchecked load itself: its result is independent exactly if it stays inside the input. */
  lemma LoadIndependentIffInside(size: nat, pos: nat, input: seq<byte>)
    requires 0 < size && pos <= |input| && pos + size <= MAX_UINT256
    ensures Independent(Fixed(size), pos, input) <==> pos + size <= |input|
  {
    IndependentIffInside(Fixed(size), pos, input, (_, _) => 0);
  }

  /** For instance, twenty bytes are loaded from an empty input. */
  lemma PartialDecodingReadsBeyond()
    ensures Decode(Fixed(20), 0, Memory([], (_, _) => 0)) != Decode(Fixed(20), 0, Memory([], (_, _) => 1))
  {
    CrossingIsSeen(Fixed(20), 0, Memory([], (_, _) => 0), Memory([], (_, _) => 1));
  }

  // ---------------------------------------------------------------- what decoders return

  /** Whatever is decoded, from any bytes, is a value that the case constructors can build. */
  lemma {:induction false} DecodedIsMade(s: Schema, pos: nat, mem: Memory)
    requires Decode(s, pos, mem).Some? && |mem.input| <= MAX_UINT256
    ensures WellMade(s, Decode(s, pos, mem).value.value)
    decreases s, 0, 0
  {
    hide DecodeLen, DecodeAll, DecodeCase, DecodableCase, MadeCase, Count, FromLittleEndian, Load;
    match s
    case Seq(element) =>
      var n := DecodeLen(pos, mem.input).value;
      DecodedAllIsMade(element, n.value, n.pos, mem);
    case Opt(inner) =>
      DefaultTyped(inner);
      if mem.input[pos] == 1 { DecodedIsMade(inner, pos + 1, mem); }
    case Pair(a, b) =>
      DecodedIsMade(a, pos, mem);
      DecodedIsMade(b, Decode(a, pos, mem).value.pos, mem);
    case Union(cases) =>
      DecodedCaseIsMade(cases, mem.input[pos], pos + 1, mem);
    case _ =>
      DecodedLeafIsMade(s, pos, mem);
  }

  lemma DecodedLeafIsMade(s: Schema, pos: nat, mem: Memory)
    requires !s.Seq? && !s.Opt? && !s.Pair? && !s.Union?
    requires Decode(s, pos, mem).Some? && |mem.input| <= MAX_UINT256
    ensures WellMade(s, Decode(s, pos, mem).value.value)
  {
    hide DecodeLen, Load;
  }

  lemma {:induction false} DecodedAllIsMade(element: Schema, n: nat, pos: nat, mem: Memory)
    requires DecodeAll(element, n, pos, mem).Some? && |mem.input| <= MAX_UINT256
    ensures var items := DecodeAll(element, n, pos, mem).value.items;
      |items| == n && forall i :: 0 <= i < n ==> WellMade(element, items[i])
    decreases element, 1, n
  {
    if n > 0 {
      var x := Decode(element, pos, mem).value;
      DecodedIsMade(element, pos, mem);
      DecodedAllIsMade(element, n - 1, x.pos, mem);
      var items, rest := DecodeAll(element, n, pos, mem).value.items, DecodeAll(element, n - 1, x.pos, mem).value.items;
      assert items == [x.value] + rest;
      forall i | 0 <= i < n ensures WellMade(element, items[i]) {
        if i > 0 { assert items[i] == rest[i - 1]; }
      }
    }
  }

  lemma {:induction false} DecodedCaseIsMade(cases: Schema, choice: nat, pos: nat, mem: Memory)
    requires DecodeCase(cases, choice, pos, mem).Some? && |mem.input| <= MAX_UINT256
    ensures var f := DecodeCase(cases, choice, pos, mem).value.value;
      Typed(cases, f) && DecodableCase(cases, choice, f) && MadeCase(cases, choice, f)
    decreases cases, 1, 0
  {
    hide Decode, Decodable, Made;
    match cases
    case Pair(payload, rest) =>
      DefaultTyped(payload);
      DefaultTyped(rest);
      if choice == 0 { DecodedIsMade(payload, pos, mem); } else { DecodedCaseIsMade(rest, choice - 1, pos, mem); }
    case _ =>
      DefaultTyped(cases);
  }
}
