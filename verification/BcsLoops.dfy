/**
 * The codec's functions as they run: loops over digits, bytes and elements, and chains of calls that thread a
 * position.
 */
module BcsLoops {
  import opened Wrappers
  import opened Words
  import opened Arithmetic
  import opened BcsLength
  import opened BcsCodec

  // ---------------------------------------------------------------- integers

  lemma {:induction false} LittleEndianDigit(n: nat, size: nat, i: nat)
    requires i < size
    ensures LittleEndian(n, size)[i] == n / Pow256(i) % 256
  {
    if i > 0 {
      LittleEndianDigit(n / 256, size - 1, i - 1);
      DivideTwice(n, 256, Pow256(i - 1));
    }
  }

  lemma DivideTwice(n: nat, a: nat, b: nat)
    requires a > 0 && b > 0
    ensures a * b > 0
    ensures n / a / b == n / (a * b)
  {
    var q, r := n / a / b, n / a % b;
    assert n / a == q * b + r;
    assert n == (q * b + r) * a + n % a;
    assert (q * b + r) * a == q * (a * b) + r * a;
    AtMostLastMultiple(r, b, a, n % a);
    QuotientUnique(n, a * b, q, r * a + n % a);
  }

  lemma AtMostLastMultiple(r: nat, b: nat, a: nat, s: nat)
    requires r < b && s < a
    ensures r * a + s < a * b
  {
    MulMonotone(r + 1, b, a);
  }

  /** The lowest byte first, then a shift by eight bits before each further one. */
  method SerializeUInt(size: nat, input: nat) returns (bytes: seq<byte>)
    requires size > 0
    ensures bytes == LittleEndian(input, size)
  {
    var result := new byte[size];
    var value := input;
    result[0] := value % 256;
    LittleEndianDigit(input, size, 0);
    var i := 1;
    while i < size
      invariant 1 <= i <= size
      invariant value == input / Pow256(i - 1)
      invariant forall k :: 0 <= k < i ==> result[k] == LittleEndian(input, size)[k]
    {
      DivideTwice(input, Pow256(i - 1), 256);
      assert Pow256(i) == Pow256(i - 1) * 256;
      value := value / 256;
      LittleEndianDigit(input, size, i);
      result[i] := value % 256;
      i := i + 1;
    }
    bytes := result[..];
  }

  lemma {:induction false} Pow256Monotone(j: nat, k: nat)
    requires j <= k
    ensures Pow256(j) <= Pow256(k)
  {
    if j < k {
      Pow256Monotone(j, k - 1);
    }
  }

  lemma LastByte(input: seq<byte>, i: nat)
    requires i < |input|
    ensures FromLittleEndian(input[i..i + 1]) == input[i]
  {
    assert input[i..i + 1] == [input[i]];
  }

  /** One more byte at the low end: the shifted value still fits, and so does the sum. */
  lemma NextByte(input: seq<byte>, next: nat, end: nat, size: nat)
    requires next + 1 < end <= |input| && end - next <= size
    ensures FromLittleEndian(input[next..end]) == input[next] + 256 * FromLittleEndian(input[next + 1..end])
    ensures FromLittleEndian(input[next..end]) < Pow256(size)
    ensures ShiftLeft8(FromLittleEndian(input[next + 1..end]), size) == 256 * FromLittleEndian(input[next + 1..end])
  {
    assert input[next..end][1..] == input[next + 1..end];
    Pow256Monotone(end - next, size);
    SmallRemainder(256 * FromLittleEndian(input[next + 1..end]), Pow256(size));
  }

  /** A shift by eight bits in a word of `size` bytes; bits shifted out are lost. */
  function ShiftLeft8(value: nat, size: nat): nat {
    256 * value % Pow256(size)
  }

  /** From the highest byte down, shifting by eight bits, truncated to the width, before adding the next one. */
  method DeserializeOffsetUInt(size: nat, pos: nat, input: seq<byte>) returns (r: Option<Parsed>)
    requires size > 0
    ensures forall beyond: (nat, nat) -> byte :: r == Decode(UInt(size), pos, Memory(input, beyond))
  {
    hide FromLittleEndian, Pow256, ShiftLeft8;
    if pos + size - 1 >= |input| {
      return None;
    }
    LastByte(input, pos + size - 1);
    var value: nat := input[pos + size - 1];
    var i := 0;
    while i < size - 1
      invariant 0 <= i <= size - 1
      invariant value == FromLittleEndian(input[pos + size - 1 - i..pos + size])
    {
      var next := pos + size - 2 - i;
      NextByte(input, next, pos + size, size);
      value := ShiftLeft8(value, size);
      if value + input[next] >= Pow256(size) {
        return None;
      }
      value := value + input[next];
      i := i + 1;
    }
    r := Some(Parsed(pos + size, VInt(value)));
  }

  // ---------------------------------------------------------------- bytes

  /** Copies byte by byte; an index outside the input reverts. */
  method DeserializeOffsetBytes(pos: nat, input: seq<byte>) returns (r: Option<Parsed>)
    ensures forall beyond: (nat, nat) -> byte :: r == Decode(Bytes, pos, Memory(input, beyond))
  {
    var length := DeserializeOffsetLen(pos, input);
    if length.None? {
      return None;
    }
    var len, newPos := length.value.value, length.value.pos;
    DecodedInside(pos, input);
    var result := new byte[len];
    var u := 0;
    while u < len
      invariant 0 <= u <= len
      invariant newPos + u <= |input|
      invariant forall k :: 0 <= k < u ==> result[k] == input[newPos + k]
    {
      if newPos + u >= |input| {
        return None;
      }
      result[u] := input[newPos + u];
      u := u + 1;
    }
    assert result[..] == input[newPos..newPos + len];
    r := Some(Parsed(newPos + len, VBytes(result[..])));
  }

  // ---------------------------------------------------------------- whole values

  method Serialize(s: Schema, v: Value) returns (result: seq<byte>)
    requires Typed(s, v) && Sized(s)
    ensures result == Encode(s, v)
    decreases s, 0
  {
    match s
    case Unit =>
      result := [];
    case UInt(size) =>
      result := SerializeUInt(size, v.n);
    case Bool =>
      result := [if v.b then 1 else 0];
    case OptionBool =>
      if v.t == Neither {
        return [0];
      }
      if v.t == No {
        return [1, 0];
      }
      result := [1, 1];
    case Bytes =>
      result := SerializeLen(|v.bytes|);
      result := result + v.bytes;
    case Fixed(_) =>
      result := v.bytes;
    case Seq(element) =>
      result := SerializeSeq(element, v.items);
    case Opt(inner) =>
      if v.hasValue {
        var rest := Serialize(inner, v.value);
        result := [1] + rest;
      } else {
        result := [0];
      }
    case Pair(a, b) =>
      var first := Serialize(a, v.first);
      var second := Serialize(b, v.second);
      result := first + second;
    case Union(cases) =>
      var payload := SerializeCase(cases, v.choice, v.payloads);
      result := [v.choice] + payload;
  }

  /** Integers have at least one byte. */
  predicate Sized(s: Schema) {
    match s
    case UInt(size) => size > 0
    case Seq(element) => Sized(element)
    case Opt(inner) => Sized(inner)
    case Pair(a, b) => Sized(a) && Sized(b)
    case Union(cases) => Sized(cases)
    case _ => true
  }

  lemma EncodeAllOne(element: Schema, last: Value)
    requires Typed(element, last)
    ensures AllTyped(element, [last]) && EncodeAll(element, [last]) == Encode(element, last)
  {
    hide Typed, Encode;
    assert [last][1..] == [];
  }

  lemma {:induction false} EncodeAllAppend(element: Schema, items: seq<Value>, last: Value)
    requires AllTyped(element, items) && Typed(element, last)
    ensures AllTyped(element, items + [last])
    ensures EncodeAll(element, items + [last]) == EncodeAll(element, items) + Encode(element, last)
    decreases |items|, 1
  {
    hide Typed, Encode;
    if items == [] {
      EncodeAllOne(element, last);
      assert items + [last] == [last];
    } else {
      EncodeAllAppendStep(element, items, last);
    }
  }

  lemma {:induction false} EncodeAllAppendStep(element: Schema, items: seq<Value>, last: Value)
    requires AllTyped(element, items) && Typed(element, last) && items != []
    ensures AllTyped(element, items + [last])
    ensures EncodeAll(element, items + [last]) == EncodeAll(element, items) + Encode(element, last)
    decreases |items|, 0
  {
    hide *;
    var head, rest := items[0], items[1..];
    assert items == [head] + rest;
    AllOfHeadAndRest(element, head, rest);
    EncodeAllAppend(element, rest, last);
    HeadAndRestUnfold(element, head, rest);
    HeadAndRestUnfold(element, head, rest + [last]);
    assert items + [last] == [head] + (rest + [last]);
  }

  method SerializeSeq(element: Schema, items: seq<Value>) returns (result: seq<byte>)
    requires AllTyped(element, items) && |items| <= MAX_UINT256 && Sized(element)
    ensures result == EncodeLen(|items|) + EncodeAll(element, items)
    decreases element, 1
  {
    hide Typed, Encode, EncodeLen;
    result := SerializeLen(|items|);
    var i := 0;
    while i < |items|
      invariant 0 <= i <= |items|
      invariant result == EncodeLen(|items|) + EncodeAll(element, items[..i])
    {
      var bytes := Serialize(element, items[i]);
      EncodeAllAppend(element, items[..i], items[i]);
      assert items[..i + 1] == items[..i] + [items[i]];
      result := result + bytes;
      i := i + 1;
    }
    assert items[..i] == items;
  }

  method SerializeCase(cases: Schema, choice: nat, payloads: Value) returns (result: seq<byte>)
    requires Typed(cases, payloads) && Sized(cases)
    ensures result == EncodeCase(cases, choice, payloads)
    decreases cases, 1
  {
    if cases.Pair? {
      if choice == 0 {
        result := Serialize(cases.first, payloads.first);
      } else {
        result := SerializeCase(cases.second, choice - 1, payloads.second);
      }
    } else {
      result := [];
    }
  }

  /** A decoder at an offset: the next position and the value, or a revert. */
  method DeserializeOffset(s: Schema, pos: nat, mem: Memory) returns (r: Option<Parsed>)
    requires Sized(s)
    ensures r == Decode(s, pos, mem)
    decreases s, 0, 0
  {
    match s
    case Unit =>
      r := Some(Parsed(pos, VUnit));
    case UInt(size) =>
      r := DeserializeOffsetUInt(size, pos, mem.input);
      assert mem == Memory(mem.input, mem.beyond);
    case Bool =>
      var b :- DecodeBool(pos, mem.input);
      r := Some(Parsed(pos + 1, VBool(b)));
    case OptionBool =>
      if pos >= |mem.input| {
        return None;
      }
      if mem.input[pos] == 0 {
        return Some(Parsed(pos + 1, VOptionBool(Neither)));
      }
      if mem.input[pos] != 1 {
        return None;
      }
      var b :- DecodeBool(pos + 1, mem.input);
      r := Some(Parsed(pos + 2, VOptionBool(if b then Yes else No)));
    case Bytes =>
      r := DeserializeOffsetBytes(pos, mem.input);
      assert mem == Memory(mem.input, mem.beyond);
    case Fixed(size) =>
      if pos + size > MAX_UINT256 {
        return None;
      }
      r := Some(Parsed(pos + size, VBytes(Load(mem, pos, size))));
    case Seq(element) =>
      r := DeserializeOffsetSeq(element, pos, mem);
    case Opt(inner) =>
      var hasValue :- DecodeBool(pos, mem.input);
      if !hasValue {
        return Some(Parsed(pos + 1, VOpt(false, Default(inner))));
      }
      var x := DeserializeOffset(inner, pos + 1, mem);
      if x.None? {
        return None;
      }
      r := Some(Parsed(x.value.pos, VOpt(true, x.value.value)));
    case Pair(a, b) =>
      var x := DeserializeOffset(a, pos, mem);
      if x.None? {
        return None;
      }
      var y := DeserializeOffset(b, x.value.pos, mem);
      if y.None? {
        return None;
      }
      r := Some(Parsed(y.value.pos, VPair(x.value.value, y.value.value)));
    case Union(cases) =>
      if pos >= |mem.input| {
        return None;
      }
      var choice := mem.input[pos];
      var x := DeserializeOffsetCase(cases, choice, pos + 1, mem);
      if x.None? || choice >= Count(cases) {
        return None;
      }
      r := Some(Parsed(x.value.pos, VUnion(choice, x.value.value)));
  }

  method DeserializeOffsetSeq(element: Schema, pos: nat, mem: Memory) returns (r: Option<Parsed>)
    requires Sized(element)
    ensures r == Decode(Seq(element), pos, mem)
    decreases element, 0, 2
  {
    hide DecodeLen, DecodeAll;
    var length := DeserializeOffsetLen(pos, mem.input);
    if length.None? {
      return None;
    }
    r := DeserializeElements(element, length.value.value, length.value.pos, mem);
  }

  method DeserializeElements(element: Schema, len: nat, pos: nat, mem: Memory) returns (r: Option<Parsed>)
    requires Sized(element)
    ensures r == match DecodeAll(element, len, pos, mem) case None => None
      case Some(all) => Some(Parsed(all.pos, VSeq(all.items)))
    decreases element, 0, 1
  {
    hide Decode, DecodeAll;
    ghost var all := DecodeAll(element, len, pos, mem);
    var newPos := pos;
    var items: seq<Value> := [];
    if all.Some? {
      assert [] + all.value.items == all.value.items;
    }
    var i := 0;
    while i < len
      invariant 0 <= i <= len
      invariant all == Continued(items, DecodeAll(element, len - i, newPos, mem))
    {
      OneMore(element, items, len - i, newPos, mem);
      var x := DeserializeOffset(element, newPos, mem);
      if x.None? {
        return None;
      }
      items := items + [x.value.value];
      newPos := x.value.pos;
      i := i + 1;
    }
    NoMore(element, items, newPos, mem);
    r := Some(Parsed(newPos, VSeq(items)));
  }

  /** What decoding the remaining elements makes of those decoded so far. */
  ghost function Continued(items: seq<Value>, rest: Option<ParsedAll>): Option<ParsedAll> {
    match rest
    case None => None
    case Some(r) => Some(ParsedAll(r.pos, items + r.items))
  }

  lemma OneMore(element: Schema, items: seq<Value>, n: nat, pos: nat, mem: Memory)
    requires n > 0
    ensures Continued(items, DecodeAll(element, n, pos, mem)) ==
      match Decode(element, pos, mem)
      case None => None
      case Some(x) => Continued(items + [x.value], DecodeAll(element, n - 1, x.pos, mem))
  {
    hide Decode;
    if Decode(element, pos, mem).Some? {
      var x := Decode(element, pos, mem).value;
      var rest := DecodeAll(element, n - 1, x.pos, mem);
      if rest.Some? {
        assert items + ([x.value] + rest.value.items) == items + [x.value] + rest.value.items;
      }
    }
  }

  lemma NoMore(element: Schema, items: seq<Value>, pos: nat, mem: Memory)
    ensures Continued(items, DecodeAll(element, 0, pos, mem)) == Some(ParsedAll(pos, items))
  {
    assert items + [] == items;
  }

  method DeserializeOffsetCase(cases: Schema, choice: nat, pos: nat, mem: Memory) returns (r: Option<Parsed>)
    requires Sized(cases)
    ensures r == DecodeCase(cases, choice, pos, mem)
    decreases cases, 0, 2
  {
    if !cases.Pair? {
      return Some(Parsed(pos, Default(cases)));
    }
    if choice == 0 {
      var x := DeserializeOffset(cases.first, pos, mem);
      if x.None? {
        return None;
      }
      r := Some(Parsed(x.value.pos, VPair(x.value.value, Default(cases.second))));
    } else {
      var x := DeserializeOffsetCase(cases.second, choice - 1, pos, mem);
      if x.None? {
        return None;
      }
      r := Some(Parsed(x.value.pos, VPair(Default(cases.first), x.value.value)));
    }
  }

  /** A complete decoder. */
  method DeserializeAll(s: Schema, input: seq<byte>, beyond: (nat, nat) -> byte) returns (r: Option<Value>)
    requires Sized(s)
    ensures r == Deserialize(s, input, beyond)
  {
    var x := DeserializeOffset(s, 0, Memory(input, beyond));
    if x.None? || x.value.pos != |input| {
      return None;
    }
    r := Some(x.value.value);
  }
}
