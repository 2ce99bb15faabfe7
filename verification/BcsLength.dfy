/**
 * Lengths in Binary Canonical Serialization: base-128 digits, least significant first, high bit on all but the last.
 */
module BcsLength {
  import opened Wrappers
  import opened Words

  datatype Length = Length(pos: nat, value: uint256)

  // ---------------------------------------------------------------- specification

  function EncodeLen(x: nat): (bytes: seq<byte>)
    ensures |bytes| >= 1
  {
    if x < 128 then [x] else [x % 128 + 128] + EncodeLen(x / 128)
  }

  /** The number that digits stand for; the high bits are dropped from all but the last. */
  function LebValue(bytes: seq<byte>): nat
    requires |bytes| > 0
  {
    if |bytes| == 1 then bytes[0]
    else bytes[0] % 128 + 128 * LebValue(bytes[1..])
  }

  /** The first index from `i` on that holds a last digit. */
  function Terminator(input: seq<byte>, i: nat): (r: Option<nat>)
    ensures r.Some? ==> i <= r.value < |input| && input[r.value] < 128
    ensures r.Some? ==> forall k :: i <= k < r.value ==> input[k] >= 128
    ensures r.None? ==> forall k :: i <= k < |input| ==> input[k] >= 128
    decreases |input| - i
  {
    if i >= |input| then None
    else if input[i] < 128 then Some(i)
    else Terminator(input, i + 1)
  }

  /** What is decoded at `pos`: nothing if no last digit follows, if there are over 37 digits, or on overflow. */
  function DecodeLen(pos: nat, input: seq<byte>): Option<Length> {
    var end :- Terminator(input, pos);
    var digits := input[pos..end + 1];
    if |digits| <= 37 && LebValue(digits) <= MAX_UINT256 then Some(Length(end + 1, LebValue(digits))) else None
  }

  // ---------------------------------------------------------------- digits

  function Pow128(k: nat): (p: nat)
    ensures p > 0
  {
    if k == 0 then 1 else 128 * Pow128(k - 1)
  }

  lemma {:induction false} Pow128Adds(j: nat, k: nat)
    ensures Pow128(j + k) == Pow128(j) * Pow128(k)
  {
    if j > 0 {
      Pow128Adds(j - 1, k);
      assert 128 * (Pow128(j - 1) * Pow128(k)) == 128 * Pow128(j - 1) * Pow128(k);
    }
  }

  /** 37 digits are needed for the largest uint256, and the weight of a 38th no longer fits. */
  lemma Pow128Bounds()
    ensures Pow128(36) <= MAX_UINT256 < Pow128(37)
  {
    assert Pow128(1) == 0x80;
    hide Pow128;
    Pow128Adds(1, 1);
    assert Pow128(2) == 0x4000;
    Pow128Adds(2, 2);
    assert Pow128(4) == 0x1000_0000;
    Pow128Adds(4, 4);
    assert Pow128(8) == 0x100_0000_0000_0000;
    Pow128Adds(8, 1);
    assert Pow128(9) == 0x8000_0000_0000_0000;
    Pow128Adds(9, 9);
    assert Pow128(18) == 0x4000_0000_0000_0000_0000_0000_0000_0000;
    Pow128Adds(18, 18);
    assert Pow128(36) == 0x1000_0000_0000_0000_0000_0000_0000_0000_0000_0000_0000_0000_0000_0000_0000_0000;
    Pow128Adds(36, 1);
  }

  lemma {:induction false} Pow128Monotone(j: nat, k: nat)
    requires j <= k
    ensures Pow128(j) <= Pow128(k)
  {
    if j < k {
      Pow128Monotone(j, k - 1);
    }
  }

  lemma Pow128FitsUpTo36(k: nat)
    ensures Pow128(k) <= MAX_UINT256 <==> k <= 36
  {
    hide Pow128;
    Pow128Bounds();
    if k <= 36 {
      Pow128Monotone(k, 36);
    } else {
      Pow128Monotone(37, k);
    }
  }

  /** The number that the first `k` digits contribute. */
  function LebPrefix(bytes: seq<byte>, k: nat): nat
    requires k <= |bytes|
  {
    if k == 0 then 0 else LebPrefix(bytes, k - 1) + Pow128(k - 1) * (bytes[k - 1] % 128)
  }

  lemma {:induction false} LebSplit(bytes: seq<byte>, k: nat)
    requires k < |bytes|
    ensures LebValue(bytes) == LebPrefix(bytes, k) + Pow128(k) * LebValue(bytes[k..])
  {
    if k == 0 {
      assert bytes[0..] == bytes;
    } else {
      LebSplit(bytes, k - 1);
      var tail := bytes[k - 1..];
      assert tail[1..] == bytes[k..];
      assert Pow128(k - 1) * (tail[0] % 128 + 128 * LebValue(tail[1..]))
          == Pow128(k - 1) * (tail[0] % 128) + Pow128(k) * LebValue(tail[1..]) by {
        MulDistributes(Pow128(k - 1), tail[0] % 128, LebValue(tail[1..]));
      }
    }
  }

  /** What the first digits contribute never exceeds the number; with the last digit it is the number. */
  lemma PrefixIsPart(bytes: seq<byte>, k: nat)
    requires k < |bytes|
    ensures LebPrefix(bytes, k) <= LebValue(bytes)
    ensures k == |bytes| - 1 ==> LebValue(bytes) == LebPrefix(bytes, k) + Pow128(k) * bytes[k]
  {
    hide LebPrefix, Pow128;
    LebSplit(bytes, k);
    var tail := bytes[k..];
    MulNonNegative(Pow128(k), LebValue(tail));
    if k == |bytes| - 1 {
      assert tail == [bytes[k]];
    }
  }

  lemma MulNonNegative(p: nat, a: nat)
    ensures 0 <= p * a
  {
  }

  lemma MulDistributes(p: nat, a: nat, b: nat)
    ensures p * (a + 128 * b) == p * a + 128 * p * b
  {
    assert p * (128 * b) == 128 * p * b;
  }

  // ---------------------------------------------------------------- properties of the encoding

  /** An encoding has at most k digits if the number is below 128^k; so at most 37 for a uint256. */
  lemma {:induction false} EncodedLength(x: nat, k: nat)
    requires k > 0 && x < Pow128(k)
    ensures |EncodeLen(x)| <= k
  {
    if x >= 128 {
      EncodedLength(x / 128, k - 1);
    }
  }

  lemma EncodingOfWordIsShort(x: uint256)
    ensures |EncodeLen(x)| <= 37
  {
    Pow128Bounds();
    EncodedLength(x, 37);
  }

  /** All digits but the last carry the high bit, the last does not, and together they stand for the number. */
  lemma {:induction false} EncodedDigits(x: nat)
    ensures var e := EncodeLen(x);
      && (forall i :: 0 <= i < |e| - 1 ==> e[i] >= 128)
      && e[|e| - 1] < 128
      && LebValue(e) == x
      && (x > 0 ==> e[|e| - 1] > 0)
  {
    if x >= 128 {
      EncodedDigits(x / 128);
      DigitsOnTop(x % 128 + 128, EncodeLen(x / 128));
    }
  }

  lemma DigitsOnTop(digit: byte, f: seq<byte>)
    requires digit >= 128 && |f| > 0
    requires (forall i :: 0 <= i < |f| - 1 ==> f[i] >= 128) && f[|f| - 1] < 128
    ensures var e := [digit] + f;
      && (forall i :: 0 <= i < |e| - 1 ==> e[i] >= 128)
      && e[|e| - 1] == f[|f| - 1]
      && LebValue(e) == digit - 128 + 128 * LebValue(f)
  {
    var e := [digit] + f;
    assert e[1..] == f;
    assert forall i :: 1 <= i < |e| ==> e[i] == f[i - 1];
  }

  lemma {:induction false} TerminatorAt(input: seq<byte>, i: nat, end: nat)
    requires i <= end < |input| && input[end] < 128
    requires forall k :: i <= k < end ==> input[k] >= 128
    ensures Terminator(input, i) == Some(end)
    decreases end - i
  {
    if i < end {
      TerminatorAt(input, i + 1, end);
    }
  }

  /** Every uint256 is decoded from its encoding, whatever precedes and follows it. */
  lemma LengthRoundTrip(pre: seq<byte>, x: uint256, post: seq<byte>)
    ensures DecodeLen(|pre|, pre + EncodeLen(x) + post) == Some(Length(|pre| + |EncodeLen(x)|, x))
  {
    LengthAt(|pre|, pre + EncodeLen(x) + post, x);
  }

  lemma LengthAt(pos: nat, input: seq<byte>, x: uint256)
    requires pos + |EncodeLen(x)| <= |input| && input[pos..pos + |EncodeLen(x)|] == EncodeLen(x)
    ensures DecodeLen(pos, input) == Some(Length(pos + |EncodeLen(x)|, x))
  {
    var e := EncodeLen(x);
    EncodedDigits(x);
    EncodingOfWordIsShort(x);
    assert forall i :: 0 <= i < |e| ==> input[pos + i] == e[i];
    forall k | pos <= k < pos + |e| - 1 ensures input[k] >= 128 {
      assert input[k] == e[k - pos];
    }
    TerminatorAt(input, pos, pos + |e| - 1);
  }

  /** A decoded length ends inside the input, after at least one digit. */
  lemma DecodedInside(pos: nat, input: seq<byte>)
    requires DecodeLen(pos, input).Some?
    ensures pos < DecodeLen(pos, input).value.pos <= |input|
  {
  }

  lemma {:induction false} ReencodedDigits(bytes: seq<byte>)
    requires |bytes| > 0 && bytes[|bytes| - 1] < 128
    requires forall i :: 0 <= i < |bytes| - 1 ==> bytes[i] >= 128
    ensures EncodeLen(LebValue(bytes)) == bytes <==> |bytes| == 1 || bytes[|bytes| - 1] > 0
    ensures bytes[|bytes| - 1] > 0 ==> LebValue(bytes) > 0
  {
    if |bytes| > 1 {
      var tail := bytes[1..];
      assert tail[|tail| - 1] == bytes[|bytes| - 1];
      if bytes[|bytes| - 1] == 0 {
        EncodedDigits(LebValue(bytes));
      } else {
        ReencodedDigits(tail);
        EncodeStep(bytes[0], LebValue(tail));
        hide EncodeLen;
        assert bytes == [bytes[0]] + tail;
      }
    }
  }

  lemma EncodeStep(digit: byte, rest: nat)
    requires digit >= 128 && rest > 0
    ensures EncodeLen(digit % 128 + 128 * rest) == [digit] + EncodeLen(rest)
  {
    var x := digit % 128 + 128 * rest;
    assert x / 128 == rest && x % 128 == digit % 128;
  }

  /**
   * Decoding is not strict: digits are accepted that no encoding produces. Encoding a decoded length gives the digits
   * back exactly if there is one digit or the last one is not zero.
   */
  lemma ReencodingIsIdentityIffMinimal(pos: nat, input: seq<byte>)
    requires DecodeLen(pos, input).Some?
    ensures var r := DecodeLen(pos, input).value;
      EncodeLen(r.value) == input[pos..r.pos] <==> r.pos == pos + 1 || input[r.pos - 1] != 0
  {
    var r := DecodeLen(pos, input).value;
    ReencodedDigits(input[pos..r.pos]);
  }

  /** Two digits for the length zero, which is encoded by one. */
  lemma PaddedZeroIsAccepted()
    ensures DecodeLen(0, [0x80, 0x00]) == Some(Length(2, 0))
    ensures EncodeLen(0) != [0x80, 0x00]
  {
    assert Terminator([0x80, 0x00], 0) == Terminator([0x80, 0x00], 1) == Some(1);
    var digits: seq<byte> := [0x80, 0x00];
    assert digits[0..2] == digits && digits[1..] == [0];
  }

  // ---------------------------------------------------------------- the loops

  method SerializeLen(x: uint256) returns (result: seq<byte>)
    ensures result == EncodeLen(x)
    ensures |result| <= 37
  {
    var rest: uint256 := x;
    result := [];
    while true
      invariant EncodeLen(x) == result + EncodeLen(rest)
      decreases rest
    {
      if rest < 128 {
        result := result + [rest];
        EncodingOfWordIsShort(x);
        return;
      }
      var xb := rest / 128;
      var remainder := rest - xb * 128;
      assert remainder == rest % 128;
      result := result + [remainder + 128];
      rest := xb;
    }
  }

  /** Every sum, product and index of the loops is checked; a failed check reverts. */
  method DeserializeOffsetLen(pos: nat, input: seq<byte>) returns (r: Option<Length>)
    ensures r == DecodeLen(pos, input)
  {
    var idx := 0;
    while true
      invariant forall k :: pos <= k < pos + idx ==> k < |input| && input[k] >= 128
      invariant Terminator(input, pos) == Terminator(input, pos + idx)
      decreases |input| - idx
    {
      if pos + idx >= |input| {
        return None;
      }
      if input[pos + idx] < 128 {
        r := SumDigits(pos, input, idx);
        return;
      }
      idx := idx + 1;
    }
  }

  method SumDigits(pos: nat, input: seq<byte>, idx: nat) returns (r: Option<Length>)
    requires pos + idx < |input|
    requires Terminator(input, pos) == Some(pos + idx)
    ensures r == DecodeLen(pos, input)
  {
    hide LebValue, Terminator;
    ghost var digits := input[pos..pos + idx + 1];
    var result: nat, power: nat := 0, 1;
    var u := 0;
    while u < idx
      invariant 0 <= u <= idx
      invariant power == Pow128(u) <= MAX_UINT256
      invariant result == LebPrefix(digits, u) <= MAX_UINT256
    {
      var val := input[pos + u] - 128;
      assert digits[u] == input[pos + u] && val == digits[u] % 128;
      PrefixIsPart(digits, u + 1);
      assert LebPrefix(digits, u + 1) == result + power * val;
      if result + power * val > MAX_UINT256 {
        return None;
      }
      result := result + power * val;
      Pow128FitsUpTo36(u + 1);
      assert Pow128(u + 1) == power * 128;
      if power * 128 > MAX_UINT256 {
        return None;
      }
      power := power * 128;
      u := u + 1;
    }
    Pow128FitsUpTo36(idx);
    PrefixIsPart(digits, idx);
    if result + power * input[pos + idx] > MAX_UINT256 {
      return None;
    }
    r := Some(Length(pos + idx + 1, result + power * input[pos + idx]));
  }
}
