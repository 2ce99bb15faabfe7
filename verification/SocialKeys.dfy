/** Keys of posts and the bytes they are stored under. */
module SocialKeys {
  import opened Wrappers
  import opened Words
  import opened Arithmetic
  import opened BcsCodec

  type ChainId = s: seq<byte> | |s| == 32 witness seq(32, _ => 0)

  /** The timestamp is in microseconds. */
  datatype Key = Key(timestamp: uint64, author: ChainId, index: uint32)

  // ---------------------------------------------------------------- big-endian words

  function BigEndian(n: nat, size: nat): (bytes: seq<byte>)
    requires n < Pow256(size)
    ensures |bytes| == size
  {
    if size == 0 then []
    else
      DigitFits(n, size);
      [n / Pow256(size - 1)] + BigEndian(n % Pow256(size - 1), size - 1)
  }

  lemma DigitFits(n: nat, size: nat)
    requires size > 0 && n < Pow256(size)
    ensures 0 <= n / Pow256(size - 1) < 256
  {
    var p := Pow256(size - 1);
    var d := n / p;
    assert n == d * p + n % p;
    if d >= 256 {
      MulMonotone(256, d, p);
    }
  }

  function FromBigEndian(bytes: seq<byte>): (n: nat)
    ensures n < Pow256(|bytes|)
  {
    if bytes == [] then 0
    else
      var p := Pow256(|bytes| - 1);
      MulMonotone(bytes[0], 255, p);
      bytes[0] * p + FromBigEndian(bytes[1..])
  }

  lemma {:induction false} BigEndianDecoded(n: nat, size: nat)
    requires n < Pow256(size)
    ensures FromBigEndian(BigEndian(n, size)) == n
  {
    if size > 0 {
      var p := Pow256(size - 1);
      DigitFits(n, size);
      BigEndianDecoded(n % p, size - 1);
      HighDigitFirst(n / p, BigEndian(n % p, size - 1));
      QuotientAndRemainder(n, p);
      assert BigEndian(n, size) == [n / p] + BigEndian(n % p, size - 1);
    }
  }

  lemma HighDigitFirst(d: byte, rest: seq<byte>)
    ensures FromBigEndian([d] + rest) == d * Pow256(|rest|) + FromBigEndian(rest)
  {
    hide Pow256;
    assert ([d] + rest)[1..] == rest;
  }

  lemma {:induction false} BigEndianEncoded(bytes: seq<byte>)
    ensures BigEndian(FromBigEndian(bytes), |bytes|) == bytes
  {
    if bytes != [] {
      var p, rest := Pow256(|bytes| - 1), FromBigEndian(bytes[1..]);
      BigEndianEncoded(bytes[1..]);
      QuotientUnique(bytes[0] * p + rest, p, bytes[0], rest);
      DigitFits(FromBigEndian(bytes), |bytes|);
      assert bytes == [bytes[0]] + bytes[1..];
    }
  }

  // ---------------------------------------------------------------- lexicographic order

  predicate LexLess(a: seq<byte>, b: seq<byte>) {
    b != [] && (a == [] || a[0] < b[0] || (a[0] == b[0] && LexLess(a[1..], b[1..])))
  }

  lemma {:induction false} LexLessAppended(a: seq<byte>, b: seq<byte>, c: seq<byte>, d: seq<byte>)
    requires |a| == |c|
    ensures LexLess(a + b, c + d) <==> LexLess(a, c) || (a == c && LexLess(b, d))
  {
    if a == [] {
      assert a + b == b && c + d == d;
    } else {
      assert (a + b)[1..] == a[1..] + b && (c + d)[1..] == c[1..] + d;
      LexLessAppended(a[1..], b, c[1..], d);
      assert a == [a[0]] + a[1..] && c == [c[0]] + c[1..];
    }
  }

  lemma HighDigitDecides(x: nat, y: nat, p: nat, r: nat, s: nat)
    requires r < p && s < p
    ensures x * p + r < y * p + s <==> x < y || (x == y && r < s)
  {
    if x < y {
      MulMonotone(x + 1, y, p);
    } else if y < x {
      MulMonotone(y + 1, x, p);
    }
  }

  /** Bytes of equal length compare as the numbers they stand for. */
  lemma {:induction false} LexLessIsNumeric(a: seq<byte>, b: seq<byte>)
    requires |a| == |b|
    ensures LexLess(a, b) <==> FromBigEndian(a) < FromBigEndian(b)
  {
    hide Pow256;
    if a != [] {
      LexLessIsNumeric(a[1..], b[1..]);
      HighDigitDecides(a[0], b[0], Pow256(|a| - 1), FromBigEndian(a[1..]), FromBigEndian(b[1..]));
    }
  }

  // ---------------------------------------------------------------- the codec

  /** The complement of a word: all bits inverted. */
  function Not64(x: uint64): uint64 {
    MAX_UINT64 - x
  }

  function Not32(x: uint32): uint32 {
    MAX_UINT32 - x
  }

  lemma WordSizes()
    ensures Pow256(4) == MAX_UINT32 + 1 && Pow256(8) == MAX_UINT64 + 1
  {
    assert Pow256(2) == 256 * Pow256(1);
    assert Pow256(3) == 256 * Pow256(2);
    assert Pow256(4) == 256 * Pow256(3);
    assert Pow256(5) == 256 * Pow256(4);
    assert Pow256(6) == 256 * Pow256(5);
    assert Pow256(7) == 256 * Pow256(6);
  }

  /** A tuple of fixed-size parts has neither lengths nor padding. */
  function ToCustomBytes(key: Key): seq<byte> {
    WordSizes();
    BigEndian(Not64(key.timestamp), 8) + key.author + BigEndian(Not32(key.index), 4)
  }

  function FromCustomBytes(shortKey: seq<byte>): Option<Key> {
    if |shortKey| != 44 then None
    else
      WordSizes();
      var timeBytes, author, idxBytes := shortKey[..8], shortKey[8..40], shortKey[40..];
      Some(Key(Not64(FromBigEndian(timeBytes)), author, Not32(FromBigEndian(idxBytes))))
  }

  // ---------------------------------------------------------------- properties

  lemma KeyRoundTrip(key: Key)
    ensures FromCustomBytes(ToCustomBytes(key)) == Some(key)
  {
    WordSizes();
    hide BigEndian, FromBigEndian, Pow256;
    var time, idx := BigEndian(Not64(key.timestamp), 8), BigEndian(Not32(key.index), 4);
    BigEndianDecoded(Not64(key.timestamp), 8);
    BigEndianDecoded(Not32(key.index), 4);
    var bytes := time + key.author + idx;
    assert bytes[..8] == time && bytes[8..40] == key.author && bytes[40..] == idx;
  }

  /** Exactly the strings of 44 bytes are keys, each of one key. */
  lemma BytesRoundTrip(bytes: seq<byte>)
    ensures FromCustomBytes(bytes).Some? <==> |bytes| == 44
    ensures FromCustomBytes(bytes).Some? ==> ToCustomBytes(FromCustomBytes(bytes).value) == bytes
  {
    if |bytes| == 44 {
      WordSizes();
      hide BigEndian, FromBigEndian, Pow256;
      BigEndianEncoded(bytes[..8]);
      BigEndianEncoded(bytes[40..]);
      assert bytes == bytes[..8] + bytes[8..40] + bytes[40..];
    }
  }

  /** The order in which posts are stored: later first, then by author, then the higher index first. */
  predicate Before(k: Key, l: Key) {
    || k.timestamp > l.timestamp
    || (k.timestamp == l.timestamp && LexLess(k.author, l.author))
    || (k.timestamp == l.timestamp && k.author == l.author && k.index > l.index)
  }

  /** The byte-wise order of the stored keys is that order. */
  lemma KeysAreOrdered(k: Key, l: Key)
    ensures LexLess(ToCustomBytes(k), ToCustomBytes(l)) <==> Before(k, l)
  {
    WordSizes();
    hide BigEndian, FromBigEndian, Pow256, LexLess;
    var time, time' := BigEndian(Not64(k.timestamp), 8), BigEndian(Not64(l.timestamp), 8);
    var idx, idx' := BigEndian(Not32(k.index), 4), BigEndian(Not32(l.index), 4);
    BigEndianDecoded(Not64(k.timestamp), 8);
    BigEndianDecoded(Not64(l.timestamp), 8);
    BigEndianDecoded(Not32(k.index), 4);
    BigEndianDecoded(Not32(l.index), 4);
    LexLessIsNumeric(time, time');
    LexLessIsNumeric(idx, idx');
    LexLessAppended(time + k.author, idx, time' + l.author, idx');
    LexLessAppended(time, k.author, time', l.author);
    assert (time + k.author)[..8] == time && (time' + l.author)[..8] == time';
    assert (time + k.author)[8..] == k.author && (time' + l.author)[8..] == l.author;
  }

  /** Different keys never share an entry of the map. */
  lemma KeysAreDistinct(k: Key, l: Key)
    requires ToCustomBytes(k) == ToCustomBytes(l)
    ensures k == l
  {
    hide ToCustomBytes, FromCustomBytes;
    KeyRoundTrip(k);
    KeyRoundTrip(l);
  }
}
