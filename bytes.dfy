/**
 * Bytes of the binary sub-device protocol and the conversions the SDK applies
 * to them: big-endian integers written through a DataView and the
 * byte-to-character mapping `Array.prototype.bin2string`.
 */
module Bytes {
  import opened Wrappers

  /** One octet, as stored in a `Uint8Array`. */
  type Byte = b: int | 0 <= b < 256

  const TWO_16: nat := 0x1_0000
  const TWO_32: nat := 0x1_0000_0000

  /** `raw[i]`: undefined past the end. */
  function At(raw: seq<Byte>, i: nat): (r: Option<Byte>)
    ensures r.Some? <==> i < |raw|
  {
    if i < |raw| then Some(raw[i]) else None
  }

  /** `raw.slice(i)`: empty past the end. */
  function From(raw: seq<Byte>, i: nat): (r: seq<Byte>)
    ensures |r| == if i <= |raw| then |raw| - i else 0
  {
    if i <= |raw| then raw[i..] else []
  }

  lemma Reassociate<T>(x: seq<T>, y: seq<T>, z: seq<T>)
    ensures (x + y) + z == x + (y + z)
  {
  }

  /** The two parts of a concatenation are recovered by slicing at the seam. */
  lemma SplitAfter<T>(x: seq<T>, y: seq<T>)
    ensures (x + y)[..|x|] == x && (x + y)[|x|..] == y
  {
  }

  /** Appending to a non-empty sequence keeps its head in front. */
  lemma ConsAppend<T>(s: seq<T>, t: seq<T>)
    requires s != []
    ensures s + t == [s[0]] + (s[1..] + t)
  {
    assert s == [s[0]] + s[1..];
  }

  /** The `width` low bytes of `n`, most significant first: `n` modulo
      256^width in base 256 (so a negative `n` comes out in two's complement). */
  function BigEndian(n: int, width: nat): (r: seq<Byte>)
    ensures |r| == width
    decreases width
  {
    if width == 0 then [] else BigEndian(n / 0x100, width - 1) + [n % 0x100]
  }

  /** `DataView.setInt16`: the value modulo 2^16, most significant byte first. */
  function Be16(n: int): (r: seq<Byte>)
    ensures |r| == 2
  {
    BigEndian(n, 2)
  }

  /** `DataView.setInt32`: the value modulo 2^32, most significant byte first. */
  function Be32(n: int): (r: seq<Byte>)
    ensures |r| == 4
  {
    BigEndian(n, 4)
  }

  /** `DataView.getUint16` on two bytes. */
  function FromBe16(b: seq<Byte>): nat
    requires |b| == 2
  {
    (b[0] as int) * 0x100 + b[1]
  }

  /** `DataView.getUint32` on four bytes. */
  function FromBe32(b: seq<Byte>): nat
    requires |b| == 4
  {
    (((b[0] as int) * 0x100 + b[1]) * 0x100 + b[2]) * 0x100 + b[3]
  }

  /** The two bytes of `Be16`, digit by digit. */
  lemma Be16Digits(n: int)
    ensures Be16(n) == [(n / 0x100) % 0x100, n % 0x100]
  {
    assert BigEndian(n, 2) == BigEndian(n / 0x100, 1) + [n % 0x100];
    assert BigEndian(n / 0x100, 1) == BigEndian(n / 0x100 / 0x100, 0) + [(n / 0x100) % 0x100];
  }

  /** The four bytes of `Be32`, digit by digit. */
  lemma Be32Digits(n: int)
    ensures var q1 := n / 0x100; var q2 := q1 / 0x100; var q3 := q2 / 0x100;
            Be32(n) == [q3 % 0x100, q2 % 0x100, q1 % 0x100, n % 0x100]
  {
    var q1 := n / 0x100;
    var q2 := q1 / 0x100;
    var q3 := q2 / 0x100;
    assert BigEndian(n, 4) == BigEndian(q1, 3) + [n % 0x100];
    assert BigEndian(q1, 3) == BigEndian(q2, 2) + [q1 % 0x100];
    assert BigEndian(q2, 2) == BigEndian(q3, 1) + [q2 % 0x100];
    assert BigEndian(q3, 1) == BigEndian(q3 / 0x100, 0) + [q3 % 0x100];
  }

  /** Reading back a 16-bit field yields the written value modulo 2^16. */
  lemma Be16RoundTrip(n: int)
    ensures FromBe16(Be16(n)) == n % TWO_16
  {
    Be16Digits(n);
    var q := n / 0x100;
    assert n == q * 0x100 + n % 0x100;
    assert q == (q / 0x100) * 0x100 + q % 0x100;
    assert n == (q / 0x100) * TWO_16 + (q % 0x100) * 0x100 + n % 0x100;
    DivModUnique(n, TWO_16, q / 0x100, (q % 0x100) * 0x100 + n % 0x100);
  }

  /** Reading back a 32-bit field yields the written value modulo 2^32. */
  lemma Be32RoundTrip(n: int)
    ensures FromBe32(Be32(n)) == n % TWO_32
  {
    Be32Digits(n);
    var q1 := n / 0x100;
    var q2 := q1 / 0x100;
    var q3 := q2 / 0x100;
    assert n == q1 * 0x100 + n % 0x100;
    assert q1 == q2 * 0x100 + q1 % 0x100;
    assert q2 == q3 * 0x100 + q2 % 0x100;
    assert q3 == (q3 / 0x100) * 0x100 + q3 % 0x100;
    assert n == (q3 / 0x100) * TWO_32 + FromBe32(Be32(n));
    DivModUnique(n, TWO_32, q3 / 0x100, FromBe32(Be32(n)));
  }

  /** Writing a decoded 32-bit field reproduces the four bytes. */
  lemma FromBe32Inverse(b: seq<Byte>)
    requires |b| == 4
    ensures Be32(FromBe32(b)) == b
  {
    var hi: int := (b[0] as int) * 0x100 + b[1];
    var mid: int := hi * 0x100 + b[2];
    var n := FromBe32(b);
    Be32Digits(n);
    DivModUnique(n, 0x100, mid, b[3]);
    DivModUnique(mid, 0x100, hi, b[2]);
    DivModUnique(hi, 0x100, b[0], b[1]);
    DivModUnique(b[0], 0x100, 0, b[0]);
  }

  lemma DivModUnique(x: int, d: int, q: int, r: int)
    requires d > 0 && x == q * d + r && 0 <= r < d
    ensures x / d == q && x % d == r
  {
    var q', r' := x / d, x % d;
    assert q' * d + r' == q * d + r;
    if q > q' {
      MulAtLeast(q - q', d);
      assert false;
    } else if q < q' {
      MulAtLeast(q' - q, d);
      assert false;
    }
  }

  lemma MulAtLeast(k: int, d: int)
    requires k >= 1 && d > 0
    ensures k * d >= d
  {
  }

  /** The character `String.fromCharCode` gives for an array element; a read
      past the end yields `undefined`, which converts to code 0. */
  function CharAt(raw: seq<Byte>, i: int): char
  {
    if 0 <= i < |raw| then raw[i] as char else 0 as char
  }

  /** Slicing twice is slicing once. */
  lemma FromFrom(raw: seq<Byte>, i: nat, k: nat)
    ensures From(From(raw, i), k) == From(raw, i + k)
  {
    if i + k <= |raw| {
      assert raw[i..][k..] == raw[i + k..];
    }
  }

  /** Characters read from a slice are read from the whole array further on. */
  lemma CharsFrom(raw: seq<Byte>, i: nat, index: nat, len: nat)
    ensures Chars(From(raw, i), index, len) == Chars(raw, i + index, len)
  {
    forall k | 0 <= k < len
      ensures Chars(From(raw, i), index, len)[k] == Chars(raw, i + index, len)[k]
    {
      assert Chars(From(raw, i), index, len)[k] == CharAt(From(raw, i), index + k);
      assert Chars(raw, i + index, len)[k] == CharAt(raw, i + index + k);
      if index + k < |From(raw, i)| {
        assert From(raw, i)[index + k] == raw[i + index + k];
      }
    }
  }

  /** `raw.bin2string(index, len)`: `len` characters, one per byte from `index` on. */
  function Chars(raw: seq<Byte>, index: int, len: nat): (s: string)
    ensures |s| == len
  {
    seq(len, i requires 0 <= i < len => CharAt(raw, index + i))
  }

  /** The loop of `bin2string`, appending one character per byte. */
  method Bin2String(raw: seq<Byte>, index: int, len: nat) returns (str: string)
    ensures str == Chars(raw, index, len)
  {
    str := "";
    var i := 0;
    while i < len
      invariant 0 <= i <= len
      invariant str == Chars(raw, index, i)
    {
      str := str + [CharAt(raw, index + i)];
      i := i + 1;
    }
  }

  /** Every character of `s` is a single byte in UTF-8, so `TextEncoder` gives one byte per character. */
  predicate IsAscii(s: string)
  {
    forall i :: 0 <= i < |s| ==> s[i] as int < 0x80
  }

  /** The bytes `TextEncoder.encode` produces for an ASCII string. */
  function AsciiBytes(s: string): (r: seq<Byte>)
    requires IsAscii(s)
    ensures |r| == |s|
  {
    seq(|s|, i requires 0 <= i < |s| => s[i] as int)
  }

  /** bin2string reads back exactly the ASCII string that was encoded. */
  lemma CharsOfAscii(s: string, prefix: seq<Byte>, suffix: seq<Byte>)
    requires IsAscii(s)
    ensures Chars(prefix + AsciiBytes(s) + suffix, |prefix|, |s|) == s
  {
    var raw := prefix + AsciiBytes(s) + suffix;
    forall i | 0 <= i < |s|
      ensures Chars(raw, |prefix|, |s|)[i] == s[i]
    {
      assert raw[|prefix| + i] == AsciiBytes(s)[i] == s[i] as int;
      assert CharAt(raw, |prefix| + i) == raw[|prefix| + i] as char;
      assert (s[i] as int) as char == s[i];
    }
  }

  /** Encoding the characters bin2string read from in-range ASCII bytes gives those bytes back. */
  lemma AsciiBytesOfChars(raw: seq<Byte>, index: nat, len: nat)
    requires index + len <= |raw|
    requires forall i :: index <= i < index + len ==> raw[i] < 0x80
    ensures IsAscii(Chars(raw, index, len))
    ensures AsciiBytes(Chars(raw, index, len)) == raw[index..index + len]
  {
    var s := Chars(raw, index, len);
    forall i | 0 <= i < len
      ensures s[i] as int == raw[index + i]
    {
      assert s[i] == raw[index + i] as char;
    }
  }
}
