/**
 * The variable-length "remaining length" prefix of a sub-device frame
 * (`_getMQTTLenArray`): the scheme of section 2.2.3 of MQTT 3.1.1, seven bits
 * per byte, least significant group first, bit 7 set on every byte that is
 * followed by another. Unlike MQTT there is no four-byte cap, and a length of
 * zero or less encodes to nothing at all.
 */
module RemainingLength {
  import opened Bytes

  /** Bit 7 (`b & 0x80`): another length byte follows. */
  predicate HasMore(b: Byte)
  {
    b >= 0x80
  }

  /** The bytes `_getMQTTLenArray(len)` returns. */
  function Encode(len: int): seq<Byte>
    decreases if len <= 0 then 0 else len
  {
    if len <= 0 then []
    else if len / 0x80 != 0 then [len % 0x80 + 0x80] + Encode(len / 0x80)
    else [len % 0x80]
  }

  /** The length a prefix stands for: the sum of `(b & 0x7F) * 128^i`. */
  function Value(s: seq<Byte>): nat
  {
    if s == [] then 0 else s[0] % 0x80 + 0x80 * Value(s[1..])
  }

  /** Every byte but the last carries the continuation bit and the last does not. */
  predicate WellFormed(s: seq<Byte>)
  {
    && |s| > 0
    && (forall i :: 0 <= i < |s| - 1 ==> HasMore(s[i]))
    && !HasMore(s[|s| - 1])
  }

  /** A well-formed prefix without a superfluous trailing zero group. */
  predicate Canonical(s: seq<Byte>)
  {
    WellFormed(s) && s[|s| - 1] != 0
  }

  function Pow128(k: nat): (r: nat)
    ensures r >= 1
  {
    if k == 0 then 1 else 0x80 * Pow128(k - 1)
  }

  /** Non-positive lengths give the empty prefix; positive ones a canonical
      prefix whose groups add back up to the length. */
  lemma {:induction false} EncodeIsCanonical(len: int)
    ensures Encode(len) == [] <==> len <= 0
    ensures len > 0 ==> Canonical(Encode(len)) && Value(Encode(len)) == len
    decreases if len <= 0 then 0 else len
  {
    if len > 0 && len / 0x80 != 0 {
      EncodeIsCanonical(len / 0x80);
      ContinuedCanonical(len % 0x80, Encode(len / 0x80));
    }
  }

  /** A low group with the continuation bit in front of a canonical prefix. */
  lemma ContinuedCanonical(low: Byte, t: seq<Byte>)
    requires low < 0x80 && Canonical(t)
    ensures Canonical([low + 0x80] + t) && Value([low + 0x80] + t) == low + 0x80 * Value(t)
  {
    var r := [low + 0x80] + t;
    assert r[1..] == t;
    forall i | 0 <= i < |r| - 1
      ensures HasMore(r[i])
    {
      if i > 0 {
        assert r[i] == t[i - 1];
      }
    }
    assert r[|r| - 1] == t[|t| - 1];
  }

  /** The prefix has as many bytes as 128-based digits are needed for the length. */
  lemma {:induction false} EncodeLength(len: int)
    requires len > 0
    ensures Pow128(|Encode(len)| - 1) <= len < Pow128(|Encode(len)|)
    decreases len
  {
    if len / 0x80 != 0 {
      EncodeLength(len / 0x80);
    }
  }

  /** Every canonical prefix is the encoding of the length it stands for. */
  lemma {:induction false} EncodeValue(s: seq<Byte>)
    requires Canonical(s)
    ensures Encode(Value(s)) == s
    decreases |s|
  {
    if |s| == 1 {
      assert Value(s[1..]) == 0;
    } else {
      var t := s[1..];
      assert t[|t| - 1] == s[|s| - 1];
      assert Canonical(t) by {
        forall i | 0 <= i < |t| - 1
          ensures HasMore(t[i])
        {
          assert t[i] == s[i + 1];
        }
      }
      EncodeValue(t);
      EncodeIsCanonical(Value(t));
      var v := Value(s);
      assert Value(t) > 0;
      assert v / 0x80 == Value(t) && v % 0x80 == s[0] - 0x80;
      assert s == [s[0]] + t;
    }
  }

  /** The boundary values quoted for the scheme. */
  lemma Examples()
    ensures Encode(0) == [] && Encode(-5) == []
    ensures Encode(8) == [0x08] && Encode(127) == [0x7F]
    ensures Encode(128) == [0x80, 0x01] && Encode(16383) == [0xFF, 0x7F]
    ensures Encode(16384) == [0x80, 0x80, 0x01]
  {
    assert Encode(1) == [1];
    assert Encode(127) == [0x7F];
    assert Encode(128) == [0x80] + Encode(1);
    assert Encode(16383) == [0xFF] + Encode(127);
    assert Encode(16384) == [0x80] + Encode(128);
  }

  /** One pass of the loop: the group byte emitted for `digit` and the quotient left over. */
  lemma EncodeStep(digit: int)
    requires digit > 0
    ensures Encode(digit) == [if digit / 0x80 != 0 then digit % 0x80 + 0x80 else digit % 0x80] + Encode(digit / 0x80)
  {
  }

  /** `_getMQTTLenArray`: the do/while loop that emits one group per pass. */
  method GetLenArray(len: int) returns (lenArray: seq<Byte>)
    ensures lenArray == Encode(len)
  {
    lenArray := [];
    if len <= 0 {
      return;
    }
    var digit := len;
    while digit != 0
      invariant digit >= 0
      invariant lenArray + Encode(digit) == Encode(len)
      decreases digit
    {
      EncodeStep(digit);
      var group: Byte;
      if digit / 0x80 != 0 {
        group := digit % 0x80 + 0x80;
      } else {
        group := digit % 0x80;
      }
      assert lenArray + Encode(digit) == (lenArray + [group]) + Encode(digit / 0x80);
      lenArray := lenArray + [group];
      digit := digit / 0x80;
    }
  }
}
