/** Hexadecimal decoding and encoding with the behaviour of Go's `encoding/hex`. */
module Hex {
  import opened Types

  datatype HexError = InvalidByte(c: char) | ErrLength

  predicate IsHexDigit(c: char) {
    '0' <= c <= '9' || 'a' <= c <= 'f' || 'A' <= c <= 'F'
  }

  function HexValue(c: char): (v: nat)
    requires IsHexDigit(c)
    ensures v < 16
  {
    if c <= '9' then c as int - '0' as int
    else if c <= 'F' then c as int - 'A' as int + 10
    else c as int - 'a' as int + 10
  }

  /** The lower-case digit Go's encoder writes for a nibble. */
  function HexDigit(v: nat): (c: char)
    requires v < 16
    ensures IsHexDigit(c) && HexValue(c) == v
  {
    "0123456789abcdef"[v]
  }

  /** A well-formed hex string: even length, hex digits only. */
  predicate IsHex(s: string) {
    |s| % 2 == 0 && forall i | 0 <= i < |s| :: IsHexDigit(s[i])
  }

  /** Byte `i` of a decoding of `s` is the value of the digit pair at `2*i`, high nibble first. */
  predicate PairAt(s: string, i: nat, v: int) {
    2 * i + 1 < |s| && IsHexDigit(s[2 * i]) && IsHexDigit(s[2 * i + 1])
    && v == HexValue(s[2 * i]) * 16 + HexValue(s[2 * i + 1])
  }

  /** Decoding the pair at the front and then the rest keeps every byte at its pair. */
  lemma PairsStep(s: string, rest: Bytes)
    requires |s| >= 2 && IsHexDigit(s[0]) && IsHexDigit(s[1])
    requires forall i | 0 <= i < |rest| :: PairAt(s[2..], i, rest[i])
    ensures var b := [HexValue(s[0]) * 16 + HexValue(s[1])] + rest;
      forall i | 0 <= i < |b| :: PairAt(s, i, b[i])
  {
    var b := [HexValue(s[0]) * 16 + HexValue(s[1])] + rest;
    forall i | 1 <= i < |b| ensures PairAt(s, i, b[i]) {
      assert PairAt(s[2..], i - 1, rest[i - 1]);
      assert s[2 * i] == s[2..][2 * (i - 1)] && s[2 * i + 1] == s[2..][2 * (i - 1) + 1];
    }
  }

  /**
   * `hex.DecodeString`: decodes pairs of digits from the front. On malformed input
   * it returns the bytes decoded before the first bad pair together with the error;
   * an odd trailing digit gives ErrLength, a bad character InvalidByte.
   */
  function DecodeString(s: string): (r: (Bytes, Option<HexError>))
    ensures |r.0| <= |s| / 2
    ensures r.1.None? <==> IsHex(s)
    ensures r.1.None? ==> |r.0| == |s| / 2
    ensures forall i | 0 <= i < |r.0| :: PairAt(s, i, r.0[i])
    decreases |s|
  {
    if |s| == 0 then ([], None)
    else if !IsHexDigit(s[0]) then ([], Some(InvalidByte(s[0])))
    else if |s| == 1 then ([], Some(ErrLength))
    else if !IsHexDigit(s[1]) then ([], Some(InvalidByte(s[1])))
    else
      var rest := DecodeString(s[2..]);
      assert IsHex(s) <==> IsHex(s[2..]) by {
        if IsHex(s[2..]) {
          forall i | 2 <= i < |s| ensures IsHexDigit(s[i]) {
            assert s[i] == s[2..][i - 2];
          }
        }
      }
      PairsStep(s, rest.0);
      ([HexValue(s[0]) * 16 + HexValue(s[1])] + rest.0, rest.1)
  }

  /**
   * Decoding stops only at a bad pair: when it reports an error, the pair right after the
   * bytes it returned is missing a digit or holds a character that is not a hex digit.
   */
  lemma {:induction false} DecodeStopsAtBadPair(s: string)
    ensures var r := DecodeString(s);
      r.1.Some? ==> !(2 * |r.0| + 1 < |s| && IsHexDigit(s[2 * |r.0|]) && IsHexDigit(s[2 * |r.0| + 1]))
    decreases |s|
  {
    if |s| >= 2 && IsHexDigit(s[0]) && IsHexDigit(s[1]) {
      DecodeStopsAtBadPair(s[2..]);
      var rest := DecodeString(s[2..]);
      assert DecodeString(s) == ([HexValue(s[0]) * 16 + HexValue(s[1])] + rest.0, rest.1);
      if 2 * |rest.0| + 3 < |s| {
        assert s[2 * (|rest.0| + 1)] == s[2..][2 * |rest.0|];
        assert s[2 * (|rest.0| + 1) + 1] == s[2..][2 * |rest.0| + 1];
      }
    }
  }

  /** `hex.EncodeToString`: two lower-case digits per byte, high nibble first. */
  function EncodeToString(b: Bytes): (s: string)
    ensures |s| == 2 * |b|
    ensures forall i | 0 <= i < |s| :: IsHexDigit(s[i])
  {
    if b == [] then [] else [HexDigit(b[0] / 16), HexDigit(b[0] % 16)] + EncodeToString(b[1..])
  }

  /** Decoding an encoded byte string gives it back, without error. */
  lemma {:induction false} DecodeEncode(b: Bytes)
    ensures DecodeString(EncodeToString(b)) == (b, None)
  {
    if b != [] {
      var s := EncodeToString(b);
      assert s[2..] == EncodeToString(b[1..]);
      DecodeEncode(b[1..]);
      assert [b[0]] + b[1..] == b;
    }
  }
}
