/** Hexadecimal text of public keys: `encoding/hex` as the session store uses it.
    Encoding always produces lower case; decoding accepts both cases. */
module Hex {
  import opened Common

  function Digit(n: int): char
    requires 0 <= n < 16
  {
    if n < 10 then ('0' as int + n) as char else ('a' as int + n - 10) as char
  }

  function Value(c: char): Option<int> {
    if '0' <= c <= '9' then Some(c as int - '0' as int)
    else if 'a' <= c <= 'f' then Some(c as int - 'a' as int + 10)
    else if 'A' <= c <= 'F' then Some(c as int - 'A' as int + 10)
    else None
  }

  function Encode(bs: seq<byte>): string {
    if bs == [] then "" else [Digit(bs[0] / 16), Digit(bs[0] % 16)] + Encode(bs[1..])
  }

  /** None for an odd length or a character that is no digit. */
  function Decode(s: string): Option<seq<byte>> {
    if s == "" then Some([])
    else if |s| == 1 then None
    else
      match (Value(s[0]), Value(s[1]), Decode(s[2..]))
      case (Some(hi), Some(lo), Some(rest)) => Some([DigitPair(hi, lo)] + rest)
      case _ => None
  }

  function DigitPair(hi: int, lo: int): byte {
    if 0 <= hi < 16 && 0 <= lo < 16 then 16 * hi + lo else 0
  }

  /** Text that is its own lower-case form. */
  predicate IsLower(s: string) {
    forall i | 0 <= i < |s| :: !('A' <= s[i] <= 'F')
  }

  lemma DigitValue(n: int)
    requires 0 <= n < 16
    ensures Value(Digit(n)) == Some(n) && !('A' <= Digit(n) <= 'F')
  {
  }

  /** The digits, in both cases, in order. */
  lemma Digits(n: nat)
    requires n < 16
    ensures Value("0123456789abcdef"[n]) == Some(n) && Value("0123456789ABCDEF"[n]) == Some(n)
    ensures Digit(n) == "0123456789abcdef"[n]
  {
  }

  lemma {:induction false} DecodeEncode(bs: seq<byte>)
    ensures Decode(Encode(bs)) == Some(bs)
    ensures IsLower(Encode(bs)) && |Encode(bs)| == 2 * |bs|
  {
    if bs != [] {
      DecodeEncode(bs[1..]);
      var hi, lo := bs[0] / 16, bs[0] % 16;
      DigitValue(hi);
      DigitValue(lo);
      var s := Encode(bs);
      assert s == [Digit(hi), Digit(lo)] + Encode(bs[1..]);
      assert s[2..] == Encode(bs[1..]);
      assert DigitPair(hi, lo) == bs[0];
      assert forall i | 2 <= i < |s| :: s[i] == s[2..][i - 2];
      assert [bs[0]] + bs[1..] == bs;
    }
  }

  lemma ValueDigit(c: char)
    requires Value(c).Some?
    ensures 0 <= Value(c).value < 16
    ensures Digit(Value(c).value) == c <==> !('A' <= c <= 'F')
  {
  }

  lemma LowerSplit(s: string)
    requires |s| >= 2
    ensures IsLower(s) <==> !('A' <= s[0] <= 'F') && !('A' <= s[1] <= 'F') && IsLower(s[2..])
  {
    assert forall i | 2 <= i < |s| :: s[i] == s[2..][i - 2];
    if IsLower(s) {
      assert forall i | 0 <= i < |s[2..]| :: s[2..][i] == s[i + 2];
    }
  }

  lemma PairEqual(a: char, b: char, x: string, s: string)
    requires |s| >= 2
    ensures [a, b] + x == s <==> a == s[0] && b == s[1] && x == s[2..]
  {
    assert s == [s[0], s[1]] + s[2..];
    if [a, b] + x == s {
      assert s[2..] == x;
    }
  }

  /** Lower-case text is the only text that encoding gives back. */
  lemma {:induction false} EncodeDecode(s: string)
    requires Decode(s).Some?
    ensures Encode(Decode(s).value) == s <==> IsLower(s)
    ensures |s| == 2 * |Decode(s).value|
  {
    if s != "" {
      var hi, lo, rest := Value(s[0]).value, Value(s[1]).value, Decode(s[2..]).value;
      EncodeDecode(s[2..]);
      ValueDigit(s[0]);
      ValueDigit(s[1]);
      LowerSplit(s);
      var v: seq<byte> := [DigitPair(hi, lo)] + rest;
      assert v[1..] == rest;
      assert v[0] / 16 == hi && v[0] % 16 == lo;
      PairEqual(Digit(hi), Digit(lo), Encode(rest), s);
    }
  }
}
