/** Subdomain labels: the names a session may take, requested or generated. */
module Labels {
  import opened Common

  predicate IsLetter(c: char) { 'a' <= c <= 'z' }

  predicate IsLetDig(c: char) { 'a' <= c <= 'z' || '0' <= c <= '9' }

  predicate IsLetDigHyp(c: char) { IsLetDig(c) || c == '-' }

  /** Whether a requested subdomain is accepted: the loop tests every character and,
      at position 0, the leading hyphen; the trailing hyphen is tested last. */
  method ValidateSubdomain(s: string) returns (ok: bool)
    ensures ok == ValidSubdomain(s)
  {
    if |s| < 3 || |s| > 63 {
      return false;
    }
    for i := 0 to |s|
      invariant forall j | 0 <= j < i :: IsLetDigHyp(s[j])
      invariant i > 0 ==> s[0] != '-'
    {
      if (s[i] < 'a' || s[i] > 'z') && (s[i] < '0' || s[i] > '9') && s[i] != '-' {
        return false;
      }
      if i == 0 && s[i] == '-' {
        return false;
      }
    }
    return s[|s| - 1] != '-';
  }

  predicate ValidSubdomain(s: string) {
    && 3 <= |s| <= 63
    && (forall i | 0 <= i < |s| :: IsLetDigHyp(s[i]))
    && s[0] != '-' && s[|s| - 1] != '-'
  }

  // The label grammar of section 2.3.1 of RFC 1035, with the leading letter relaxed
  // to a letter or digit by section 2.1 of RFC 1123, over lower-case letters:
  //   <label>   ::= <let-dig> [ [ <ldh-str> ] <let-dig> ]
  //   <ldh-str> ::= <let-dig-hyp> | <let-dig-hyp> <ldh-str>

  predicate LdhStr(s: string) {
    |s| > 0 && IsLetDigHyp(s[0]) && (|s| == 1 || LdhStr(s[1..]))
  }

  predicate Label(s: string) {
    && |s| > 0 && IsLetDig(s[0])
    && (|s| == 1 || (IsLetDig(s[|s| - 1]) && (|s| == 2 || LdhStr(s[1..|s| - 1]))))
  }

  lemma {:induction false} LdhStrChars(s: string)
    ensures LdhStr(s) <==> |s| > 0 && forall i | 0 <= i < |s| :: IsLetDigHyp(s[i])
  {
    if |s| > 1 {
      LdhStrChars(s[1..]);
      assert forall i | 1 <= i < |s| :: s[i] == s[1..][i - 1];
      if forall i | 0 <= i < |s| :: IsLetDigHyp(s[i]) {
        assert forall i | 0 <= i < |s[1..]| :: s[1..][i] == s[i + 1];
      }
    }
  }

  /** Requested subdomains are exactly the grammar's labels of 3 to 63 characters. */
  lemma ValidIffGrammar(s: string)
    ensures ValidSubdomain(s) <==> Label(s) && 3 <= |s| <= 63
  {
    if 3 <= |s| <= 63 {
      var mid := s[1..|s| - 1];
      LdhStrChars(mid);
      assert forall i | 1 <= i < |s| - 1 :: s[i] == mid[i - 1];
      assert forall i | 0 <= i < |mid| :: mid[i] == s[i + 1];
    }
  }

  // ----- generated subdomains -----

  const ALPHABET := 36

  /** Random bytes at or above this value are drawn again. */
  const REJECT := 256 - 256 % ALPHABET

  /** The alphabet is `a`..`z` followed by `0`..`9`. */
  function Letter(v: int): (c: char)
    requires 0 <= v
    ensures IsLetDig(c)
  {
    var k := v % ALPHABET;
    if k < 26 then ('a' as int + k) as char else ('0' as int + k - 26) as char
  }

  /** What `RandString` makes of a stream of random bytes; None when the stream ends early,
      which stands for a failing random source. */
  function Drawn(n: nat, entropy: seq<byte>): (r: Option<string>)
    ensures r.Some? ==> |r.value| == n && forall i | 0 <= i < n :: IsLetDig(r.value[i])
    decreases |entropy|
  {
    if n == 0 then Some("")
    else if entropy == [] then None
    else if entropy[0] >= REJECT then Drawn(n, entropy[1..])
    else
      Prefixed([Letter(entropy[0])], Drawn(n - 1, entropy[1..]))
  }

  /** Fills the buffer position by position, drawing again while a byte is rejected. */
  method RandString(n: nat, entropy: seq<byte>) returns (r: Option<string>)
    ensures r == Drawn(n, entropy)
  {
    var b: string := "";
    var used := 0;
    assert entropy[used..] == entropy;
    PrefixedEmpty(Drawn(n, entropy));
    while |b| < n
      invariant |b| <= n && 0 <= used <= |entropy|
      invariant Drawn(n, entropy) == Prefixed(b, Drawn(n - |b|, entropy[used..]))
      decreases |entropy| - used, n - |b|
    {
      if used == |entropy| {
        return None;
      }
      var v := entropy[used];
      assert entropy[used..][1..] == entropy[used + 1..];
      used := used + 1;
      if v < REJECT {
        PrefixedStep(b, Letter(v), Drawn(n - |b| - 1, entropy[used..]));
        b := b + [Letter(v)];
      }
    }
    assert b + "" == b;
    return Some(b);
  }

  function Prefixed(b: string, r: Option<string>): Option<string> {
    match r
    case None => None
    case Some(rest) => Some(b + rest)
  }

  lemma PrefixedEmpty(r: Option<string>)
    ensures Prefixed("", r) == r
  {
    assert r.Some? ==> "" + r.value == r.value;
  }

  lemma PrefixedStep(b: string, c: char, r: Option<string>)
    ensures Prefixed(b + [c], r) == Prefixed(b, Prefixed([c], r))
  {
    assert r.Some? ==> (b + [c]) + r.value == b + ([c] + r.value);
  }

  /** How many byte values below a bound are turned into the letter c. */
  function CountBytes(c: char, below: nat): nat {
    if below == 0 then 0
    else CountBytes(c, below - 1) + (if Letter(below - 1) == c then 1 else 0)
  }

  lemma LettersDistinct(i: nat, k: nat)
    requires k < ALPHABET
    ensures Letter(i) == Letter(k) <==> i % ALPHABET == k
  {
  }

  lemma {:induction false} CountPeriod(k: nat, bound: nat)
    requires k < ALPHABET
    ensures CountBytes(Letter(k), bound) == bound / ALPHABET + (if bound % ALPHABET > k then 1 else 0)
  {
    if bound > 0 {
      CountPeriod(k, bound - 1);
      LettersDistinct(bound - 1, k);
    }
  }

  /** Rejection sampling is unbiased: every letter is the image of exactly 7 of the 252
      accepted byte values. */
  lemma Unbiased(k: nat)
    requires k < ALPHABET
    ensures REJECT == 252 && CountBytes(Letter(k), REJECT) == 7
  {
    CountPeriod(k, REJECT);
  }

  const LETTERS := "abcdefghijklmnopqrstuvwxyz0123456789"

  /** The bytes of a stream that are not drawn again. */
  function Accepted(entropy: seq<byte>): seq<byte> {
    if entropy == [] then []
    else (if entropy[0] < 252 then [entropy[0]] else []) + Accepted(entropy[1..])
  }

  lemma LetterIs(v: byte)
    ensures v < 252 <==> v < REJECT
    ensures Letter(v) == LETTERS[v % 36]
  {
  }

  /** What is generated: the first n accepted bytes, each as the letter of its remainder; nothing if and only if
      there are not so many. */
  lemma {:induction false} DrawnIs(n: nat, entropy: seq<byte>)
    ensures var a := Accepted(entropy);
      if |a| < n then Drawn(n, entropy) == None
      else Drawn(n, entropy).Some? && |Drawn(n, entropy).value| == n &&
           forall i | 0 <= i < n :: Drawn(n, entropy).value[i] == LETTERS[a[i] % 36]
    decreases |entropy|
  {
    if n > 0 && entropy != [] {
      var rest := entropy[1..];
      LetterIs(entropy[0]);
      if entropy[0] < 252 {
        DrawnIs(n - 1, rest);
        assert Accepted(entropy) == [entropy[0]] + Accepted(rest);
      } else {
        DrawnIs(n, rest);
        assert Accepted(entropy) == Accepted(rest);
      }
    }
  }
}
