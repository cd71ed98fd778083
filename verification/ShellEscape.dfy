/** Escaping of values that the install script puts between double quotes, against what a POSIX shell
    makes of them: section 2.2.3 of the Shell Command Language (IEEE Std 1003.1). */
module ShellEscape {

  predicate NeedsBackslash(c: char) {
    c == '"' || c == '$' || c == '`' || c == '\\' || c == '\n' || c == '\r'
  }

  function EscapedChar(c: char): string {
    if NeedsBackslash(c) then ['\\', c] else [c]
  }

  function Escaped(s: string): string {
    if s == "" then "" else EscapedChar(s[0]) + Escaped(s[1..])
  }

  lemma EscapedNext(b: string, s: string, i: nat)
    requires i < |s|
    ensures b + Escaped(s[i..]) == (b + EscapedChar(s[i])) + Escaped(s[i + 1..])
  {
    assert s[i..][1..] == s[i + 1..];
    assert b + (EscapedChar(s[i]) + Escaped(s[i + 1..])) == (b + EscapedChar(s[i])) + Escaped(s[i + 1..]);
  }

  /** Character by character into a builder. */
  method ShellEscape(s: string) returns (b: string)
    ensures b == Escaped(s)
  {
    b := "";
    for i := 0 to |s|
      invariant b + Escaped(s[i..]) == Escaped(s)
    {
      EscapedNext(b, s, i);
      ghost var before := b;
      if NeedsBackslash(s[i]) {
        b := b + ['\\'];
      }
      b := b + [s[i]];
      assert b == before + EscapedChar(s[i]);
    }
    assert b + "" == b;
  }

  // ----- what the shell reads -----

  /** The outcome of reading on after an opening double quote: the text up to the closing quote and what
      follows it, a dollar or backquote that is not escaped, or the end of the script. */
  datatype Quoted = Closed(text: string, rest: string) | Expansion | Unterminated

  function Prepend(p: string, q: Quoted): Quoted {
    if q.Closed? then q.(text := p + q.text) else q
  }

  /** Between double quotes a backslash escapes a dollar, backquote, double quote or backslash, joins lines
      before a newline, and stands for itself before anything else. */
  function ReadQuoted(script: string): Quoted
    decreases |script|
  {
    if script == "" then Unterminated
    else if script[0] == '"' then Closed("", script[1..])
    else if script[0] == '$' || script[0] == '`' then Expansion
    else if script[0] != '\\' then Prepend([script[0]], ReadQuoted(script[1..]))
    else if |script| == 1 then Unterminated
    else if script[1] == '\n' then ReadQuoted(script[2..])
    else if script[1] in {'$', '`', '"', '\\'} then Prepend([script[1]], ReadQuoted(script[2..]))
    else Prepend(['\\', script[1]], ReadQuoted(script[2..]))
  }

  /** What is left of a value after escaping and reading: newlines are lost, carriage returns gain a backslash. */
  function Survives(s: string): string {
    if s == "" then ""
    else (if s[0] == '\n' then "" else if s[0] == '\r' then ['\\', '\r'] else [s[0]]) + Survives(s[1..])
  }

  lemma ReadOne(c: char, script: string)
    ensures ReadQuoted(EscapedChar(c) + script) ==
        if c == '\n' then ReadQuoted(script)
        else Prepend(if c == '\r' then ['\\', '\r'] else [c], ReadQuoted(script))
  {
    if NeedsBackslash(c) {
      assert (['\\', c] + script)[2..] == script;
    } else {
      assert ([c] + script)[1..] == script;
    }
  }

  /** Whatever the value, an escaped value between double quotes reads as one closed string: no character of
      it ends the string, expands, or swallows the closing quote, and the script goes on right after it. */
  lemma {:induction false} ReadsAsOneString(s: string, rest: string)
    ensures ReadQuoted(Escaped(s) + "\"" + rest) == Closed(Survives(s), rest)
  {
    if s == "" {
      assert "" + "\"" + rest == "\"" + rest;
      assert ("\"" + rest)[1..] == rest;
    } else {
      ReadsAsOneString(s[1..], rest);
      var tail := Escaped(s[1..]) + "\"" + rest;
      assert Escaped(s) + "\"" + rest == EscapedChar(s[0]) + tail;
      ReadOne(s[0], tail);
      if s[0] == '\n' {
        assert "" + Survives(s[1..]) == Survives(s[1..]);
      }
    }
  }

  lemma {:induction false} SurvivesSize(s: string)
    ensures '\n' !in Survives(s)
    ensures '\n' !in s ==> |Survives(s)| >= |s|
    ensures '\n' !in s && '\r' in s ==> |Survives(s)| > |s|
    ensures '\n' !in s && '\r' !in s ==> Survives(s) == s
  {
    if s != "" {
      SurvivesSize(s[1..]);
      assert s == [s[0]] + s[1..];
    }
  }

  /** Reading gives the value back if and only if it contains no newline and no carriage return. */
  lemma RoundTripIff(s: string, rest: string)
    ensures ReadQuoted(Escaped(s) + "\"" + rest) == Closed(s, rest) <==> '\n' !in s && '\r' !in s
  {
    ReadsAsOneString(s, rest);
    SurvivesSize(s);
  }

  /** The two lossy characters, on their own. */
  lemma LineBreaksAreLost()
    ensures ReadQuoted(Escaped("a\nb") + "\"") == Closed("ab", "")
    ensures ReadQuoted(Escaped("\r") + "\"") == Closed("\\\r", "")
  {
    ReadsAsOneString("a\nb", "");
    ReadsAsOneString("\r", "");
    assert Survives("b") == "b" by {
      assert "b"[1..] == "";
    }
    assert "\nb"[1..] == "b" && "a\nb"[1..] == "\nb";
    assert Survives("\nb") == "b" && Survives("a\nb") == "ab";
    assert "\r"[1..] == "";
    assert Escaped("a\nb") + "\"" + "" == Escaped("a\nb") + "\"";
    assert Escaped("\r") + "\"" + "" == Escaped("\r") + "\"";
  }
}
