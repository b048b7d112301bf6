/** errors.makeOneLine: the rendering of an error message on one line, and its inverse. */
module OneLine {
  import opened Strings

  function MakeOneLine(str: string): string {
    var escaped := ReplaceAll(str, "\\", "\\\\");
    var noCrLf := ReplaceAll(escaped, "\r\n", "\n");
    var noCr := ReplaceAll(noCrLf, "\r", "\n");
    ReplaceAll(noCr, "\n", "\\n")
  }

  /** The message with every line break, CRLF, CR or LF, turned into LF. */
  function Normalized(str: string): string
    decreases |str|
  {
    if str == "" then ""
    else if str[0] != '\r' then [str[0]] + Normalized(str[1..])
    else if |str| > 1 && str[1] == '\n' then "\n" + Normalized(str[2..])
    else "\n" + Normalized(str[1..])
  }

  /** Reads the rendering from left to right. */
  function Unescape(line: string): string
    decreases |line|
  {
    if line == "" then ""
    else if line[0] == '\\' && |line| > 1 then
      (if line[1] == 'n' then "\n" else [line[1]]) + Unescape(line[2..])
    else [line[0]] + Unescape(line[1..])
  }

  /** The rendering of a message whose line breaks are normalized. */
  function Escaped(str: string): string {
    if str == "" then ""
    else (if str[0] == '\\' then "\\\\" else if str[0] == '\n' then "\\n" else [str[0]]) + Escaped(str[1..])
  }

  /** The three passes after the first one, for a character that is no CR. */
  lemma LaterPasses(c: char, s: string)
    requires c != '\r'
    ensures ReplaceAll([c] + s, "\r\n", "\n") == [c] + ReplaceAll(s, "\r\n", "\n")
  {
    assert ([c] + s)[1..] == s;
    if |s| == 0 {
      assert ReplaceAll(s, "\r\n", "\n") == "";
    } else {
      assert ([c] + s)[..2] == [c, s[0]];
    }
  }

  function LastPasses(s: string): string {
    ReplaceAll(ReplaceAll(s, "\r", "\n"), "\n", "\\n")
  }

  lemma LastPassesChar(c: char, s: string)
    ensures LastPasses([c] + s) == (if c == '\r' || c == '\n' then "\\n" else [c]) + LastPasses(s)
  {
    ReplaceChar(c, s, '\r', "\n");
    ReplaceChar(if c == '\r' then '\n' else c, ReplaceAll(s, "\r", "\n"), '\n', "\\n");
  }

  /** The four passes together: normalize the line breaks, then escape. */
  lemma {:induction false} PassesCompose(str: string)
    ensures MakeOneLine(str) == Escaped(Normalized(str))
    decreases |str|
  {
    if str == "" {
    } else {
      var c, s := str[0], str[1..];
      var t := ReplaceAll(s, "\\", "\\\\");
      assert str == [c] + s;
      ReplaceChar(c, s, '\\', "\\\\");
      if c == '\\' {
        assert "\\\\" + t == ['\\'] + (['\\'] + t);
        LaterPasses('\\', ['\\'] + t);
        LaterPasses('\\', t);
        LastPassesChar('\\', ['\\'] + ReplaceAll(t, "\r\n", "\n"));
        LastPassesChar('\\', ReplaceAll(t, "\r\n", "\n"));
        PassesCompose(s);
      } else if c != '\r' {
        LaterPasses(c, t);
        LastPassesChar(c, ReplaceAll(t, "\r\n", "\n"));
        PassesCompose(s);
      } else if s != "" && s[0] == '\n' {
        var u := ReplaceAll(s[1..], "\\", "\\\\");
        assert s == [s[0]] + s[1..];
        ReplaceChar(s[0], s[1..], '\\', "\\\\");
        assert (['\r'] + (['\n'] + u))[..2] == "\r\n" && (['\r'] + (['\n'] + u))[2..] == u;
        LastPassesChar('\n', ReplaceAll(u, "\r\n", "\n"));
        assert str[2..] == s[1..];
        PassesCompose(str[2..]);
      } else {
        if s != "" {
          assert s == [s[0]] + s[1..];
          ReplaceChar(s[0], s[1..], '\\', "\\\\");
          assert t[0] != '\n';
        }
        LoneCr(t);
        LastPassesChar('\r', ReplaceAll(t, "\r\n", "\n"));
        PassesCompose(s);
      }
      var n := Normalized(str);
      assert n != "" && n == [n[0]] + n[1..];
    }
  }

  lemma LoneCr(t: string)
    requires t != "" ==> t[0] != '\n'
    ensures ReplaceAll(['\r'] + t, "\r\n", "\n") == ['\r'] + ReplaceAll(t, "\r\n", "\n")
  {
    assert (['\r'] + t)[1..] == t;
    if t == "" {
      assert ReplaceAll(t, "\r\n", "\n") == "";
    } else {
      assert (['\r'] + t)[..2] == ['\r', t[0]];
    }
  }

  lemma {:induction false} EscapedConcat(a: string, b: string)
    ensures Escaped(a + b) == Escaped(a) + Escaped(b)
  {
    if a == "" {
      assert a + b == b;
    } else {
      assert (a + b)[0] == a[0] && (a + b)[1..] == a[1..] + b;
      EscapedConcat(a[1..], b);
      var first := if a[0] == '\\' then "\\\\" else if a[0] == '\n' then "\\n" else [a[0]];
      assert first + (Escaped(a[1..]) + Escaped(b)) == (first + Escaped(a[1..])) + Escaped(b);
    }
  }

  /** Line breaks are normalized on both sides of a place that is not in the middle of a CRLF. */
  lemma {:induction false} NormalizedConcat(a: string, b: string)
    requires a == "" || b == "" || a[|a| - 1] != '\r' || b[0] != '\n'
    ensures Normalized(a + b) == Normalized(a) + Normalized(b)
    decreases |a|
  {
    if a == "" {
      assert a + b == b;
    } else {
      var c, s := a[0], a + b;
      var n := if c == '\r' && |a| > 1 && a[1] == '\n' then 2 else 1;
      assert s[n..] == a[n..] + b;
      NormalizedConcat(a[n..], b);
      var first := if c == '\r' then "\n" else [c];
      assert Normalized(a) == first + Normalized(a[n..]);
      assert Normalized(s) == first + Normalized(s[n..]);
      assert first + (Normalized(a[n..]) + Normalized(b)) == (first + Normalized(a[n..])) + Normalized(b);
    }
  }

  /** How one character is rendered. */
  function Rendered(c: char): string {
    if c == '\\' then "\\\\" else if c == '\r' || c == '\n' then "\\n" else [c]
  }

  lemma CharRendered(c: char)
    ensures Escaped(Normalized([c])) == Rendered(c)
  {
    assert [c][1..] == "" && Normalized("") == "" && Escaped("") == "";
    var n := Normalized([c]);
    assert |n| == 1 && n[1..] == "";
  }

  /**
   The rendering goes through the message: CRLF, CR and LF each become a backslash and an n, a backslash
   becomes two, and all other characters stay.
   */
  lemma RenderingOf(c: char, s: string)
    ensures MakeOneLine("") == ""
    ensures c == '\\' ==> MakeOneLine([c] + s) == "\\\\" + MakeOneLine(s)
    ensures c == '\n' || (c == '\r' && (s == "" || s[0] != '\n')) ==> MakeOneLine([c] + s) == "\\n" + MakeOneLine(s)
    ensures c !in {'\\', '\r', '\n'} ==> MakeOneLine([c] + s) == [c] + MakeOneLine(s)
    ensures MakeOneLine("\r\n" + s) == "\\n" + MakeOneLine(s)
  {
    PassesCompose("");
    PassesCompose(s);
    PassesCompose([c] + s);
    PassesCompose("\r\n" + s);
    if !(c == '\r' && s != "" && s[0] == '\n') {
      NormalizedConcat([c], s);
      EscapedConcat(Normalized([c]), Normalized(s));
      CharRendered(c);
    }
    assert ("\r\n" + s)[2..] == s;
    EscapedConcat("\n", Normalized(s));
    assert "\n"[1..] == "" && Escaped("") == "" && Escaped("\n") == "\\n";
  }

  lemma {:induction false} UnescapeEscaped(str: string)
    ensures Unescape(Escaped(str)) == str
  {
    if str == "" {
    } else {
      UnescapeEscaped(str[1..]);
      var rest := Escaped(str[1..]);
      assert ("\\\\" + rest)[2..] == rest && ("\\n" + rest)[2..] == rest && ([str[0]] + rest)[1..] == rest;
    }
  }

  lemma {:induction false} EscapedOnOneLine(str: string)
    requires '\r' !in str
    ensures '\r' !in Escaped(str) && '\n' !in Escaped(str)
  {
    if str == "" {
    } else {
      EscapedOnOneLine(str[1..]);
    }
  }

  lemma {:induction false} NormalizedHasNoCr(str: string)
    ensures '\r' !in Normalized(str)
    decreases |str|
  {
    if str == "" {
    } else if str[0] == '\r' && |str| > 1 && str[1] == '\n' {
      NormalizedHasNoCr(str[2..]);
    } else {
      NormalizedHasNoCr(str[1..]);
    }
  }

  /** The rendering has no line break, and reading it gives the message back, line breaks as LF. */
  lemma OneLineRoundTrip(str: string)
    ensures '\r' !in MakeOneLine(str) && '\n' !in MakeOneLine(str)
    ensures Unescape(MakeOneLine(str)) == Normalized(str)
  {
    PassesCompose(str);
    NormalizedHasNoCr(str);
    EscapedOnOneLine(Normalized(str));
    UnescapeEscaped(Normalized(str));
  }

  /** Two messages look the same exactly if they differ at most in the kind of their line breaks. */
  lemma OneLineIsFaithful(a: string, b: string)
    ensures MakeOneLine(a) == MakeOneLine(b) <==> Normalized(a) == Normalized(b)
  {
    OneLineRoundTrip(a);
    OneLineRoundTrip(b);
    PassesCompose(a);
    PassesCompose(b);
  }
}
