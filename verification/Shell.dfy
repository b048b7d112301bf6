/**
 sh.Escape and the variable prefix of a shell command, against the tokenizer of a POSIX shell.

 The tokenizer follows sections 2.2.1, 2.2.2 and 2.3 of the Shell Command Language in POSIX.1-2017: a
 backslash quotes the next character, single quotes quote everything up to the next one, unquoted
 blanks end a word, and unquoted semicolons and newlines are operators.  Any other unquoted character
 that means something to the shell is outside of the model and makes it fail.
 */
module Shell {
  import opened Wrappers
  import opened Strings

  // ---------------------------------------------------------------------------------------
  // The tokenizer
  // ---------------------------------------------------------------------------------------

  /** A character of a word, and whether it was quoted. */
  datatype QChar = QChar(c: char, quoted: bool)

  datatype Token = Word(chars: seq<QChar>) | Operator(op: char)

  datatype LexError = Unterminated | Unsupported(c: char)

  predicate IsBlank(c: char) {
    c == ' ' || c == '\t'
  }

  predicate IsOperator(c: char) {
    c == ';' || c == '\n'
  }

  predicate IsSpecial(c: char) {
    c in {'$', '`', '"', '|', '&', '<', '>', '(', ')', '#', '*', '?', '[', ']', '~', '!', '{', '}'}
  }

  /** The word so far becomes a token; None means that no word was begun. */
  function Flush(word: Option<seq<QChar>>): seq<Token> {
    if word.None? then [] else [Word(word.value)]
  }

  function Begun(word: Option<seq<QChar>>): seq<QChar> {
    if word.None? then [] else word.value
  }

  function Before(tokens: seq<Token>, rest: Result<seq<Token>, LexError>): Result<seq<Token>, LexError> {
    if rest.Ok? then Ok(tokens + rest.value) else rest
  }

  /** Tokenizes s after the given part of a word, outside or inside of single quotes. */
  function Lex(s: string, word: Option<seq<QChar>>, inQuotes: bool): Result<seq<Token>, LexError>
    decreases |s|
  {
    if s == "" then
      if inQuotes then Err(Unterminated) else Ok(Flush(word))
    else if inQuotes then
      if s[0] == '\'' then Lex(s[1..], word, false)
      else Lex(s[1..], Some(Begun(word) + [QChar(s[0], true)]), true)
    else if s[0] == '\'' then Lex(s[1..], Some(Begun(word)), true)
    else if s[0] == '\\' then
      if |s| == 1 then Err(Unterminated)
      else if s[1] == '\n' then Lex(s[2..], word, false)
      else Lex(s[2..], Some(Begun(word) + [QChar(s[1], true)]), false)
    else if IsBlank(s[0]) then Before(Flush(word), Lex(s[1..], None, false))
    else if IsOperator(s[0]) then Before(Flush(word) + [Operator(s[0])], Lex(s[1..], None, false))
    else if IsSpecial(s[0]) then Err(Unsupported(s[0]))
    else Lex(s[1..], Some(Begun(word) + [QChar(s[0], false)]), false)
  }

  function Tokenize(s: string): Result<seq<Token>, LexError> {
    Lex(s, None, false)
  }

  // ---------------------------------------------------------------------------------------
  // Escape
  // ---------------------------------------------------------------------------------------

  function Quote(s: string): string {
    "'" + ReplaceAll(s, "'", "'\\''") + "'"
  }

  function Quotes(ss: seq<string>): string {
    if ss == [] then ""
    else if |ss| == 1 then Quote(ss[0])
    else Quotes(ss[..|ss| - 1]) + " " + Quote(ss[|ss| - 1])
  }

  method Escape(ss: seq<string>) returns (sb: string)
    ensures sb == Quotes(ss)
  {
    sb := "";
    for i := 0 to |ss|
      invariant sb == Quotes(ss[..i])
    {
      assert ss[..i + 1][..i] == ss[..i];
      if i > 0 {
        sb := sb + " ";
      }
      sb := sb + "'";
      sb := sb + ReplaceAll(ss[i], "'", "'\\''");
      sb := sb + "'";
      assert i > 0 ==> sb == Quotes(ss[..i]) + " " + Quote(ss[i]);
    }
    assert ss[..|ss|] == ss;
  }

  lemma {:induction false} NothingReplaced(s: string)
    requires '\'' !in s
    ensures ReplaceAll(s, "'", "'\\''") == s
  {
    if s == "" {
    } else {
      assert s == [s[0]] + s[1..];
      ReplaceChar(s[0], s[1..], '\'', "'\\''");
      NothingReplaced(s[1..]);
    }
  }

  lemma {:induction false} ReplacedOnce(a: string, b: string)
    requires '\'' !in a
    ensures ReplaceAll(a + "'" + b, "'", "'\\''") == a + "'\\''" + ReplaceAll(b, "'", "'\\''")
  {
    if a == "" {
      assert a + "'" + b == ['\''] + b;
      ReplaceChar('\'', b, '\'', "'\\''");
      assert a + "'\\''" == "'\\''";
    } else {
      var rest := a[1..] + "'" + b;
      assert a + "'" + b == [a[0]] + rest;
      ReplaceChar(a[0], rest, '\'', "'\\''");
      ReplacedOnce(a[1..], b);
      assert [a[0]] + (a[1..] + "'\\''" + ReplaceAll(b, "'", "'\\''")) == a + "'\\''" + ReplaceAll(b, "'", "'\\''");
    }
  }

  /** An argument up to its first single quote stands between single quotes; the quote itself is escaped outside. */
  lemma QuoteIs(a: string, b: string)
    requires '\'' !in a
    ensures Quote(a) == "'" + a + "'"
    ensures Quote(a + "'" + b) == "'" + a + "'\\'" + Quote(b)
  {
    NothingReplaced(a);
    ReplacedOnce(a, b);
    var body := ReplaceAll(b, "'", "'\\''");
    assert "'" + (a + "'\\''" + body) + "'" == "'" + a + "'\\'" + ("'" + body + "'");
  }

  function Quoted(s: string): seq<QChar> {
    seq(|s|, i requires 0 <= i < |s| => QChar(s[i], true))
  }

  lemma OpenQuote(after: string, word: Option<seq<QChar>>)
    ensures Lex("'" + after, word, false) == Lex(after, Some(Begun(word)), true)
  {
    assert ("'" + after)[1..] == after;
  }

  lemma CloseQuote(after: string, word: Option<seq<QChar>>)
    ensures Lex("'" + after, word, true) == Lex(after, word, false)
  {
    assert ("'" + after)[1..] == after;
  }

  lemma Backslash(c: char, after: string, word: Option<seq<QChar>>)
    requires c != '\n'
    ensures Lex("\\" + ([c] + after), word, false) == Lex(after, Some(Begun(word) + [QChar(c, true)]), false)
  {
    assert ("\\" + ([c] + after))[2..] == after;
  }

  /** The replacement of a single quote: leave the quotes, a quoted single quote, open them again. */
  lemma LexReplacement(rest: string, word: seq<QChar>)
    ensures Lex("'\\''" + rest, Some(word), true) == Lex(rest, Some(word + [QChar('\'', true)]), true)
  {
    assert "'\\''" + rest == "'" + ("\\" + (['\''] + ("'" + rest)));
    CloseQuote("\\" + (['\''] + ("'" + rest)), Some(word));
    Backslash('\'', "'" + rest, Some(word));
    OpenQuote(rest, Some(word + [QChar('\'', true)]));
  }

  lemma LexQuotedChar(c: char, rest: string, word: seq<QChar>)
    requires c != '\''
    ensures Lex([c] + rest, Some(word), true) == Lex(rest, Some(word + [QChar(c, true)]), true)
  {
    assert ([c] + rest)[1..] == rest;
  }

  /** Inside of the quotes, the replaced text reads as the text and leaves the quotes open. */
  lemma {:induction false} LexBody(s: string, after: string, word: seq<QChar>)
    ensures Lex(ReplaceAll(s, "'", "'\\''") + after, Some(word), true) == Lex(after, Some(word + Quoted(s)), true)
    decreases |s|
  {
    if s == "" {
      assert ReplaceAll(s, "'", "'\\''") + after == after && word + Quoted(s) == word;
    } else {
      var c, tail := s[0], ReplaceAll(s[1..], "'", "'\\''");
      var here := if c == '\'' then "'\\''" else [c];
      assert s == [c] + s[1..];
      ReplaceChar(c, s[1..], '\'', "'\\''");
      assert (here + tail) + after == here + (tail + after);
      if c == '\'' {
        LexReplacement(tail + after, word);
      } else {
        LexQuotedChar(c, tail + after, word);
      }
      var more := word + [QChar(c, true)];
      assert word + Quoted(s) == more + Quoted(s[1..]);
      LexBody(s[1..], after, more);
    }
  }

  /** A quoted string extends the current word by exactly its characters. */
  lemma LexQuote(s: string, after: string, word: Option<seq<QChar>>)
    ensures Lex(Quote(s) + after, word, false) == Lex(after, Some(Begun(word) + Quoted(s)), false)
  {
    var body := ReplaceAll(s, "'", "'\\''");
    assert Quote(s) + after == "'" + (body + ("'" + after));
    OpenQuote(body + ("'" + after), word);
    LexBody(s, "'" + after, Begun(word));
    CloseQuote(after, Some(Begun(word) + Quoted(s)));
  }

  function Words(ss: seq<string>): seq<Token> {
    seq(|ss|, i requires 0 <= i < |ss| => Word(Quoted(ss[i])))
  }

  lemma QuotesLast(ss: seq<string>, last: string)
    requires ss != []
    ensures Quotes(ss + [last]) == Quotes(ss) + (" " + Quote(last))
  {
    assert (ss + [last])[..|ss|] == ss;
    assert Quotes(ss) + " " + Quote(last) == Quotes(ss) + (" " + Quote(last));
  }

  /** Quotes from the left. */
  lemma {:induction false} QuotesCons(s: string, ss: seq<string>)
    requires ss != []
    ensures Quotes([s] + ss) == Quote(s) + " " + Quotes(ss)
  {
    var n := |ss| - 1;
    var front, last := ss[..n], ss[n];
    assert ss == front + [last] && [s] + ss == ([s] + front) + [last];
    QuotesLast([s] + front, last);
    if n == 0 {
      assert [s] + front == [s] && Quotes([s]) == Quote(s) && Quotes([last]) == Quote(last);
      assert Quote(s) + (" " + Quote(last)) == Quote(s) + " " + Quote(last);
    } else {
      QuotesCons(s, front);
      QuotesLast(front, last);
      assert Quote(s) + " " + (Quotes(front) + (" " + Quote(last))) == Quote(s) + " " + Quotes(front) + (" " + Quote(last));
    }
  }

  lemma BeforeTwice(a: seq<Token>, b: seq<Token>, rest: Result<seq<Token>, LexError>)
    ensures Before(a, Before(b, rest)) == Before(a + b, rest)
  {
    if rest.Ok? {
      assert a + (b + rest.value) == (a + b) + rest.value;
    }
  }

  lemma EndWord(c: char, after: string, word: seq<QChar>)
    requires IsBlank(c) || IsOperator(c)
    ensures Lex([c] + after, Some(word), false) ==
            Before(if IsBlank(c) then [Word(word)] else [Word(word), Operator(c)], Tokenize(after))
  {
    assert ([c] + after)[1..] == after;
    assert Flush(Some(word)) + [Operator(c)] == [Word(word), Operator(c)];
  }

  /** Escape is read back as exactly its arguments, all characters quoted. */
  lemma {:induction false} EscapeRoundTrip(ss: seq<string>)
    ensures Tokenize(Quotes(ss)) == Ok(Words(ss))
    decreases |ss|
  {
    if ss == [] {
    } else {
      var s, rest := ss[0], ss[1..];
      assert [s] + rest == ss && Words(ss) == [Word(Quoted(s))] + Words(rest);
      assert Begun(None) + Quoted(s) == Quoted(s);
      if rest == [] {
        assert Quotes(ss) == Quote(s) + "" && Words(ss) == [Word(Quoted(s))];
        LexQuote(s, "", None);
        assert Lex("", Some(Quoted(s)), false) == Ok(Flush(Some(Quoted(s))));
      } else {
        QuotesCons(s, rest);
        assert Quotes(ss) == Quote(s) + ([' '] + Quotes(rest));
        LexQuote(s, " " + Quotes(rest), None);
        EndWord(' ', Quotes(rest), Quoted(s));
        EscapeRoundTrip(rest);
      }
    }
  }

  function Text(chars: seq<QChar>): string {
    seq(|chars|, i requires 0 <= i < |chars| => chars[i].c)
  }

  /** Different lists of arguments are escaped differently. */
  lemma EscapeInjective(a: seq<string>, b: seq<string>)
    requires Quotes(a) == Quotes(b)
    ensures a == b
  {
    EscapeRoundTrip(a);
    EscapeRoundTrip(b);
    assert |Words(a)| == |Words(b)|;
    forall i: nat | i < |a| ensures a[i] == b[i] {
      assert Words(a)[i] == Words(b)[i];
      assert Text(Quoted(a[i])) == a[i] && Text(Quoted(b[i])) == b[i];
    }
  }

  // ---------------------------------------------------------------------------------------
  // The variable prefix
  // ---------------------------------------------------------------------------------------

  datatype Var = Var(name: string, value: string)

  predicate IsNameChar(c: char) {
    'a' <= c <= 'z' || 'A' <= c <= 'Z' || '0' <= c <= '9' || c == '_'
  }

  predicate IsName(s: string) {
    s != "" && !('0' <= s[0] <= '9') && forall i: nat :: i < |s| ==> IsNameChar(s[i])
  }

  function Assignment(v: Var): string {
    v.name + "=" + Quote(v.value) + ";"
  }

  function Prefix(vars: seq<Var>): string {
    if vars == [] then "" else Prefix(vars[..|vars| - 1]) + Assignment(vars[|vars| - 1])
  }

  /** The loop over initVars, in whatever order the map yields them, and the command behind it. */
  method FullCommand(vars: seq<Var>, cmd: string) returns (fullCommand: string)
    ensures fullCommand == Prefix(vars) + cmd
  {
    fullCommand := "";
    for i := 0 to |vars|
      invariant fullCommand == Prefix(vars[..i])
    {
      assert vars[..i + 1][..i] == vars[..i];
      fullCommand := fullCommand + vars[i].name;
      fullCommand := fullCommand + "=";
      var escaped := Escape([vars[i].value]);
      fullCommand := fullCommand + escaped;
      fullCommand := fullCommand + ";";
      assert fullCommand == Prefix(vars[..i]) + Assignment(vars[i]);
    }
    assert vars[..|vars|] == vars;
    fullCommand := fullCommand + cmd;
  }

  function Unquoted(s: string): seq<QChar> {
    seq(|s|, i requires 0 <= i < |s| => QChar(s[i], false))
  }

  function AssignmentWord(v: Var): Token {
    Word(Unquoted(v.name + "=") + Quoted(v.value))
  }

  /** The shell's view of a word: an assignment if it begins with an unquoted name and equals sign. */
  function ReadAssignment(word: seq<QChar>): Option<Var> {
    var n := NameLength(word);
    if n < |word| && word[n] == QChar('=', false) && IsName(Text(word[..n])) then
      Some(Var(Text(word[..n]), Text(word[n + 1..])))
    else None
  }

  /** The number of unquoted name characters at the beginning. */
  function NameLength(word: seq<QChar>): (n: nat)
    ensures n <= |word|
    ensures forall i: nat :: i < n ==> !word[i].quoted && IsNameChar(word[i].c)
    ensures n < |word| ==> word[n].quoted || !IsNameChar(word[n].c)
  {
    if word != [] && !word[0].quoted && IsNameChar(word[0].c) then 1 + NameLength(word[1..]) else 0
  }

  lemma AssignmentReadBack(v: Var)
    requires IsName(v.name)
    ensures ReadAssignment(AssignmentWord(v).chars) == Some(v)
  {
    var word, n := AssignmentWord(v).chars, |v.name|;
    assert Text(word[..n]) == v.name;
    assert Text(word[n + 1..]) == v.value;
    assert forall i: nat :: i < n ==> word[i] == QChar(v.name[i], false);
    assert word[n] == QChar('=', false);
  }

  /** Unquoted characters without a meaning extend the current word. */
  lemma {:induction false} LexPlain(s: string, after: string, word: seq<QChar>)
    requires forall i: nat :: i < |s| ==> IsNameChar(s[i]) || s[i] == '='
    ensures Lex(s + after, Some(word), false) == Lex(after, Some(word + Unquoted(s)), false)
    decreases |s|
  {
    if s == "" {
      assert s + after == after && word + Unquoted(s) == word;
    } else {
      var more := word + [QChar(s[0], false)];
      assert (s + after)[1..] == s[1..] + after;
      assert word + Unquoted(s) == more + Unquoted(s[1..]);
      LexPlain(s[1..], after, more);
    }
  }

  /** Beginning a word without characters makes no difference if it goes on unquoted. */
  lemma BeginWord(s: string)
    requires s != "" && IsNameChar(s[0])
    ensures Tokenize(s) == Lex(s, Some([]), false)
  {
  }

  function AssignmentTokens(vars: seq<Var>): seq<Token> {
    if vars == [] then []
    else AssignmentTokens(vars[..|vars| - 1]) + [AssignmentWord(vars[|vars| - 1]), Operator(';')]
  }

  lemma LexAssignment(v: Var, after: string)
    requires IsName(v.name)
    ensures Tokenize(Assignment(v) + after) == Before([AssignmentWord(v), Operator(';')], Tokenize(after))
  {
    var name := v.name + "=";
    var rest := Quote(v.value) + (";" + after);
    assert Assignment(v) + after == name + rest;
    BeginWord(name + rest);
    LexPlain(name, rest, []);
    assert [] + Unquoted(name) == Unquoted(name);
    LexQuote(v.value, ";" + after, Some(Unquoted(name)));
    EndWord(';', after, AssignmentWord(v).chars);
  }

  lemma TokensStep(vars: seq<Var>)
    requires vars != []
    ensures var n := |vars| - 1;
            && AssignmentTokens(vars) == AssignmentTokens(vars[..n]) + [AssignmentWord(vars[n]), Operator(';')]
            && Prefix(vars) == Prefix(vars[..n]) + Assignment(vars[n])
  {
  }

  /** Reads a list of assignments, each ended by a semicolon. */
  function ReadAssignments(tokens: seq<Token>): Option<seq<Var>> {
    if tokens == [] then Some([])
    else if |tokens| == 1 then None
    else
      var n := |tokens| - 2;
      if tokens[n].Word? && tokens[n + 1] == Operator(';') then
        var before, last := ReadAssignments(tokens[..n]), ReadAssignment(tokens[n].chars);
        if before.Some? && last.Some? then Some(before.value + [last.value]) else None
      else None
  }

  lemma ReadLast(before: seq<Token>, word: Token, vars: seq<Var>, v: Var)
    requires word.Word? && ReadAssignments(before) == Some(vars) && ReadAssignment(word.chars) == Some(v)
    ensures ReadAssignments(before + [word, Operator(';')]) == Some(vars + [v])
  {
    var all := before + [word, Operator(';')];
    assert all[..|all| - 2] == before;
  }

  lemma ReadMore(before: seq<Token>, vars: seq<Var>, v: Var)
    requires IsName(v.name) && ReadAssignments(before) == Some(vars)
    ensures ReadAssignments(before + [AssignmentWord(v), Operator(';')]) == Some(vars + [v])
  {
    AssignmentReadBack(v);
    ReadLast(before, AssignmentWord(v), vars, v);
  }

  lemma SplitLast(vars: seq<Var>)
    requires vars != []
    ensures vars == vars[..|vars| - 1] + [vars[|vars| - 1]]
  {
  }

  /** The tokens of the prefix are read as exactly the variables, in order. */
  lemma {:induction false} AssignmentsReadBack(vars: seq<Var>)
    requires forall i: nat :: i < |vars| ==> IsName(vars[i].name)
    ensures ReadAssignments(AssignmentTokens(vars)) == Some(vars)
    decreases |vars|
  {
    if vars != [] {
      var n := |vars| - 1;
      AssignmentsReadBack(vars[..n]);
      ReadMore(AssignmentTokens(vars[..n]), vars[..n], vars[n]);
      SplitLast(vars);
    }
  }

  /**
   The prefix is read as the assignments, in order, and the command behind it is read as it would be
   read on its own: no value can reach into it.
   */
  lemma {:induction false} PrefixRoundTrip(vars: seq<Var>, cmd: string)
    requires forall i: nat :: i < |vars| ==> IsName(vars[i].name)
    ensures Tokenize(Prefix(vars) + cmd) == Before(AssignmentTokens(vars), Tokenize(cmd))
    decreases |vars|
  {
    if vars == [] {
      assert Prefix(vars) + cmd == cmd;
      if Tokenize(cmd).Ok? {
        assert [] + Tokenize(cmd).value == Tokenize(cmd).value;
      }
    } else {
      var n := |vars| - 1;
      var v := vars[n];
      TokensStep(vars);
      PrefixRoundTrip(vars[..n], Assignment(v) + cmd);
      assert Prefix(vars) + cmd == Prefix(vars[..n]) + (Assignment(v) + cmd);
      LexAssignment(v, cmd);
      BeforeTwice(AssignmentTokens(vars[..n]), [AssignmentWord(v), Operator(';')], Tokenize(cmd));
    }
  }
}
