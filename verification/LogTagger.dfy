/**
 logtagger: many writers share one destination; every line gets the tag of its writer.  Bytes are
 characters here.
 */
module LogTagger {
  import opened Wrappers
  import opened Sequences

  // ---------------------------------------------------------------------------------------
  // Framing
  // ---------------------------------------------------------------------------------------

  /** The position of the first newline, or the length if there is none. */
  function LineEnd(p: string): (n: nat)
    ensures n <= |p| && (n < |p| ==> p[n] == '\n')
    ensures forall i: nat :: i < n ==> p[i] != '\n'
  {
    if p == "" || p[0] == '\n' then 0 else 1 + LineEnd(p[1..])
  }

  function Header(tag: string, bracket: char): string {
    "[" + tag + [bracket, ' ']
  }

  /** What one Write sends to the destination: a frame per line, and one for an unfinished line. */
  function Frames(tag: string, p: string): string
    decreases |p|
  {
    var n := LineEnd(p);
    if p == "" then ""
    else if n == |p| then Header(tag, ')') + p + "\n"
    else Header(tag, ']') + p[..n + 1] + Frames(tag, p[n + 1..])
  }

  lemma LineEndIs(p: string, n: nat)
    requires n <= |p| && (n < |p| ==> p[n] == '\n') && forall i: nat :: i < n ==> p[i] != '\n'
    ensures LineEnd(p) == n
  {
  }

  /** The first line of p[next..] ends at i. */
  lemma FramesStep(tag: string, p: string, next: nat, i: nat)
    requires next <= i < |p| && p[i] == '\n' && '\n' !in p[next..i]
    ensures Frames(tag, p[next..]) == Header(tag, ']') + p[next..i + 1] + Frames(tag, p[i + 1..])
  {
    var rest, n := p[next..], i - next;
    assert forall k: nat :: k < n ==> rest[k] == p[next..i][k];
    LineEndIs(rest, n);
    assert rest[..n + 1] == p[next..i + 1] && rest[n + 1..] == p[i + 1..];
  }

  lemma FramesLast(tag: string, p: string)
    requires p != "" && '\n' !in p
    ensures Frames(tag, p) == Header(tag, ')') + p + "\n"
  {
    LineEndIs(p, |p|);
  }

  /** The frames of a message, one line after the other. */
  lemma FramesOfLines(tag: string, line: string, more: string)
    requires '\n' !in line
    ensures Frames(tag, "") == ""
    ensures line != "" ==> Frames(tag, line) == "[" + tag + ") " + line + "\n"
    ensures Frames(tag, line + "\n" + more) == "[" + tag + "] " + line + "\n" + Frames(tag, more)
  {
    if line != "" {
      FramesLast(tag, line);
      assert "[" + tag + ") " == Header(tag, ')');
    }
    var p := line + "\n" + more;
    assert p[0..] == p && p[0..|line|] == line && p[0..|line| + 1] == line + "\n" && p[|line| + 1..] == more;
    FramesStep(tag, p, 0, |line|);
    assert "[" + tag + "] " == Header(tag, ']');
    Regroup(Header(tag, ']'), line, "\n");
  }

  /** The pieces that are appended for a frame make up its header and its content. */
  lemma Glue(buf: string, tag: string, bracket: char, content: string)
    ensures buf + "[" + tag + [bracket, ' '] + content == buf + (Header(tag, bracket) + content)
  {
  }

  /** How one call of the destination's Write ends. */
  datatype Written = Written(n: nat, failed: bool)

  /** What a destination with these answers takes of a text, and whether it reports an error before the end. */
  function Delivered(text: string, script: seq<Written>): (string, bool)
    decreases |script|
  {
    if text == "" || script == [] then (text, false)
    else
      var taken := Min(script[0].n, |text|);
      if script[0].failed then (text[..taken], true)
      else
        var rest := Delivered(text[taken..], script[1..]);
        (text[..taken] + rest.0, rest.1)
  }

  /** The answers from the k-th one on deliver the rest. */
  ghost predicate Remains(all: (string, bool), was: string, dst: string, toWrite: string, script: seq<Written>, k: nat)
    requires k <= |script|
  {
    var rest := Delivered(toWrite, script[k..]);
    was + all.0 == dst + rest.0 && all.1 == rest.1
  }

  lemma RemainsStep(all: (string, bool), was: string, dst: string, toWrite: string, script: seq<Written>, k: nat)
    requires k <= |script| && toWrite != "" && Remains(all, was, dst, toWrite, script, k)
    ensures k == |script| ==> was + all.0 == dst + toWrite[..|toWrite|] && !all.1 && toWrite[|toWrite|..] == ""
    ensures k < |script| ==>
              var taken := Min(script[k].n, |toWrite|);
              if script[k].failed then was + all.0 == dst + toWrite[..taken] && all.1
              else Remains(all, was, dst + toWrite[..taken], toWrite[taken..], script, k + 1)
  {
    if k < |script| {
      var taken := Min(script[k].n, |toWrite|);
      assert script[k..][0] == script[k] && script[k..][1..] == script[k + 1..];
      Regroup(dst, toWrite[..taken], Delivered(toWrite[taken..], script[k + 1..]).0);
    } else {
      assert toWrite[..|toWrite|] == toWrite;
    }
  }

  /** The bytes that the first answers take together. */
  function Total(script: seq<Written>, k: nat): nat
    requires k <= |script|
  {
    if k == 0 then 0 else script[0].n + Total(script[1..], k - 1)
  }

  /** Answer k is the first one that reports an error, and there are bytes left for it. */
  predicate FailsAt(text: string, script: seq<Written>, k: nat) {
    && k < |script| && script[k].failed && (forall j: nat :: j < k ==> !script[j].failed)
    && Total(script, k) < |text|
  }

  lemma FailsLater(text: string, script: seq<Written>, k: nat)
    requires text != "" && script != [] && !script[0].failed
    ensures FailsAt(text, script, k + 1) <==> FailsAt(text[Min(script[0].n, |text|)..], script[1..], k)
  {
    assert forall j: nat :: j + 1 < |script| ==> script[1..][j] == script[j + 1];
    if FailsAt(text, script, k + 1) {
      forall j: nat | j < k ensures !script[1..][j].failed {
        assert script[1..][j] == script[j + 1];
      }
    }
    if FailsAt(text[Min(script[0].n, |text|)..], script[1..], k) {
      forall j: nat | j < k + 1 ensures !script[j].failed {
        assert j > 0 ==> !script[1..][j - 1].failed;
      }
    }
  }

  /**
   An error is reported exactly if the first answer with one comes before everything was taken, and then
   exactly the bytes up to that answer's were taken.
   */
  lemma {:induction false} DeliveredMeans(text: string, script: seq<Written>)
    ensures var d := Delivered(text, script);
            && d.0 <= text && (!d.1 ==> d.0 == text)
            && (d.1 <==> exists k: nat :: FailsAt(text, script, k))
            && forall k: nat :: FailsAt(text, script, k) ==> |d.0| == Min(|text|, Total(script, k + 1))
    decreases |script|
  {
    if text != "" && script != [] {
      var taken := Min(script[0].n, |text|);
      assert text == text[..taken] + text[taken..];
      if script[0].failed {
        assert FailsAt(text, script, 0) && forall k: nat :: FailsAt(text, script, k) ==> k == 0;
        assert Total(script, 1) == script[0].n + Total(script[1..], 0);
      } else {
        DeliveredMeans(text[taken..], script[1..]);
        forall k: nat ensures FailsAt(text, script, k + 1) <==> FailsAt(text[taken..], script[1..], k) {
          FailsLater(text, script, k);
        }
        assert !FailsAt(text, script, 0);
        assert forall k: nat :: FailsAt(text, script, k) ==> k > 0 && FailsAt(text[taken..], script[1..], k - 1);
        if k: nat :| FailsAt(text[taken..], script[1..], k) {
          assert FailsAt(text, script, k + 1);
        }
      }
    }
  }

  class Tagger {
    var dst: string

    constructor ()
      ensures dst == ""
    {
      dst := "";
    }

    /** Whether the buffer holds the frames of the lines before next, and no newline follows up to i. */
    static ghost predicate Built(tag: string, p: string, buf: string, next: nat, i: nat) {
      next <= i <= |p| && '\n' !in p[next..i] && buf + Frames(tag, p[next..]) == Frames(tag, p)
    }

    static lemma BuiltEnds(tag: string, p: string)
      ensures Built(tag, p, "", 0, 0)
      ensures forall buf: string :: Built(tag, p, buf, |p|, |p|) ==> buf == Frames(tag, p)
    {
      assert p[0..] == p && "" + Frames(tag, p) == Frames(tag, p);
      assert p[|p|..] == "" && Frames(tag, "") == "";
      forall buf: string | Built(tag, p, buf, |p|, |p|) ensures buf == Frames(tag, p) {
        assert buf + "" == buf;
      }
    }

    static lemma BuiltOn(tag: string, p: string, buf: string, next: nat, i: nat)
      requires i < |p| && p[i] != '\n' && Built(tag, p, buf, next, i)
      ensures Built(tag, p, buf, next, i + 1)
    {
      assert p[next..i + 1] == p[next..i] + [p[i]];
    }

    /** The loop's appends for a line that ends at i. */
    static method AppendLine(tag: string, p: string, buf: string, next: nat, i: nat) returns (longer: string)
      requires i < |p| && p[i] == '\n' && Built(tag, p, buf, next, i)
      ensures Built(tag, p, longer, i + 1, i + 1)
    {
      longer := buf + "[";
      longer := longer + tag;
      longer := longer + "] ";
      longer := longer + p[next..i + 1];
      Glue(buf, tag, ']', p[next..i + 1]);
      FramesStep(tag, p, next, i);
      Regroup(buf, Header(tag, ']') + p[next..i + 1], Frames(tag, p[i + 1..]));
    }

    /** The appends for a last line without newline. */
    static method AppendRest(tag: string, p: string, buf: string, next: nat) returns (longer: string)
      requires next < |p| && Built(tag, p, buf, next, |p|)
      ensures longer == Frames(tag, p)
    {
      longer := buf + "[";
      longer := longer + tag;
      longer := longer + ") ";
      longer := longer + p[next..];
      Glue(buf, tag, ')', p[next..]);
      Regroup(buf, Header(tag, ')') + p[next..], "\n");
      longer := longer + "\n";
      assert p[next..|p|] == p[next..];
      FramesLast(tag, p[next..]);
    }

    /** The buffer that a Write builds before it takes the lock. */
    static method Build(tag: string, p: string) returns (buf: string)
      ensures buf == Frames(tag, p)
    {
      buf := "";
      var next := 0;
      BuiltEnds(tag, p);
      for i := 0 to |p|
        invariant Built(tag, p, buf, next, i)
      {
        if p[i] != '\n' {
          BuiltOn(tag, p, buf, next, i);
          continue;
        }
        buf := AppendLine(tag, p, buf, next, i);
        next := i + 1;
      }
      if next < |p| {
        buf := AppendRest(tag, p, buf, next);
      }
    }

    /**
     Write.  The destination may take only part of what it is given; after the script's last answer it
     takes everything.  A successful Write adds exactly its frames, a failed one some prefix of them, and it
     fails at the first answer that reports an error, if it comes to that.
     */
    method Write(tag: string, p: string, script: seq<Written>) returns (n: nat, failed: bool)
      modifies this
      ensures if failed then n == 0 && old(dst) <= dst <= old(dst) + Frames(tag, p)
              else n == |p| && dst == old(dst) + Frames(tag, p)
      ensures failed ==> exists k: nat :: k < |script| && script[k].failed
      ensures var d := Delivered(Frames(tag, p), script); dst == old(dst) + d.0 && failed == d.1
    {
      var buf := Build(tag, p);
      var toWrite := buf;
      var k := 0;
      ghost var all := Delivered(buf, script);
      assert script[0..] == script;
      DeliveredMeans(buf, script);
      while |toWrite| > 0
        invariant k <= |script|
        invariant Remains(all, old(dst), dst, toWrite, script, k)
        decreases |script| - k, |toWrite|
      {
        RemainsStep(all, old(dst), dst, toWrite, script, k);
        var answer := if k < |script| then script[k] else Written(|toWrite|, false);
        var taken := if answer.n < |toWrite| then answer.n else |toWrite|;
        dst := dst + toWrite[..taken];
        if answer.failed {
          return 0, true;
        }
        toWrite := toWrite[taken..];
        if k < |script| {
          k := k + 1;
        }
      }
      return |p|, false;
    }
  }

  // ---------------------------------------------------------------------------------------
  // Concurrent writers
  // ---------------------------------------------------------------------------------------

  datatype Call = Call(tag: string, p: string)

  /** The writer that holds the mutex and what it still has to write. */
  datatype Holder = Holder(call: Call, toWrite: string)

  datatype State = State(out: string, holder: Option<Holder>, done: seq<Call>)

  /** Any writer may take a free mutex; its holder writes in pieces of any size and then leaves. */
  datatype Step = Lock(call: Call) | Piece(n: nat) | Unlock

  const START: State := State("", None, [])

  predicate Enabled(s: State, step: Step) {
    match step
    case Lock(_) => s.holder.None?
    case Piece(n) => s.holder.Some? && n <= |s.holder.value.toWrite|
    case Unlock => s.holder.Some? && s.holder.value.toWrite == ""
  }

  function Apply(s: State, step: Step): State
    requires Enabled(s, step)
  {
    match step
    case Lock(call) => s.(holder := Some(Holder(call, Frames(call.tag, call.p))))
    case Piece(n) =>
      var h := s.holder.value;
      s.(out := s.out + h.toWrite[..n], holder := Some(Holder(h.call, h.toWrite[n..])))
    case Unlock => s.(holder := None, done := s.done + [s.holder.value.call])
  }

  predicate Legal(s: State, steps: seq<Step>)
    decreases |steps|
  {
    steps == [] || (Enabled(s, steps[0]) && Legal(Apply(s, steps[0]), steps[1..]))
  }

  function Run(s: State, steps: seq<Step>): State
    requires Legal(s, steps)
    decreases |steps|
  {
    if steps == [] then s else Run(Apply(s, steps[0]), steps[1..])
  }

  /** The frames of whole calls, one call after the other. */
  function Output(calls: seq<Call>): string {
    if calls == [] then "" else Frames(calls[0].tag, calls[0].p) + Output(calls[1..])
  }

  lemma {:induction false} OutputAppend(calls: seq<Call>, call: Call)
    ensures Output(calls + [call]) == Output(calls) + Frames(call.tag, call.p)
  {
    if calls == [] {
      assert [call][1..] == [] && calls + [call] == [call];
      assert Output([call]) == Frames(call.tag, call.p) + Output([]);
    } else {
      assert (calls + [call])[1..] == calls[1..] + [call];
      OutputAppend(calls[1..], call);
    }
  }

  ghost predicate Framed(s: State) {
    match s.holder
    case None => s.out == Output(s.done)
    case Some(h) => s.out + h.toWrite == Output(s.done) + Frames(h.call.tag, h.call.p)
  }

  /** In every interleaving the output is whole frames, with those of the lock's holder under way. */
  lemma {:induction false} RunsAreFramed(s: State, steps: seq<Step>)
    requires Framed(s) && Legal(s, steps)
    ensures Framed(Run(s, steps))
    decreases |steps|
  {
    if steps == [] {
    } else {
      var step := steps[0];
      match step {
        case Lock(_) =>
        case Piece(n) =>
          var toWrite := s.holder.value.toWrite;
          assert toWrite == toWrite[..n] + toWrite[n..];
          assert (s.out + toWrite[..n]) + toWrite[n..] == s.out + toWrite;
        case Unlock =>
          OutputAppend(s.done, s.holder.value.call);
          assert s.out + "" == s.out;
      }
      RunsAreFramed(Apply(s, step), steps[1..]);
    }
  }

  // ---------------------------------------------------------------------------------------
  // Demultiplexing
  // ---------------------------------------------------------------------------------------

  /** What a line says about a tag: a finished line, an unfinished one, or nothing. */
  function Payload(tag: string, line: string): string {
    if Header(tag, ']') <= line then line[|tag| + 3..] + "\n"
    else if Header(tag, ')') <= line then line[|tag| + 3..]
    else ""
  }

  /** The bytes that the lines of the output attribute to a tag. */
  function Demux(tag: string, out: string): string
    decreases |out|
  {
    var n := LineEnd(out);
    if n == |out| then "" else Payload(tag, out[..n]) + Demux(tag, out[n + 1..])
  }

  lemma DemuxLine(tag: string, line: string, after: string)
    requires '\n' !in line
    ensures Demux(tag, line + "\n" + after) == Payload(tag, line) + Demux(tag, after)
  {
    var out := line + "\n" + after;
    forall i: nat | i < |line| ensures out[i] != '\n' {
      assert out[i] == line[i];
    }
    LineEndIs(out, |line|);
    assert out[..|line|] == line && out[|line| + 1..] == after;
  }

  // ---------------------------------------------------------------------------------------
  // Tags that clash
  // ---------------------------------------------------------------------------------------

  /** What follows the last newline. */
  function Rest(s: string): (r: string)
    ensures |r| <= |s| && r == s[|s| - |r|..] && '\n' !in r
    ensures |r| < |s| ==> s[|s| - |r| - 1] == '\n'
  {
    if s == "" || s[|s| - 1] == '\n' then "" else Rest(s[..|s| - 1]) + [s[|s| - 1]]
  }

  /** The lines that a tag with newlines puts in front of the line with the content. */
  function Above(tag: string): string {
    var open := "[" + tag;
    open[..|open| - |Rest(open)|]
  }

  /** What a tag puts in front of the content, on the same line. */
  function Tail(tag: string, bracket: char): string {
    Rest("[" + tag) + [bracket, ' ']
  }

  lemma HeaderParts(tag: string, bracket: char)
    ensures Header(tag, bracket) == Above(tag) + Tail(tag, bracket)
    ensures Above(tag) == "" || Above(tag)[|Above(tag)| - 1] == '\n'
    ensures '\n' !in tag ==> Above(tag) == "" && Tail(tag, bracket) == Header(tag, bracket)
  {
    var open := "[" + tag;
    OpenParts(open);
    assert Header(tag, bracket) == open + [bracket, ' '];
    Regroup(Above(tag), Rest(open), [bracket, ' ']);
    if '\n' !in tag {
      assert forall k: nat :: k < |open| ==> open[k] == if k == 0 then '[' else tag[k - 1];
      OpenWhole(open);
    }
  }

  lemma OpenParts(open: string)
    ensures var above := open[..|open| - |Rest(open)|];
            open == above + Rest(open) && (above == "" || above[|above| - 1] == '\n')
  {
  }

  lemma OpenWhole(open: string)
    requires forall k: nat :: k < |open| ==> open[k] != '\n'
    ensures Rest(open) == open
  {
    assert open[|open| - |Rest(open)|..] == Rest(open);
  }

  predicate IsBracket(c: char) {
    c == ']' || c == ')'
  }

  /** One of the two begins with the other one. */
  predicate Meets(a: string, b: string) {
    a <= b || b <= a
  }

  /** The line says something to the tag: it has a header of the tag, and content unless the line is finished. */
  predicate Speaks(t: string, line: string) {
    Header(t, ']') <= line || (Header(t, ')') <= line && Header(t, ')') != line)
  }

  /** One of the lines in the text, each of them with its newline, says something to the tag. */
  predicate SpeaksAbove(t: string, text: string)
    decreases |text|
  {
    var n := LineEnd(text);
    n < |text| && (Speaks(t, text[..n]) || SpeaksAbove(t, text[n + 1..]))
  }

  /**
   Some line written with tag u can look like a line of tag t: one of the lines above the content says
   something to t, or what is in front of the content agrees with a header of t as far as both go.
   */
  predicate Clash(t: string, u: string) {
    && t != u && '\n' !in t
    && (|| SpeaksAbove(t, Above(u))
        || exists b, bracket :: b in {']', ')'} && bracket in {']', ')'} && Meets(Header(t, b), Tail(u, bracket)))
  }

  lemma LineHasNoNewline(text: string)
    ensures '\n' !in text[..LineEnd(text)]
  {
  }

  lemma Both(a: string, b: string)
    ensures a + b == "" <==> a == "" && b == ""
  {
  }

  lemma DemuxOneLine(t: string, text: string)
    requires LineEnd(text) < |text|
    ensures Demux(t, text) == Payload(t, text[..LineEnd(text)]) + Demux(t, text[LineEnd(text) + 1..])
  {
  }

  lemma PayloadSpeaks(t: string, line: string)
    ensures Payload(t, line) != "" <==> Speaks(t, line)
  {
    if Header(t, ']') <= line {
    } else if Header(t, ')') <= line {
      assert line == Header(t, ')') + line[|t| + 3..];
    }
  }

  /** Exactly such a line makes a difference to a reader. */
  lemma {:induction false} DemuxSpeaks(t: string, text: string)
    ensures Demux(t, text) != "" <==> SpeaksAbove(t, text)
    decreases |text|
  {
    var n := LineEnd(text);
    if n < |text| {
      var line, more := text[..n], text[n + 1..];
      DemuxOneLine(t, text);
      PayloadSpeaks(t, line);
      DemuxSpeaks(t, more);
      Both(Payload(t, line), Demux(t, more));
      assert SpeaksAbove(t, text) <==> Speaks(t, line) || SpeaksAbove(t, more);
    }
  }

  lemma {:induction false} DemuxSplit(tag: string, a: string, b: string)
    requires a == "" || a[|a| - 1] == '\n'
    ensures Demux(tag, a + b) == Demux(tag, a) + Demux(tag, b)
    decreases |a|
  {
    if a == "" {
      assert a + b == b && Demux(tag, a) == "";
    } else {
      var n := LineEnd(a);
      var line, more := a[..n], a[n + 1..];
      assert a == line + "\n" + more && a + b == line + "\n" + (more + b);
      DemuxLine(tag, line, more);
      DemuxLine(tag, line, more + b);
      DemuxSplit(tag, more, b);
      Regroup(Payload(tag, line), Demux(tag, more), Demux(tag, b));
    }
  }

  lemma HeaderHasNewline(tag: string, bracket: char, line: string)
    requires '\n' in tag && Header(tag, bracket) <= line
    ensures '\n' in line
  {
    var i: nat :| i < |tag| && tag[i] == '\n';
    assert line[i + 1] == Header(tag, bracket)[i + 1];
  }

  lemma NewlineTagHasNoLine(tag: string, line: string)
    requires '\n' in tag && '\n' !in line
    ensures Payload(tag, line) == ""
  {
    if Header(tag, ']') <= line {
      HeaderHasNewline(tag, ']', line);
    }
    if Header(tag, ')') <= line {
      HeaderHasNewline(tag, ')', line);
    }
  }

  /** A line has no newline, so no line is of a tag with one. */
  lemma {:induction false} NewlineTagIsMute(tag: string, out: string)
    requires '\n' in tag
    ensures Demux(tag, out) == ""
    decreases |out|
  {
    var n := LineEnd(out);
    if n < |out| {
      LineHasNoNewline(out);
      NewlineTagHasNoLine(tag, out[..n]);
      NewlineTagIsMute(tag, out[n + 1..]);
      Both(Payload(tag, out[..n]), Demux(tag, out[n + 1..]));
    }
  }

  lemma OwnPayload(tag: string, content: string)
    ensures Payload(tag, Header(tag, ']') + content) == content + "\n"
    ensures Payload(tag, Header(tag, ')') + content) == content
  {
    var line := Header(tag, ')') + content;
    assert line[|tag| + 1] == ')' && Header(tag, ']')[|tag| + 1] == ']';
  }

  lemma PrefixesMeet(a: string, b: string, line: string)
    requires a <= line && b <= line
    ensures Meets(a, b)
  {
    assert a == line[..|a|] && b == line[..|b|];
    if |a| <= |b| {
      assert line[..|b|][..|a|] == line[..|a|];
    } else {
      assert line[..|a|][..|b|] == line[..|b|];
    }
  }

  lemma NothingAbove(t: string, u: string)
    requires t != u && '\n' !in t && !Clash(t, u)
    ensures Demux(t, Above(u)) == ""
  {
    DemuxSpeaks(t, Above(u));
  }

  lemma NoClashNoPayload(t: string, u: string, bracket: char, content: string)
    requires t != u && '\n' !in t && !Clash(t, u) && IsBracket(bracket)
    ensures Payload(t, Tail(u, bracket) + content) == ""
  {
    var line := Tail(u, bracket) + content;
    if Header(t, ']') <= line {
      PrefixesMeet(Header(t, ']'), Tail(u, bracket), line);
    }
    if Header(t, ')') <= line {
      PrefixesMeet(Header(t, ')'), Tail(u, bracket), line);
    }
  }

  // ---------------------------------------------------------------------------------------
  // The lines of one call
  // ---------------------------------------------------------------------------------------

  /** The bracket and the first line of a message. */
  function FirstBracket(p: string): char {
    if LineEnd(p) == |p| then ')' else ']'
  }

  /** The line with the first line of a message. */
  function FirstLine(u: string, p: string): string {
    Tail(u, FirstBracket(p)) + p[..LineEnd(p)]
  }

  /** What follows that line. */
  function AfterFirst(u: string, p: string, after: string): string {
    var n := LineEnd(p);
    if n == |p| then after else Frames(u, p[n + 1..]) + after
  }

  /** The first line of the frames. */
  lemma FramesLine(u: string, p: string)
    requires p != ""
    ensures Frames(u, p) == Header(u, FirstBracket(p)) + p[..LineEnd(p)] + "\n" + MoreFrames(u, p)
  {
    var n, header := LineEnd(p), Header(u, FirstBracket(p));
    if n == |p| {
      assert p[..n] == p;
      assert header + p + "\n" + "" == header + p + "\n";
    } else {
      assert p[..n + 1] == p[..n] + "\n";
      Regroup(header, p[..n], "\n");
    }
  }

  lemma Parts(above: string, tail: string, line: string, more: string, after: string, frames: string)
    requires frames == (above + tail) + line + "\n" + more
    ensures frames + after == above + ((tail + line) + "\n" + (more + after))
  {
    Regroup(above, tail, line);
    Regroup(above, tail + line, "\n");
    Regroup(above + (tail + line + "\n"), more, after);
    Regroup(above, tail + line + "\n", more + after);
  }

  /** What follows the first line within the frames. */
  function MoreFrames(u: string, p: string): string {
    var n := LineEnd(p);
    if n == |p| then "" else Frames(u, p[n + 1..])
  }

  lemma MoreIsAfter(u: string, p: string, after: string)
    ensures MoreFrames(u, p) + after == AfterFirst(u, p, after)
  {
  }

  lemma FramesFirst(u: string, p: string, after: string)
    requires p != ""
    ensures Frames(u, p) + after == Above(u) + (FirstLine(u, p) + "\n" + AfterFirst(u, p, after))
  {
    FramesLine(u, p);
    HeaderParts(u, FirstBracket(p));
    Parts(Above(u), Tail(u, FirstBracket(p)), p[..LineEnd(p)], MoreFrames(u, p), after, Frames(u, p));
    MoreIsAfter(u, p, after);
  }

  lemma FirstLineIsLine(u: string, p: string)
    ensures '\n' !in FirstLine(u, p)
  {
    assert forall i: nat :: i < LineEnd(p) ==> p[..LineEnd(p)][i] == p[i];
    assert '\n' !in Tail(u, FirstBracket(p));
  }

  lemma DemuxFirst(t: string, u: string, p: string, after: string)
    requires p != ""
    ensures Demux(t, Frames(u, p) + after) ==
            Demux(t, Above(u)) + (Payload(t, FirstLine(u, p)) + Demux(t, AfterFirst(u, p, after)))
  {
    FramesFirst(u, p, after);
    FirstLineIsLine(u, p);
    HeaderParts(u, ']');
    DemuxSplit(t, Above(u), FirstLine(u, p) + "\n" + AfterFirst(u, p, after));
    DemuxLine(t, FirstLine(u, p), AfterFirst(u, p, after));
  }

  /** What the first line gives its own tag. */
  function FirstPart(p: string): string {
    var n := LineEnd(p);
    if n == |p| then p else p[..n + 1]
  }

  lemma FirstPayload(u: string, p: string)
    requires p != "" && '\n' !in u
    ensures Payload(u, FirstLine(u, p)) == FirstPart(p)
  {
    var n := LineEnd(p);
    HeaderParts(u, FirstBracket(p));
    OwnPayload(u, p[..n]);
    if n == |p| {
      assert p[..n] == p;
    } else {
      assert p[..n + 1] == p[..n] + "\n";
    }
  }

  lemma SplitAt(p: string, k: nat)
    requires k <= |p|
    ensures p[..k] + p[k..] == p
  {
  }

  lemma DemuxOwnFirst(u: string, p: string, after: string)
    requires p != "" && '\n' !in u
    ensures Demux(u, Frames(u, p) + after) == FirstPart(p) + Demux(u, AfterFirst(u, p, after))
  {
    DemuxFirst(u, u, p, after);
    HeaderParts(u, ']');
    assert Demux(u, Above(u)) == "";
    FirstPayload(u, p);
  }

  /** The frames of one call give back the call's bytes for its own tag. */
  lemma {:induction false} DemuxOwnFrames(u: string, p: string, after: string)
    requires '\n' !in u
    ensures Demux(u, Frames(u, p) + after) == p + Demux(u, after)
    decreases |p|
  {
    if p == "" {
      assert Frames(u, p) + after == after && p + Demux(u, after) == Demux(u, after);
    } else {
      DemuxOwnFirst(u, p, after);
      var n := LineEnd(p);
      if n < |p| {
        DemuxOwnFrames(u, p[n + 1..], after);
        Regroup(p[..n + 1], p[n + 1..], Demux(u, after));
        SplitAt(p, n + 1);
      }
    }
  }

  lemma DemuxOtherFirst(t: string, u: string, p: string, after: string)
    requires p != "" && t != u && '\n' !in t && !Clash(t, u)
    ensures Demux(t, Frames(u, p) + after) == Demux(t, AfterFirst(u, p, after))
  {
    DemuxFirst(t, u, p, after);
    NothingAbove(t, u);
    NoClashNoPayload(t, u, FirstBracket(p), p[..LineEnd(p)]);
  }

  lemma AfterLastLine(u: string, p: string, after: string)
    requires LineEnd(p) == |p|
    ensures AfterFirst(u, p, after) == after
  {
  }

  lemma AfterFirstLine(u: string, p: string, after: string)
    requires LineEnd(p) < |p|
    ensures AfterFirst(u, p, after) == Frames(u, p[LineEnd(p) + 1..]) + after
  {
  }

  lemma DemuxNoFrames(t: string, u: string, after: string)
    ensures Demux(t, Frames(u, "") + after) == Demux(t, after)
  {
    assert Frames(u, "") + after == after;
  }

  lemma DemuxOtherLastLine(t: string, u: string, p: string, after: string)
    requires p != "" && LineEnd(p) == |p| && t != u && '\n' !in t && !Clash(t, u)
    ensures Demux(t, Frames(u, p) + after) == Demux(t, after)
  {
    DemuxOtherFirst(t, u, p, after);
    AfterLastLine(u, p, after);
  }

  lemma DemuxOtherFirstLine(t: string, u: string, p: string, more: string, after: string)
    requires p != "" && LineEnd(p) < |p| && more == p[LineEnd(p) + 1..] && t != u && '\n' !in t && !Clash(t, u)
    ensures Demux(t, Frames(u, p) + after) == Demux(t, Frames(u, more) + after)
  {
    DemuxOtherFirst(t, u, p, after);
    AfterFirstLine(u, p, after);
  }

  /** A tag without a newline: one line of the call after the other. */
  lemma {:induction false} DemuxOtherLines(t: string, u: string, p: string, after: string)
    requires t != u && '\n' !in t && !Clash(t, u)
    ensures Demux(t, Frames(u, p) + after) == Demux(t, after)
    decreases |p|
  {
    if p == "" {
      DemuxNoFrames(t, u, after);
    } else if LineEnd(p) == |p| {
      DemuxOtherLastLine(t, u, p, after);
    } else {
      var more := p[LineEnd(p) + 1..];
      DemuxOtherFirstLine(t, u, p, more, after);
      DemuxOtherLines(t, u, more, after);
    }
  }

  /** The frames of one call give a tag that does not clash with its own nothing. */
  lemma DemuxOtherFrames(t: string, u: string, p: string, after: string)
    requires t != u && !Clash(t, u)
    ensures Demux(t, Frames(u, p) + after) == Demux(t, after)
  {
    if '\n' in t {
      NewlineTagIsMute(t, Frames(u, p) + after);
      NewlineTagIsMute(t, after);
    } else {
      DemuxOtherLines(t, u, p, after);
    }
  }

  // ---------------------------------------------------------------------------------------
  // Whole outputs
  // ---------------------------------------------------------------------------------------

  /** The bytes written with a tag, in the order of the calls. */
  function Sent(tag: string, calls: seq<Call>): string {
    if calls == [] then ""
    else (if calls[0].tag == tag then calls[0].p else "") + Sent(tag, calls[1..])
  }

  /** Tag t can be told apart among the tags: it has no newline if it is one of them, and none clashes with it. */
  predicate Separable(t: string, tags: set<string>) {
    && (t in tags ==> '\n' !in t)
    && forall u :: u in tags && u != t ==> !Clash(t, u)
  }

  predicate UsesOnly(calls: seq<Call>, tags: set<string>) {
    forall c :: c in calls ==> c.tag in tags
  }

  lemma DemuxCall(t: string, call: Call, after: string, tags: set<string>)
    requires Separable(t, tags) && call.tag in tags
    ensures Demux(t, Frames(call.tag, call.p) + after) == (if call.tag == t then call.p else "") + Demux(t, after)
  {
    if call.tag == t {
      DemuxOwnFrames(t, call.p, after);
    } else {
      DemuxOtherFrames(t, call.tag, call.p, after);
    }
  }

  lemma {:induction false} DemuxOutput(t: string, calls: seq<Call>, tags: set<string>)
    requires Separable(t, tags) && UsesOnly(calls, tags)
    ensures Demux(t, Output(calls)) == Sent(t, calls)
  {
    if calls != [] {
      assert UsesOnly(calls[1..], tags) && calls[0] in calls;
      DemuxCall(t, calls[0], Output(calls[1..]), tags);
      DemuxOutput(t, calls[1..], tags);
    }
  }

  /**
   Whenever no writer is in the middle of its call, in every interleaving of successful calls, the
   lines of a tag give back exactly what was written with it, if it is separable among the tags in use.
   */
  lemma InterleavedDemux(steps: seq<Step>, t: string, tags: set<string>)
    requires Legal(START, steps) && Run(START, steps).holder.None?
    requires UsesOnly(Run(START, steps).done, tags) && Separable(t, tags)
    ensures var s := Run(START, steps);
            s.out == Output(s.done) && Demux(t, s.out) == Sent(t, s.done)
  {
    RunsAreFramed(START, steps);
    DemuxOutput(t, Run(START, steps).done, tags);
  }

  ghost predicate Recovers(t: string, calls: seq<Call>) {
    Demux(t, Output(calls)) == Sent(t, calls)
  }

  /** Separability is exact: without it, the lines of the tag do not give back what was written with it. */
  lemma SeparableIsExact(t: string, tags: set<string>)
    ensures Separable(t, tags) <==> forall calls: seq<Call> :: UsesOnly(calls, tags) ==> Recovers(t, calls)
  {
    if Separable(t, tags) {
      forall calls: seq<Call> | UsesOnly(calls, tags) ensures Recovers(t, calls) {
        DemuxOutput(t, calls, tags);
      }
    } else if t in tags && '\n' in t {
      var calls := [Call(t, "x")];
      OneCall(t, calls[0]);
      NewlineTagIsMute(t, Output(calls));
      assert UsesOnly(calls, tags) && !Recovers(t, calls);
    } else {
      var u :| u in tags && u != t && Clash(t, u);
      var p := ClashWitness(t, u);
      var calls := [Call(u, p)];
      OneCall(t, calls[0]);
      assert UsesOnly(calls, tags) && !Recovers(t, calls);
    }
  }

  lemma OneCall(t: string, call: Call)
    ensures Output([call]) == Frames(call.tag, call.p)
    ensures Sent(t, [call]) == if call.tag == t then call.p else ""
  {
    assert [call][1..] == [] && Output([]) == "" && Sent(t, []) == "";
    assert Frames(call.tag, call.p) + "" == Frames(call.tag, call.p);
    assert (if call.tag == t then call.p else "") + "" == if call.tag == t then call.p else "";
  }

  /** Two tags clash if and only if something written with one of them is read as written with the other one. */
  lemma ClashIsExact(t: string, u: string)
    requires t != u
    ensures Clash(t, u) <==> exists p: string :: Demux(t, Frames(u, p)) != ""
  {
    if Clash(t, u) {
      var p := ClashWitness(t, u);
      assert Demux(t, Frames(u, p)) != "";
    } else {
      forall p: string ensures Demux(t, Frames(u, p)) == "" {
        DemuxOtherFrames(t, u, p, "");
        assert Frames(u, p) + "" == Frames(u, p);
      }
    }
  }

  /** A message of one line without its newline. */
  lemma OneLineMessage(t: string, u: string, line: string)
    requires line != "" && '\n' !in line
    ensures Demux(t, Frames(u, line)) == Demux(t, Above(u)) + Payload(t, Tail(u, ')') + line)
  {
    LineEndIs(line, |line|);
    assert line[..|line|] == line;
    DemuxFirst(t, u, line, "");
    assert Frames(u, line) + "" == Frames(u, line);
    assert FirstLine(u, line) == Tail(u, ')') + line && AfterFirst(u, line, "") == "";
    assert Payload(t, Tail(u, ')') + line) + Demux(t, "") == Payload(t, Tail(u, ')') + line);
  }

  /** A message of one line with its newline. */
  lemma OneWholeLine(t: string, u: string, line: string)
    requires '\n' !in line
    ensures Demux(t, Frames(u, line + "\n")) == Demux(t, Above(u)) + Payload(t, Tail(u, ']') + line)
  {
    var p := line + "\n";
    LineEndIs(p, |line|);
    assert p[..|line|] == line && p[|line| + 1..] == "";
    DemuxFirst(t, u, p, "");
    assert Frames(u, p) + "" == Frames(u, p) && Frames(u, "") + "" == "";
    assert FirstLine(u, p) == Tail(u, ']') + line && AfterFirst(u, p, "") == "";
    assert Payload(t, Tail(u, ']') + line) + Demux(t, "") == Payload(t, Tail(u, ']') + line);
  }

  /** Content that makes a line of u look like a line of t, with something left over. */
  lemma ClashContent(header: string, tail: string) returns (content: string, more: string)
    requires Meets(header, tail) && '\n' !in header
    ensures content != "" && '\n' !in content && more != "" && tail + content == header + more
  {
    if tail <= header {
      content, more := header[|tail|..] + "x", "x";
    } else {
      content, more := "x", tail[|header|..] + "x";
    }
  }

  lemma ClashWitness(t: string, u: string) returns (p: string)
    requires Clash(t, u)
    ensures Demux(t, Frames(u, p)) != ""
  {
    if SpeaksAbove(t, Above(u)) {
      DemuxSpeaks(t, Above(u));
      OneLineMessage(t, u, "x");
      p := "x";
    } else {
      var b, bracket :| b in {']', ')'} && bracket in {']', ')'} && Meets(Header(t, b), Tail(u, bracket));
      p := ClashAfter(t, b, u, bracket);
    }
  }

  lemma ClashAfter(t: string, b: char, u: string, bracket: char) returns (p: string)
    requires '\n' !in t && IsBracket(b) && IsBracket(bracket) && Meets(Header(t, b), Tail(u, bracket))
    ensures Demux(t, Frames(u, p)) != ""
  {
    assert '\n' !in Header(t, b);
    var content, more := ClashContent(Header(t, b), Tail(u, bracket));
    OwnPayload(t, more);
    if bracket == ')' {
      OneLineMessage(t, u, content);
      p := content;
    } else {
      OneWholeLine(t, u, content);
      p := content + "\n";
    }
  }

  // ---------------------------------------------------------------------------------------
  // Simple tags
  // ---------------------------------------------------------------------------------------

  /** The longer tag goes on after the shorter one with a closing bracket and a blank. */
  predicate Extends(shorter: string, longer: string) {
    shorter + "] " <= longer || shorter + ") " <= longer
  }

  lemma HeadersMeet(t: string, b: char, u: string, bracket: char)
    requires IsBracket(b) && IsBracket(bracket) && t != u && |t| <= |u|
    ensures Meets(Header(t, b), Header(u, bracket)) <==> t + [b, ' '] <= u
  {
    var h, k := Header(t, b), Header(u, bracket);
    assert h[1..|t| + 1] == t && k[1..|u| + 1] == u;
    if t + [b, ' '] <= u {
      assert u[..|t| + 2] == t + [b, ' '];
      assert k[..|t| + 3] == h;
    }
    if h <= k {
      assert h == k[..|h|] && k[|u| + 1] == bracket && h[|t| + 1] == b && h[|t| + 2] == ' ';
      assert t == k[1..|t| + 1];
      assert |t| < |u|;
      assert |t| + 2 <= |u|;
      assert u[..|t| + 2] == k[1..|t| + 3];
    }
  }

  /** Tags without newlines clash if and only if one of them extends the other one. */
  lemma ClashIsExtension(t: string, u: string)
    requires t != u && '\n' !in t && '\n' !in u
    ensures Clash(t, u) <==> Extends(t, u) || Extends(u, t)
  {
    HeaderParts(u, ']');
    HeaderParts(u, ')');
    assert !SpeaksAbove(t, Above(u));
    forall b, bracket | b in {']', ')'} && bracket in {']', ')'}
      ensures Meets(Header(t, b), Tail(u, bracket)) <==> t + [b, ' '] <= u || u + [bracket, ' '] <= t
    {
      if |t| <= |u| {
        HeadersMeet(t, b, u, bracket);
      } else {
        HeadersMeet(u, bracket, t, b);
      }
    }
    assert "] " == [']', ' '] && ") " == [')', ' '];
    assert ']' in {']', ')'} && ')' in {']', ')'};
  }

  lemma ExtendsHasBracket(shorter: string, longer: string)
    requires Extends(shorter, longer)
    ensures ']' in longer || ')' in longer
  {
    assert longer[|shorter|] == ']' || longer[|shorter|] == ')';
  }

  predicate PlainTag(tag: string) {
    ']' !in tag && ')' !in tag && '\n' !in tag
  }

  /** Tags without closing brackets and newlines can all be told apart. */
  lemma PlainTagsAreSeparable(t: string, tags: set<string>)
    requires PlainTag(t) && forall u :: u in tags ==> PlainTag(u)
    ensures Separable(t, tags)
  {
    forall u | u in tags && u != t ensures !Clash(t, u) {
      ClashIsExtension(t, u);
      if Extends(t, u) {
        ExtendsHasBracket(t, u);
      }
      if Extends(u, t) {
        ExtendsHasBracket(u, t);
      }
    }
  }
}
