/**
 sqlmigrate.Exec: leader election through a primary-key insert, for any number of callers that
 share one bookkeeping table.

 The table maps a statement index to its stored checksum, or to None for a null.  Every
 database call is one atomic step.  A call may report an error, and then it may or may not have
 been applied; a caller may crash between any two calls.  crc stands for the CRC-32 of the
 normalized statement.
 */
module Migrate {
  import opened Wrappers
  import opened Sequences
  import opened Strings

  type Table = map<nat, Option<int>>

  datatype Error =
    | DbError                                // an error of a bookkeeping call
    | Mismatch(index: nat, expected: int, actual: int)
    | StmtError(index: nat)                  // the statement or its callback failed
    | WaitCancelled(index: nat)

  datatype Pc =
    | Insert             // about to race the insertion of row i
    | Check              // lost the race, about to read row i
    | Statement          // won the race, about to execute statement i
    | Callback
    | Update             // success is true, about to store the checksum
    | Cleanup            // success is false, about to delete row i
    | Done(err: Option<Error>)
    | Crashed

  datatype Caller = Caller(stmts: seq<string>, i: nat, pc: Pc)

  /**
   successes and attempts are histories: the indices of the statements that succeeded together
   with their callback, and of those that were tried.
   */
  datatype State = State(table: Table, callers: seq<Caller>, successes: seq<nat>, attempts: seq<nat>)

  /** How a call ends: normally, with an error but applied, with an error, by cancellation. */
  datatype Outcome = Good | AppliedError | PlainError | Cancelled

  datatype Step =
    | Start(stmts: seq<string>)
    | Do(caller: nat, outcome: Outcome)
    | Crash(caller: nat)

  // ---------------------------------------------------------------------------------------
  // Checksums
  // ---------------------------------------------------------------------------------------

  predicate Ignored(c: char) {
    c == ' ' || c == '\n' || c == '\t'
  }

  function Lower(c: char): char {
    if 'A' <= c <= 'Z' then ((c as int) + 32) as char else c
  }

  function LowerAll(s: string): string {
    seq(|s|, i requires 0 <= i < |s| => Lower(s[i]))
  }

  function Normalize(stmt: string): string {
    var noBlanks := ReplaceAll(stmt, " ", "");
    var noNewlines := ReplaceAll(noBlanks, "\n", "");
    var noTabs := ReplaceAll(noNewlines, "\t", "");
    LowerAll(noTabs)
  }

  function Checksum(crc: string -> int, stmt: string): int {
    crc(Normalize(stmt))
  }

  /** One pass over a text whose first character may be gone already. */
  lemma StripFirst(first: string, s: string, blank: char)
    requires |first| <= 1
    ensures ReplaceAll(first + s, [blank], "") ==
            (if first == [blank] then "" else first) + ReplaceAll(s, [blank], "")
  {
    var rest := ReplaceAll(s, [blank], "");
    assert "" + rest == rest;
    if first == "" {
      assert first + s == s;
    } else {
      assert first == [first[0]];
      ReplaceChar(first[0], s, blank, "");
    }
  }

  lemma LowerFirst(first: string, s: string)
    ensures LowerAll(first + s) == LowerAll(first) + LowerAll(s)
  {
  }

  /** The passes over a statement, character by character. */
  lemma NormalizeChar(c: char, s: string)
    ensures Normalize([c] + s) == (if Ignored(c) then "" else [Lower(c)]) + Normalize(s)
  {
    var noBlanks := ReplaceAll(s, " ", "");
    var noNewlines := ReplaceAll(noBlanks, "\n", "");
    var first := if c == ' ' then "" else [c];
    var second := if first == "\n" then "" else first;
    var third := if second == "\t" then "" else second;
    StripFirst([c], s, ' ');
    StripFirst(first, noBlanks, '\n');
    StripFirst(second, noNewlines, '\t');
    LowerFirst(third, ReplaceAll(noNewlines, "\t", ""));
    assert LowerAll(third) == if Ignored(c) then "" else [Lower(c)];
  }

  lemma {:induction false} NormalizeConcat(a: string, b: string)
    ensures Normalize(a + b) == Normalize(a) + Normalize(b)
  {
    if a == "" {
      assert a + b == b && Normalize(a) == "";
    } else {
      var c, rest := a[0], a[1..];
      assert a == [c] + rest && a + b == [c] + (rest + b);
      NormalizeChar(c, rest);
      NormalizeChar(c, rest + b);
      NormalizeConcat(rest, b);
      Regroup(if Ignored(c) then "" else [Lower(c)], Normalize(rest), Normalize(b));
    }
  }

  /** Reformatting a statement with spaces, tabs or newlines never changes its checksum. */
  lemma ReformatKeepsChecksum(crc: string -> int, a: string, blank: char, b: string)
    requires Ignored(blank)
    ensures Checksum(crc, a + [blank] + b) == Checksum(crc, a + b)
  {
    NormalizeConcat(a, [blank] + b);
    NormalizeChar(blank, b);
    NormalizeConcat(a, b);
    assert a + [blank] + b == a + ([blank] + b);
    assert "" + Normalize(b) == Normalize(b);
  }

  /** A statement without blanks, tabs, newlines and upper-case letters is its own normal form. */
  lemma {:induction false} NormalFormStays(stmt: string)
    requires forall c :: c in stmt ==> c !in {' ', '\n', '\t'} && !('A' <= c <= 'Z')
    ensures Normalize(stmt) == stmt
  {
    if stmt == "" {
    } else {
      var c, rest := stmt[0], stmt[1..];
      assert c in stmt && stmt == [c] + rest && forall d :: d in rest ==> d in stmt;
      NormalizeChar(c, rest);
      NormalFormStays(rest);
    }
  }

  /** The same letter, perhaps in another case. */
  predicate SameLetter(c: char, d: char) {
    || c == d
    || ('A' <= c <= 'Z' && d as int == c as int + 32)
    || ('A' <= d <= 'Z' && c as int == d as int + 32)
  }

  /** Two statements that differ at most in blanks, tabs, newlines and the case of letters. */
  predicate Alike(a: string, b: string)
    decreases |a| + |b|
  {
    if a != "" && a[0] in {' ', '\n', '\t'} then Alike(a[1..], b)
    else if b != "" && b[0] in {' ', '\n', '\t'} then Alike(a, b[1..])
    else if a == "" || b == "" then a == b
    else SameLetter(a[0], b[0]) && Alike(a[1..], b[1..])
  }

  lemma FirstsEqual(c: char, d: char, a: string, b: string)
    ensures [c] + a == [d] + b <==> c == d && a == b
  {
    assert ([c] + a)[0] == c && ([d] + b)[0] == d && ([c] + a)[1..] == a && ([d] + b)[1..] == b;
  }

  lemma {:induction false} AlikeNormalForms(a: string, b: string)
    ensures Normalize(a) == Normalize(b) <==> Alike(a, b)
    decreases |a| + |b|
  {
    assert Normalize("") == "";
    if a != "" {
      assert a == [a[0]] + a[1..];
      NormalizeChar(a[0], a[1..]);
    }
    if b != "" {
      assert b == [b[0]] + b[1..];
      NormalizeChar(b[0], b[1..]);
    }
    if a != "" && Ignored(a[0]) {
      AlikeNormalForms(a[1..], b);
    } else if b != "" && Ignored(b[0]) {
      AlikeNormalForms(a, b[1..]);
    } else if a != "" && b != "" {
      FirstsEqual(Lower(a[0]), Lower(b[0]), Normalize(a[1..]), Normalize(b[1..]));
      AlikeNormalForms(a[1..], b[1..]);
    }
  }

  /** Two statements have the same checksum, whatever the hash, exactly if they are alike. */
  lemma SameChecksumIff(a: string, b: string)
    ensures (forall crc: string -> int :: Checksum(crc, a) == Checksum(crc, b)) <==> Alike(a, b)
  {
    AlikeNormalForms(a, b);
    if Normalize(a) != Normalize(b) {
      var form := Normalize(a);
      var crc: string -> int := s => if s == form then 1 else 0;
      assert Checksum(crc, a) == 1 && Checksum(crc, b) == 0;
    }
  }

  // ---------------------------------------------------------------------------------------
  // Steps
  // ---------------------------------------------------------------------------------------

  function Init(): State {
    State(map[], [], [], [])
  }

  /** The place after statement i: the next insertion, or the nil return. */
  function Advance(me: Caller): Caller {
    var i := me.i + 1;
    me.(i := i, pc := if i < |me.stmts| then Insert else Done(None))
  }

  function Enter(stmts: seq<string>): Caller {
    Caller(stmts, 0, if stmts == [] then Done(None) else Insert)
  }

  predicate Running(me: Caller) {
    !me.pc.Done? && !me.pc.Crashed?
  }

  predicate CanDo(s: State, c: nat, outcome: Outcome)
    requires c < |s.callers|
  {
    var me := s.callers[c];
    && Running(me) && me.i < |me.stmts|
    && (me.pc.Insert? && outcome in {Good, AppliedError} ==> me.i !in s.table)
    && (me.pc.Check? ==> outcome != AppliedError)
    && (outcome == Cancelled ==> me.pc.Check? && me.i in s.table && s.table[me.i] == None)
    && (outcome == AppliedError ==> me.pc.Insert? || me.pc.Update? || me.pc.Cleanup?)
  }

  predicate Enabled(s: State, step: Step) {
    match step
    case Start(_) => true
    case Do(c, outcome) => c < |s.callers| && CanDo(s, c, outcome)
    case Crash(c) => c < |s.callers| && Running(s.callers[c])
  }

  function Put(s: State, c: nat, me: Caller): State
    requires c < |s.callers|
  {
    s.(callers := s.callers[c := me])
  }

  /** A database call of one caller moves no other one. */
  function ApplyDo(crc: string -> int, s: State, c: nat, outcome: Outcome): (t: State)
    requires c < |s.callers| && CanDo(s, c, outcome)
    ensures |t.callers| == |s.callers| && t.callers == s.callers[c := t.callers[c]]
  {
    var me := s.callers[c];
    var i := me.i;
    var sum := Checksum(crc, me.stmts[i]);
    match me.pc
    case Insert =>
      if outcome == PlainError then Put(s, c, me.(pc := Check))
      else Put(s.(table := s.table[i := None]), c, me.(pc := if outcome == Good then Statement else Check))
    case Check =>
      if outcome == Cancelled then Put(s, c, me.(pc := Done(Some(WaitCancelled(i)))))
      else if outcome == PlainError then Put(s, c, me.(pc := Done(Some(DbError))))
      else if i !in s.table then Put(s, c, me.(pc := Insert))
      else if s.table[i] == None then s
      else if s.table[i].value == sum then Put(s, c, Advance(me))
      else Put(s, c, me.(pc := Done(Some(Mismatch(i, sum, s.table[i].value)))))
    case Statement =>
      Put(s.(attempts := s.attempts + [i]), c, me.(pc := if outcome == Good then Callback else Cleanup))
    case Callback =>
      if outcome == Good then Put(s.(successes := s.successes + [i]), c, me.(pc := Update))
      else Put(s, c, me.(pc := Cleanup))
    case Update =>
      var t := if outcome == PlainError || i !in s.table then s else s.(table := s.table[i := Some(sum)]);
      Put(t, c, if outcome == Good then Advance(me) else me.(pc := Done(Some(DbError))))
    case Cleanup =>
      var t := if outcome == PlainError then s else s.(table := s.table - {i});
      Put(t, c, me.(pc := Done(Some(StmtError(i)))))
  }

  function Apply(crc: string -> int, s: State, step: Step): State
    requires Enabled(s, step)
  {
    match step
    case Start(stmts) => s.(callers := s.callers + [Enter(stmts)])
    case Do(c, outcome) => ApplyDo(crc, s, c, outcome)
    case Crash(c) => Put(s, c, s.callers[c].(pc := Crashed))
  }

  predicate Legal(crc: string -> int, s: State, steps: seq<Step>)
    decreases |steps|
  {
    steps == [] || (Enabled(s, steps[0]) && Legal(crc, Apply(crc, s, steps[0]), steps[1..]))
  }

  function Run(crc: string -> int, s: State, steps: seq<Step>): State
    requires Legal(crc, s, steps)
    decreases |steps|
  {
    if steps == [] then s else Run(crc, Apply(crc, s, steps[0]), steps[1..])
  }

  // ---------------------------------------------------------------------------------------
  // The invariant; n is the number of filled rows
  // ---------------------------------------------------------------------------------------

  /** A leader is between its winning insertion and its own update or delete. */
  predicate Leader(pc: Pc) {
    pc.Statement? || pc.Callback? || pc.Update? || pc.Cleanup?
  }

  /** Rows 0 to n - 1 are filled, and at most row n follows them, null. */
  ghost predicate Prefix(t: Table, n: nat) {
    && (forall j: nat | j < n :: j in t && t[j].Some?)
    && (forall j: nat | j in t :: j <= n && (j == n ==> t[j] == None))
  }

  ghost predicate SuccessInv(s: State, n: nat) {
    && (forall k: nat | k < |s.successes| :: s.successes[k] == k)
    && (|s.successes| == n || (|s.successes| == n + 1 && n in s.table))
  }

  ghost predicate Matches(crc: string -> int, t: Table, stmts: seq<string>, i: nat)
    requires i <= |stmts|
  {
    forall j: nat | j < i :: j in t && t[j] == Some(Checksum(crc, stmts[j]))
  }

  ghost predicate CallerInv(crc: string -> int, s: State, n: nat, me: Caller) {
    && me.i <= n && me.i <= |me.stmts|
    && (Running(me) ==> me.i < |me.stmts|)
    && (me.pc == Done(None) ==> me.i == |me.stmts|)
    && Matches(crc, s.table, me.stmts, me.i)
    && (Leader(me.pc) ==>
          me.i == n && n in s.table && |s.successes| == if me.pc.Update? then n + 1 else n)
  }

  ghost predicate InvAt(crc: string -> int, s: State, n: nat) {
    && Prefix(s.table, n)
    && SuccessInv(s, n)
    && (forall c: nat | c < |s.callers| :: CallerInv(crc, s, n, s.callers[c]))
    && (forall c: nat, d: nat | c < |s.callers| && d < |s.callers|
          && Leader(s.callers[c].pc) && Leader(s.callers[d].pc) :: c == d)
  }

  /** What a single step or a whole run never undoes. */
  ghost predicate Extends(s: State, t: State) {
    && (forall j: nat | j in s.table && s.table[j].Some? :: j in t.table && t.table[j] == s.table[j])
    && s.successes <= t.successes
    && s.attempts <= t.attempts
    && (forall k: nat | |s.attempts| <= k < |t.attempts| :: t.attempts[k] >= |s.successes|)
    && |s.callers| <= |t.callers|
  }

  /** Puts the invariant together again after caller c has become me. */
  lemma Rejoin(crc: string -> int, s: State, n: nat, c: nat, me: Caller, t: State, m: nat)
    requires InvAt(crc, s, n) && c < |s.callers| && n <= m
    requires t.callers == s.callers[c := me]
    requires Prefix(t.table, m) && SuccessInv(t, m) && CallerInv(crc, t, m, me)
    requires forall j: nat | j < n :: t.table[j] == s.table[j]
    requires forall d: nat | d < |s.callers| && d != c && Leader(s.callers[d].pc) ::
               n == m && n in t.table && |t.successes| == |s.successes| && !Leader(me.pc)
    ensures InvAt(crc, t, m)
  {
    forall d: nat | d < |t.callers| ensures CallerInv(crc, t, m, t.callers[d]) {
      assert CallerInv(crc, s, n, s.callers[d]);
    }
  }

  lemma InsertKeepsInv(crc: string -> int, s: State, n: nat, c: nat, outcome: Outcome)
    requires InvAt(crc, s, n) && Enabled(s, Do(c, outcome)) && s.callers[c].pc.Insert?
    ensures InvAt(crc, Apply(crc, s, Do(c, outcome)), n)
    ensures Extends(s, Apply(crc, s, Do(c, outcome)))
  {
    var t := Apply(crc, s, Do(c, outcome));
    assert CallerInv(crc, s, n, s.callers[c]);
    forall d: nat | d < |s.callers| && d != c && Leader(s.callers[d].pc)
      ensures n in s.table && outcome == PlainError
    {
      assert CallerInv(crc, s, n, s.callers[d]);
    }
    Rejoin(crc, s, n, c, t.callers[c], t, n);
  }

  /** A follower writes nothing and does not become a leader; what it has seen still holds. */
  lemma CheckedCaller(crc: string -> int, s: State, n: nat, c: nat, outcome: Outcome)
    requires InvAt(crc, s, n) && Enabled(s, Do(c, outcome)) && s.callers[c].pc.Check?
    ensures var t := Apply(crc, s, Do(c, outcome));
            && t == s.(callers := t.callers) && !Leader(t.callers[c].pc)
            && CallerInv(crc, s, n, t.callers[c])
  {
    assert CallerInv(crc, s, n, s.callers[c]);
  }

  lemma CheckKeepsInv(crc: string -> int, s: State, n: nat, c: nat, outcome: Outcome)
    requires InvAt(crc, s, n) && Enabled(s, Do(c, outcome)) && s.callers[c].pc.Check?
    ensures InvAt(crc, Apply(crc, s, Do(c, outcome)), n)
    ensures Extends(s, Apply(crc, s, Do(c, outcome)))
  {
    var t := Apply(crc, s, Do(c, outcome));
    CheckedCaller(crc, s, n, c, outcome);
    forall d: nat | d < |s.callers| && d != c && Leader(s.callers[d].pc) ensures n in t.table {
      assert CallerInv(crc, s, n, s.callers[d]);
    }
    Rejoin(crc, s, n, c, t.callers[c], t, n);
  }

  /** The number of filled rows after a call of the leader. */
  function FilledAfter(s: State, n: nat, c: nat, outcome: Outcome): nat
    requires c < |s.callers|
  {
    if s.callers[c].pc.Update? && outcome != PlainError then n + 1 else n
  }

  lemma LeaderMoved(crc: string -> int, s: State, n: nat, c: nat, outcome: Outcome)
    requires InvAt(crc, s, n) && Enabled(s, Do(c, outcome)) && Leader(s.callers[c].pc)
    ensures var t, m := Apply(crc, s, Do(c, outcome)), FilledAfter(s, n, c, outcome);
            CallerInv(crc, t, m, t.callers[c])
  {
    assert CallerInv(crc, s, n, s.callers[c]);
  }

  lemma LeaderWrote(crc: string -> int, s: State, n: nat, c: nat, outcome: Outcome)
    requires InvAt(crc, s, n) && Enabled(s, Do(c, outcome)) && Leader(s.callers[c].pc)
    ensures var t, m := Apply(crc, s, Do(c, outcome)), FilledAfter(s, n, c, outcome);
            Prefix(t.table, m) && SuccessInv(t, m)
  {
    assert CallerInv(crc, s, n, s.callers[c]);
  }

  lemma LeaderExtends(crc: string -> int, s: State, n: nat, c: nat, outcome: Outcome)
    requires InvAt(crc, s, n) && Enabled(s, Do(c, outcome)) && Leader(s.callers[c].pc)
    ensures Extends(s, Apply(crc, s, Do(c, outcome)))
  {
    assert CallerInv(crc, s, n, s.callers[c]);
  }

  lemma LeaderKeepsInv(crc: string -> int, s: State, n: nat, c: nat, outcome: Outcome) returns (m: nat)
    requires InvAt(crc, s, n) && Enabled(s, Do(c, outcome)) && Leader(s.callers[c].pc)
    ensures InvAt(crc, Apply(crc, s, Do(c, outcome)), m) && n <= m
    ensures Extends(s, Apply(crc, s, Do(c, outcome)))
  {
    var t := Apply(crc, s, Do(c, outcome));
    LeaderMoved(crc, s, n, c, outcome);
    LeaderWrote(crc, s, n, c, outcome);
    LeaderExtends(crc, s, n, c, outcome);
    m := FilledAfter(s, n, c, outcome);
    Rejoin(crc, s, n, c, t.callers[c], t, m);
  }

  lemma OtherStepKeepsInv(crc: string -> int, s: State, n: nat, step: Step)
    requires InvAt(crc, s, n) && Enabled(s, step) && !step.Do?
    ensures InvAt(crc, Apply(crc, s, step), n) && Extends(s, Apply(crc, s, step))
  {
    var t := Apply(crc, s, step);
    forall d: nat | d < |t.callers| ensures CallerInv(crc, t, n, t.callers[d]) {
      assert d < |s.callers| ==> CallerInv(crc, s, n, s.callers[d]);
    }
  }

  lemma StepKeepsInv(crc: string -> int, s: State, n: nat, step: Step) returns (m: nat)
    requires InvAt(crc, s, n) && Enabled(s, step)
    ensures InvAt(crc, Apply(crc, s, step), m) && n <= m
    ensures Extends(s, Apply(crc, s, step))
  {
    m := n;
    match step {
      case Do(c, outcome) =>
        if s.callers[c].pc.Insert? {
          InsertKeepsInv(crc, s, n, c, outcome);
        } else if s.callers[c].pc.Check? {
          CheckKeepsInv(crc, s, n, c, outcome);
        } else {
          m := LeaderKeepsInv(crc, s, n, c, outcome);
        }
      case _ => OtherStepKeepsInv(crc, s, n, step);
    }
  }

  lemma {:induction false} RunKeepsInv(crc: string -> int, s: State, n: nat, steps: seq<Step>) returns (m: nat)
    requires InvAt(crc, s, n) && Legal(crc, s, steps)
    ensures InvAt(crc, Run(crc, s, steps), m) && n <= m
    ensures Extends(s, Run(crc, s, steps))
    decreases |steps|
  {
    if steps == [] {
      m := n;
    } else {
      m := StepKeepsInv(crc, s, n, steps[0]);
      m := RunKeepsInv(crc, Apply(crc, s, steps[0]), m, steps[1..]);
    }
  }

  // ---------------------------------------------------------------------------------------
  // Safety over every run from the empty table
  // ---------------------------------------------------------------------------------------

  lemma Reachable(crc: string -> int, steps: seq<Step>) returns (n: nat)
    requires Legal(crc, Init(), steps)
    ensures InvAt(crc, Run(crc, Init(), steps), n)
  {
    n := RunKeepsInv(crc, Init(), 0, steps);
  }

  ghost predicate LeadersAt(s: State, n: nat) {
    forall c: nat | c < |s.callers| && Leader(s.callers[c].pc) :: s.callers[c].i == n && n in s.table
  }

  /**
   The table is always a gap-free prefix of filled rows with at most one null row behind it, and
   at most one caller over all indices leads; its row is that null row.
   */
  lemma TableIsPrefix(crc: string -> int, steps: seq<Step>) returns (n: nat)
    requires Legal(crc, Init(), steps)
    ensures var s := Run(crc, Init(), steps);
            Prefix(s.table, n) && LeadersAt(s, n)
    ensures var s := Run(crc, Init(), steps);
            forall c: nat, d: nat | c < |s.callers| && d < |s.callers|
              && Leader(s.callers[c].pc) && Leader(s.callers[d].pc) :: c == d
  {
    n := Reachable(crc, steps);
    var s := Run(crc, Init(), steps);
    forall c: nat | c < |s.callers| && Leader(s.callers[c].pc) ensures s.callers[c].i == n && n in s.table {
      assert CallerInv(crc, s, n, s.callers[c]);
    }
  }

  /** The statements succeed in order, each exactly once, whatever fails or crashes. */
  lemma EachStatementOnce(crc: string -> int, steps: seq<Step>)
    requires Legal(crc, Init(), steps)
    ensures var s := Run(crc, Init(), steps);
            && (forall k: nat | k < |s.successes| :: s.successes[k] == k)
            && (forall j: nat | j in s.table && s.table[j].Some? :: j < |s.successes|)
  {
    var n := Reachable(crc, steps);
  }

  /** When a call returns nil, every row of its list holds the checksum of its statement. */
  lemma NilMeansStored(crc: string -> int, steps: seq<Step>, c: nat)
    requires Legal(crc, Init(), steps)
    requires var s := Run(crc, Init(), steps); c < |s.callers| && s.callers[c].pc == Done(None)
    ensures var s := Run(crc, Init(), steps); Matches(crc, s.table, s.callers[c].stmts, |s.callers[c].stmts|)
  {
    var n := Reachable(crc, steps);
    var s := Run(crc, Init(), steps);
    assert CallerInv(crc, s, n, s.callers[c]);
  }

  /** Two calls that return nil agree on the checksums of their common prefix. */
  lemma NilCallsAgree(crc: string -> int, steps: seq<Step>, c: nat, d: nat, j: nat)
    requires Legal(crc, Init(), steps)
    requires var s := Run(crc, Init(), steps);
             && c < |s.callers| && s.callers[c].pc == Done(None) && j < |s.callers[c].stmts|
             && d < |s.callers| && s.callers[d].pc == Done(None) && j < |s.callers[d].stmts|
    ensures var s := Run(crc, Init(), steps);
            Checksum(crc, s.callers[c].stmts[j]) == Checksum(crc, s.callers[d].stmts[j])
  {
    NilMeansStored(crc, steps, c);
    NilMeansStored(crc, steps, d);
  }

  /**
   After a call has returned nil, nothing that any caller does later executes one of its
   statement indices again or changes one of its rows.
   */
  lemma NeverAgain(crc: string -> int, steps: seq<Step>, c: nat, later: seq<Step>)
    requires Legal(crc, Init(), steps)
    requires var s := Run(crc, Init(), steps);
             c < |s.callers| && s.callers[c].pc == Done(None) && Legal(crc, s, later)
    ensures var s := Run(crc, Init(), steps);
            var t := Run(crc, s, later);
            && s.attempts <= t.attempts
            && (forall k: nat | |s.attempts| <= k < |t.attempts| :: t.attempts[k] >= |s.callers[c].stmts|)
            && Matches(crc, t.table, s.callers[c].stmts, |s.callers[c].stmts|)
  {
    var n := Reachable(crc, steps);
    var s := Run(crc, Init(), steps);
    assert CallerInv(crc, s, n, s.callers[c]);
    var _ := RunKeepsInv(crc, s, n, later);
  }

  // ---------------------------------------------------------------------------------------
  // Stuck migrations
  // ---------------------------------------------------------------------------------------

  /** A row is null, and nobody is about to fill or to delete it. */
  ghost predicate Stuck(s: State) {
    && (exists i: nat :: i in s.table && s.table[i] == None)
    && forall c: nat :: c < |s.callers| ==> !Leader(s.callers[c].pc)
  }

  /**
   A null row is left to itself: its leader crashes, the leader's last bookkeeping call is not applied, or
   an insertion is applied and reported as failed.
   */
  predicate Abandons(s: State, step: Step)
    requires Enabled(s, step)
  {
    match step
    case Start(_) => false
    case Crash(c) => Leader(s.callers[c].pc)
    case Do(c, outcome) =>
      var pc := s.callers[c].pc;
      (pc.Insert? && outcome == AppliedError) || ((pc.Update? || pc.Cleanup?) && outcome == PlainError)
  }

  predicate Abandoned(crc: string -> int, s: State, steps: seq<Step>)
    requires Legal(crc, s, steps)
    decreases |steps|
  {
    steps != [] && (Abandons(s, steps[0]) || Abandoned(crc, Apply(crc, s, steps[0]), steps[1..]))
  }

  /** Where the callers of a stuck migration are. */
  lemma StuckCaller(crc: string -> int, s: State, n: nat, c: nat)
    requires InvAt(crc, s, n) && Stuck(s) && c < |s.callers|
    ensures n in s.table && s.table[n] == None
    ensures Running(s.callers[c]) ==>
              (s.callers[c].pc.Insert? || s.callers[c].pc.Check?) && s.callers[c].i in s.table
  {
    var i: nat :| i in s.table && s.table[i] == None;
    assert CallerInv(crc, s, n, s.callers[c]);
  }

  /** A stuck table stays as it is in every step, and nobody leads. */
  lemma StuckStep(crc: string -> int, s: State, n: nat, step: Step)
    requires InvAt(crc, s, n) && Stuck(s) && Enabled(s, step)
    ensures var t := Apply(crc, s, step);
            Stuck(t) && t.table == s.table && t.attempts == s.attempts && t.successes == s.successes
    ensures !Abandons(s, step)
  {
    var t := Apply(crc, s, step);
    if !step.Start? {
      StuckCaller(crc, s, n, step.caller);
      assert t.table == s.table && !Leader(t.callers[step.caller].pc);
    }
  }

  /** A step makes the migration stuck exactly if it leaves a null row to itself. */
  lemma StuckByStep(crc: string -> int, s: State, n: nat, step: Step)
    requires InvAt(crc, s, n) && !Stuck(s) && Enabled(s, step)
    ensures Stuck(Apply(crc, s, step)) <==> Abandons(s, step)
  {
    var t := Apply(crc, s, step);
    var m := StepKeepsInv(crc, s, n, step);
    if n in s.table {
      assert s.table[n] == None;
      var c: nat :| c < |s.callers| && Leader(s.callers[c].pc);
      LedStep(crc, s, n, c, step);
    } else if Abandons(s, step) {
      UnledStep(crc, s, n, step);
    } else if Stuck(t) {
      UnledStep(crc, s, n, step);
    }
  }

  /** With a leader for the null row, only this leader can leave it to itself. */
  lemma LedStep(crc: string -> int, s: State, n: nat, c: nat, step: Step)
    requires InvAt(crc, s, n) && Enabled(s, step) && c < |s.callers| && Leader(s.callers[c].pc)
    ensures Stuck(Apply(crc, s, step)) <==> Abandons(s, step)
  {
    if step.Start? || step.caller != c {
      OtherStep(crc, s, n, c, step);
    } else {
      LeaderStep(crc, s, n, c, step);
    }
  }

  lemma OtherStep(crc: string -> int, s: State, n: nat, c: nat, step: Step)
    requires InvAt(crc, s, n) && Enabled(s, step) && c < |s.callers| && Leader(s.callers[c].pc)
    requires step.Start? || step.caller != c
    ensures !Stuck(Apply(crc, s, step)) && !Abandons(s, step)
  {
    assert CallerInv(crc, s, n, s.callers[c]);
    assert Leader(Apply(crc, s, step).callers[c].pc);
    if step.Do? {
      assert CallerInv(crc, s, n, s.callers[step.caller]);
    }
  }

  lemma LeaderStep(crc: string -> int, s: State, n: nat, c: nat, step: Step)
    requires InvAt(crc, s, n) && Enabled(s, step) && c < |s.callers| && Leader(s.callers[c].pc)
    requires !step.Start? && step.caller == c
    ensures Stuck(Apply(crc, s, step)) <==> Abandons(s, step)
  {
    var t := Apply(crc, s, step);
    assert CallerInv(crc, s, n, s.callers[c]);
    assert forall d: nat :: d < |t.callers| && d != c ==> t.callers[d] == s.callers[d];
    if Abandons(s, step) {
      assert t.table[n] == None && !Leader(t.callers[c].pc);
    } else if !Leader(t.callers[c].pc) {
      assert forall i: nat :: i in t.table ==> t.table[i].Some?;
    }
  }

  /** Without a null row, only an insertion that is reported as failed can leave one behind. */
  lemma UnledStep(crc: string -> int, s: State, n: nat, step: Step)
    requires InvAt(crc, s, n) && Enabled(s, step) && n !in s.table
    ensures Stuck(Apply(crc, s, step)) <==> Abandons(s, step)
  {
    var t := Apply(crc, s, step);
    forall c: nat | c < |s.callers| ensures !Leader(s.callers[c].pc) {
      assert CallerInv(crc, s, n, s.callers[c]);
    }
    if step.Do? {
      var c := step.caller;
      assert CallerInv(crc, s, n, s.callers[c]);
      if Abandons(s, step) {
        assert t.table[s.callers[c].i] == None;
      } else if s.callers[c].pc.Insert? && step.outcome == Good {
        assert Leader(t.callers[c].pc);
      }
    }
  }

  /**
   The last database call of a leader leaves its row filled or gone, or else the migration is stuck; the
   latter exactly if that call is not applied.
   */
  lemma LeaderSettlesRow(crc: string -> int, steps: seq<Step>, c: nat, outcome: Outcome)
    requires Legal(crc, Init(), steps)
    requires var s := Run(crc, Init(), steps);
             && Enabled(s, Do(c, outcome)) && (s.callers[c].pc.Update? || s.callers[c].pc.Cleanup?)
    ensures var s := Run(crc, Init(), steps);
            var t := Apply(crc, s, Do(c, outcome));
            var i := s.callers[c].i;
            && ((i !in t.table || t.table[i].Some?) <==> outcome != PlainError)
            && (Stuck(t) <==> outcome == PlainError)
  {
    var n := Reachable(crc, steps);
    var s := Run(crc, Init(), steps);
    assert CallerInv(crc, s, n, s.callers[c]);
    LeaderStep(crc, s, n, c, Do(c, outcome));
  }

  lemma {:induction false} StuckRun(crc: string -> int, s: State, n: nat, steps: seq<Step>)
    requires InvAt(crc, s, n) && Legal(crc, s, steps)
    ensures Stuck(Run(crc, s, steps)) <==> Stuck(s) || Abandoned(crc, s, steps)
    ensures Stuck(s) ==>
              var t := Run(crc, s, steps);
              t.table == s.table && t.attempts == s.attempts && t.successes == s.successes
    decreases |steps|
  {
    if steps != [] {
      var m := StepKeepsInv(crc, s, n, steps[0]);
      if Stuck(s) {
        StuckStep(crc, s, n, steps[0]);
      } else {
        StuckByStep(crc, s, n, steps[0]);
      }
      StuckRun(crc, Apply(crc, s, steps[0]), m, steps[1..]);
    }
  }

  /**
   From the empty table, the migration is stuck if and only if a leader has crashed, the last bookkeeping
   call of a leader was not applied, or an insertion was applied and reported as failed.
   */
  lemma StuckIff(crc: string -> int, steps: seq<Step>)
    requires Legal(crc, Init(), steps)
    ensures Stuck(Run(crc, Init(), steps)) <==> Abandoned(crc, Init(), steps)
  {
    StuckRun(crc, Init(), 0, steps);
  }

  /** Once it is stuck, no call will ever execute a statement or change the table again. */
  lemma StuckForGood(crc: string -> int, steps: seq<Step>, later: seq<Step>)
    requires Legal(crc, Init(), steps)
    requires var s := Run(crc, Init(), steps); Stuck(s) && Legal(crc, s, later)
    ensures var s := Run(crc, Init(), steps);
            var t := Run(crc, s, later);
            Stuck(t) && t.table == s.table && t.attempts == s.attempts && t.successes == s.successes
  {
    var n := Reachable(crc, steps);
    StuckRun(crc, Run(crc, Init(), steps), n, later);
  }

  /** The next three calls of a leader, when nothing fails, fill its row. */
  lemma LeaderFills(crc: string -> int, s: State, n: nat, c: nat) returns (later: seq<Step>)
    requires InvAt(crc, s, n) && c < |s.callers| && Leader(s.callers[c].pc)
    ensures Legal(crc, s, later) && Run(crc, s, later).table != s.table
    decreases match s.callers[c].pc case Statement => 2 case Callback => 1 case _ => 0
  {
    var step := Do(c, Good);
    assert CallerInv(crc, s, n, s.callers[c]);
    var t := Apply(crc, s, step);
    if s.callers[c].pc.Update? || s.callers[c].pc.Cleanup? {
      later := [step];
      assert later[1..] == [] && Run(crc, s, later) == Run(crc, t, []);
    } else {
      var m := StepKeepsInv(crc, s, n, step);
      var rest := LeaderFills(crc, t, m, c);
      later := [step] + rest;
      assert later[1..] == rest && Run(crc, s, later) == Run(crc, t, rest);
    }
  }

  ghost predicate Changes(crc: string -> int, s: State, later: seq<Step>) {
    Legal(crc, s, later) && Run(crc, s, later).table != s.table
  }

  /** The table behind a null row can still change if and only if the row has a leader. */
  lemma MovesOnIff(crc: string -> int, steps: seq<Step>, i: nat)
    requires Legal(crc, Init(), steps)
    requires var s := Run(crc, Init(), steps); i in s.table && s.table[i] == None
    ensures var s := Run(crc, Init(), steps);
            (exists later: seq<Step> :: Changes(crc, s, later))
            <==> exists c: nat :: c < |s.callers| && Leader(s.callers[c].pc)
  {
    var n := Reachable(crc, steps);
    var s := Run(crc, Init(), steps);
    if c: nat :| c < |s.callers| && Leader(s.callers[c].pc) {
      var later := LeaderFills(crc, s, n, c);
      assert Changes(crc, s, later);
    } else {
      forall later: seq<Step> | Legal(crc, s, later) ensures !Changes(crc, s, later) {
        StuckRun(crc, s, n, later);
      }
    }
  }

  /**
   There is a run in which the statement succeeds, the leader returns after its update has failed, and its
   row stays null.
   */
  lemma NullRowStays(crc: string -> int, stmt: string) returns (steps: seq<Step>)
    ensures Legal(crc, Init(), steps)
    ensures var s := Run(crc, Init(), steps);
            && |s.callers| == 1 && s.callers[0].pc == Done(Some(DbError))
            && s.successes == [0] && s.table == map[0 := None] && Stuck(s)
  {
    var me := Caller([stmt], 0, Insert);
    var s1 := Apply(crc, Init(), Start([stmt]));
    assert s1 == State(map[], [me], [], []);
    var s2 := Apply(crc, s1, Do(0, Good));
    assert s2 == State(map[0 := None], [me.(pc := Statement)], [], []);
    var s3 := Apply(crc, s2, Do(0, Good));
    assert s3 == State(map[0 := None], [me.(pc := Callback)], [], [0]);
    var s4 := Apply(crc, s3, Do(0, Good));
    assert s4 == State(map[0 := None], [me.(pc := Update)], [0], [0]);
    var s5 := Apply(crc, s4, Do(0, PlainError));
    assert s5 == State(map[0 := None], [me.(pc := Done(Some(DbError)))], [0], [0]);
    assert Run(crc, s5, []) == s5 && s5.table[0] == None;
    steps := Prepend(crc, s4, Do(0, PlainError), []);
    steps := Prepend(crc, s3, Do(0, Good), steps);
    steps := Prepend(crc, s2, Do(0, Good), steps);
    steps := Prepend(crc, s1, Do(0, Good), steps);
    steps := Prepend(crc, Init(), Start([stmt]), steps);
  }

  lemma Prepend(crc: string -> int, s: State, step: Step, rest: seq<Step>) returns (steps: seq<Step>)
    requires Enabled(s, step) && Legal(crc, Apply(crc, s, step), rest)
    ensures Legal(crc, s, steps) && Run(crc, s, steps) == Run(crc, Apply(crc, s, step), rest)
  {
    steps := [step] + rest;
    assert steps[1..] == rest;
  }

  // ---------------------------------------------------------------------------------------
  // Progress when the bookkeeping works
  // ---------------------------------------------------------------------------------------

  /** No crash; insertions fail only because the row exists; updates and deletes succeed. */
  predicate Healthy(s: State, step: Step)
    requires Enabled(s, step)
  {
    match step
    case Start(_) => true
    case Crash(_) => false
    case Do(c, outcome) =>
      var me := s.callers[c];
      match me.pc
      case Insert => outcome == Good || (outcome == PlainError && me.i in s.table)
      case Update => outcome == Good
      case Cleanup => outcome == Good
      case _ => true
  }

  predicate HealthyRun(crc: string -> int, s: State, steps: seq<Step>)
    requires Legal(crc, s, steps)
    decreases |steps|
  {
    steps == [] || (Healthy(s, steps[0]) && HealthyRun(crc, Apply(crc, s, steps[0]), steps[1..]))
  }

  /** A follower reads a null checksum once more. */
  predicate Waits(s: State, step: Step)
    requires Enabled(s, step)
  {
    && step.Do? && step.outcome == Good
    && var me := s.callers[step.caller]; me.pc.Check? && me.i in s.table && s.table[me.i] == None
  }

  lemma HealthyIsNotAbandoned(s: State, step: Step)
    requires Enabled(s, step) && Healthy(s, step)
    ensures !Abandons(s, step)
  {
  }

  /** As long as a caller has not returned, a step other than waiting is possible. */
  lemma CanGoOn(crc: string -> int, s: State, n: nat, c: nat) returns (step: Step)
    requires InvAt(crc, s, n) && !Stuck(s)
    requires c < |s.callers| && Running(s.callers[c])
    ensures step.Do? && Enabled(s, step) && Healthy(s, step) && !Waits(s, step)
  {
    var me := s.callers[c];
    assert CallerInv(crc, s, n, me);
    if me.pc.Insert? && me.i in s.table {
      step := Do(c, PlainError);
    } else if me.pc.Check? && me.i in s.table && s.table[me.i] == None {
      var d: nat :| d < |s.callers| && Leader(s.callers[d].pc);
      assert CallerInv(crc, s, n, s.callers[d]);
      step := Do(d, Good);
    } else {
      step := Do(c, Good);
    }
  }

  /** What is left of a call: its remaining statements and its return. */
  function Left(me: Caller): nat {
    if Running(me) && me.i < |me.stmts| then 1 + |me.stmts| - me.i else 0
  }

  const MAX_WEIGHT: nat := 5

  /** The steps a caller can take before it advances, returns or waits for a leader. */
  function Weight(t: Table, me: Caller): (w: nat)
    ensures w <= MAX_WEIGHT
  {
    match me.pc
    case Check => if me.i in t then 0 else 5
    case Insert => 4
    case Statement => 3
    case Callback => 2
    case Update => 1
    case Cleanup => 1
    case Done(_) => 0
    case Crashed => 0
  }

  function TotalLeft(callers: seq<Caller>): nat {
    if callers == [] then 0 else Left(callers[0]) + TotalLeft(callers[1..])
  }

  function TotalWeight(t: Table, callers: seq<Caller>): nat {
    if callers == [] then 0 else Weight(t, callers[0]) + TotalWeight(t, callers[1..])
  }

  lemma {:induction false} LeftUpdate(callers: seq<Caller>, c: nat, me: Caller)
    requires c < |callers|
    ensures TotalLeft(callers[c := me]) == TotalLeft(callers) - Left(callers[c]) + Left(me)
  {
    if c == 0 {
      assert callers[c := me][1..] == callers[1..];
    } else {
      assert callers[c := me][1..] == callers[1..][c - 1 := me];
      LeftUpdate(callers[1..], c - 1, me);
    }
  }

  lemma {:induction false} WeightBound(t: Table, callers: seq<Caller>)
    ensures TotalWeight(t, callers) <= MAX_WEIGHT * |callers|
  {
    if callers == [] {
    } else {
      WeightBound(t, callers[1..]);
    }
  }

  lemma {:induction false} WeightShrinks(t: Table, callers: seq<Caller>, t': Table, callers': seq<Caller>)
    requires |callers| == |callers'|
    requires forall d: nat | d < |callers| :: Weight(t', callers'[d]) <= Weight(t, callers[d])
    ensures TotalWeight(t', callers') <= TotalWeight(t, callers)
    ensures (exists c: nat :: c < |callers| && Weight(t', callers'[c]) < Weight(t, callers[c])) ==>
              TotalWeight(t', callers') < TotalWeight(t, callers)
  {
    if callers == [] {
    } else {
      WeightShrinks(t, callers[1..], t', callers'[1..]);
      if c: nat :| c < |callers| && Weight(t', callers'[c]) < Weight(t, callers[c]) {
        if c > 0 {
          assert callers[1..][c - 1] == callers[c] && callers'[1..][c - 1] == callers'[c];
        }
      }
    }
  }

  /** The measure for a run with at most so many callers as there is room for. */
  function Measure(s: State, room: nat): nat {
    TotalLeft(s.callers) * (MAX_WEIGHT * room + 1) + TotalWeight(s.table, s.callers)
  }

  /** A healthy step that is no wait gets its caller closer to an end, or closer to advancing. */
  lemma HealthyStep(crc: string -> int, s: State, c: nat, outcome: Outcome)
    requires Enabled(s, Do(c, outcome)) && Healthy(s, Do(c, outcome)) && !Waits(s, Do(c, outcome))
    ensures var t := Apply(crc, s, Do(c, outcome));
            && t.callers == s.callers[c := t.callers[c]]
            && Left(t.callers[c]) <= Left(s.callers[c])
            && (Left(t.callers[c]) == Left(s.callers[c]) ==>
                  && s.table.Keys <= t.table.Keys
                  && Weight(t.table, t.callers[c]) < Weight(s.table, s.callers[c]))
  {
    var me := s.callers[c];
    match me.pc
    case Insert =>
    case Check =>
    case Statement =>
    case Callback =>
    case Update =>
    case Cleanup =>
  }

  lemma LexicographicDrop(a: nat, b: nat, k: nat, v: nat, w: nat)
    requires w < k && a < b
    ensures a * k + w < b * k + v
  {
    assert a * k + k == (a + 1) * k <= b * k;
  }

  /** Every healthy step that is not a wait strictly decreases the measure, a wait keeps it. */
  lemma HealthyStepDecreases(crc: string -> int, s: State, step: Step, room: nat)
    requires Enabled(s, step) && Healthy(s, step) && step.Do? && |s.callers| <= room
    ensures if Waits(s, step) then Apply(crc, s, step) == s
            else Measure(Apply(crc, s, step), room) < Measure(s, room)
  {
    if !Waits(s, step) {
      var c := step.caller;
      HealthyStep(crc, s, c, step.outcome);
      var t := Apply(crc, s, step);
      LeftUpdate(s.callers, c, t.callers[c]);
      if Left(t.callers[c]) < Left(s.callers[c]) {
        WeightBound(t.table, t.callers);
        LexicographicDrop(TotalLeft(t.callers), TotalLeft(s.callers), MAX_WEIGHT * room + 1,
                          TotalWeight(s.table, s.callers), TotalWeight(t.table, t.callers));
      } else {
        WeightShrinks(s.table, s.callers, t.table, t.callers);
      }
    }
  }

  /** The number of steps in a run that are not waits. */
  function Productive(crc: string -> int, s: State, steps: seq<Step>): nat
    requires Legal(crc, s, steps)
    decreases |steps|
  {
    if steps == [] then 0
    else (if Waits(s, steps[0]) then 0 else 1) + Productive(crc, Apply(crc, s, steps[0]), steps[1..])
  }

  /** Nothing but waiting is possible without a failure. */
  ghost predicate Quiet(s: State) {
    forall step: Step :: step.Do? && Enabled(s, step) && Healthy(s, step) ==> Waits(s, step)
  }

  lemma {:induction false} HealthyRunIsNotStuck(crc: string -> int, s: State, n: nat, steps: seq<Step>)
    returns (m: nat)
    requires InvAt(crc, s, n) && !Stuck(s)
    requires Legal(crc, s, steps) && HealthyRun(crc, s, steps)
    ensures InvAt(crc, Run(crc, s, steps), m) && !Stuck(Run(crc, s, steps))
    decreases |steps|
  {
    if steps == [] {
      m := n;
    } else {
      m := StepKeepsInv(crc, s, n, steps[0]);
      StuckByStep(crc, s, n, steps[0]);
      HealthyIsNotAbandoned(s, steps[0]);
      m := HealthyRunIsNotStuck(crc, Apply(crc, s, steps[0]), m, steps[1..]);
    }
  }

  function NewCalls(steps: seq<Step>): nat {
    if steps == [] then 0 else (if steps[0].Start? then 1 else 0) + NewCalls(steps[1..])
  }

  /** What the calls that start in a run add to the measure. */
  function NewWork(steps: seq<Step>, room: nat): nat {
    if steps == [] then 0
    else
      (if steps[0].Start? then Left(Enter(steps[0].stmts)) * (MAX_WEIGHT * room + 1) + MAX_WEIGHT else 0)
      + NewWork(steps[1..], room)
  }

  lemma {:induction false} TotalsAppend(t: Table, callers: seq<Caller>, me: Caller)
    ensures TotalLeft(callers + [me]) == TotalLeft(callers) + Left(me)
    ensures TotalWeight(t, callers + [me]) == TotalWeight(t, callers) + Weight(t, me)
  {
    if callers == [] {
      assert callers + [me] == [me];
    } else {
      assert (callers + [me])[1..] == callers[1..] + [me];
      TotalsAppend(t, callers[1..], me);
    }
  }

  lemma Distribute(a: nat, b: nat, k: nat)
    ensures (a + b) * k == a * k + b * k
  {
  }

  lemma StartAddsWork(crc: string -> int, s: State, stmts: seq<string>, room: nat)
    ensures Measure(Apply(crc, s, Start(stmts)), room) + 1
            <= Measure(s, room) + Left(Enter(stmts)) * (MAX_WEIGHT * room + 1) + MAX_WEIGHT
  {
    TotalsAppend(s.table, s.callers, Enter(stmts));
    Distribute(TotalLeft(s.callers), Left(Enter(stmts)), MAX_WEIGHT * room + 1);
  }

  /** In a healthy run the steps that are no waits are bounded by the measure and the calls that start in it. */
  lemma {:induction false} ProductiveBound(crc: string -> int, s: State, steps: seq<Step>, room: nat)
    requires Legal(crc, s, steps) && HealthyRun(crc, s, steps)
    requires |s.callers| + NewCalls(steps) <= room
    ensures Productive(crc, s, steps) + Measure(Run(crc, s, steps), room) <= Measure(s, room) + NewWork(steps, room)
    decreases |steps|
  {
    if steps != [] {
      var step := steps[0];
      if step.Start? {
        StartAddsWork(crc, s, step.stmts, room);
      } else {
        HealthyStepDecreases(crc, s, step, room);
      }
      ProductiveBound(crc, Apply(crc, s, step), steps[1..], room);
    }
  }

  /** A healthy run that nothing but waiting can extend has brought every caller to its return. */
  lemma QuietRunReturned(crc: string -> int, steps: seq<Step>, c: nat)
    requires Legal(crc, Init(), steps) && HealthyRun(crc, Init(), steps)
    requires Quiet(Run(crc, Init(), steps)) && c < |Run(crc, Init(), steps).callers|
    ensures !Running(Run(crc, Init(), steps).callers[c])
  {
    var n := HealthyRunIsNotStuck(crc, Init(), 0, steps);
    var s := Run(crc, Init(), steps);
    if Running(s.callers[c]) {
      var step := CanGoOn(crc, s, n, c);
      assert false;
    }
  }

  /** A healthy step in which no statement, callback or read fails and nobody is cancelled. */
  predicate Smooth(s: State, step: Step)
    requires Enabled(s, step)
  {
    && Healthy(s, step)
    && (step.Do? && !s.callers[step.caller].pc.Insert? ==> step.outcome == Good)
  }

  predicate SmoothRun(crc: string -> int, s: State, steps: seq<Step>)
    requires Legal(crc, s, steps)
    decreases |steps|
  {
    steps == [] || (Smooth(s, steps[0]) && SmoothRun(crc, Apply(crc, s, steps[0]), steps[1..]))
  }

  /** The statements have the checksums of the plan. */
  ghost predicate Agrees(crc: string -> int, plan: nat -> int, stmts: seq<string>) {
    forall j: nat :: j < |stmts| ==> Checksum(crc, stmts[j]) == plan(j)
  }

  /** Every call that starts in the run agrees with the plan. */
  ghost predicate Planned(crc: string -> int, plan: nat -> int, steps: seq<Step>) {
    forall k: nat :: k < |steps| && steps[k].Start? ==> Agrees(crc, plan, steps[k].stmts)
  }

  ghost predicate GoesWell(crc: string -> int, plan: nat -> int, me: Caller) {
    && Agrees(crc, plan, me.stmts)
    && !me.pc.Cleanup? && !me.pc.Crashed? && (me.pc.Done? ==> me.pc == Done(None))
  }

  ghost predicate AllGoWell(crc: string -> int, plan: nat -> int, s: State) {
    && (forall j: nat :: j in s.table && s.table[j].Some? ==> s.table[j].value == plan(j))
    && forall c: nat :: c < |s.callers| ==> GoesWell(crc, plan, s.callers[c])
  }

  lemma SmoothStep(crc: string -> int, plan: nat -> int, s: State, step: Step)
    requires AllGoWell(crc, plan, s) && Enabled(s, step) && Smooth(s, step)
    requires step.Start? ==> Agrees(crc, plan, step.stmts)
    ensures AllGoWell(crc, plan, Apply(crc, s, step))
  {
    var t := Apply(crc, s, step);
    if step.Do? {
      assert GoesWell(crc, plan, s.callers[step.caller]);
    }
    forall c: nat | c < |t.callers| ensures GoesWell(crc, plan, t.callers[c]) {
      assert c < |s.callers| ==> GoesWell(crc, plan, s.callers[c]);
    }
  }

  lemma {:induction false} SmoothRunGoesWell(crc: string -> int, plan: nat -> int, s: State, steps: seq<Step>)
    requires AllGoWell(crc, plan, s) && Legal(crc, s, steps) && SmoothRun(crc, s, steps) && Planned(crc, plan, steps)
    ensures AllGoWell(crc, plan, Run(crc, s, steps)) && HealthyRun(crc, s, steps)
    decreases |steps|
  {
    if steps != [] {
      SmoothStep(crc, plan, s, steps[0]);
      assert forall k: nat :: k < |steps[1..]| ==> steps[1..][k] == steps[k + 1];
      SmoothRunGoesWell(crc, plan, Apply(crc, s, steps[0]), steps[1..]);
    }
  }

  /**
   If nothing fails and the lists of all calls have the same checksums as far as they go, a run that only
   waiting can extend has brought every call to a nil return.
   */
  lemma SmoothRunReturnsNil(crc: string -> int, plan: nat -> int, steps: seq<Step>, c: nat)
    requires Legal(crc, Init(), steps) && SmoothRun(crc, Init(), steps) && Planned(crc, plan, steps)
    requires Quiet(Run(crc, Init(), steps)) && c < |Run(crc, Init(), steps).callers|
    ensures Run(crc, Init(), steps).callers[c].pc == Done(None)
  {
    SmoothRunGoesWell(crc, plan, Init(), steps);
    QuietRunReturned(crc, steps, c);
    assert GoesWell(crc, plan, Run(crc, Init(), steps).callers[c]);
  }

  /** Caller c is about to find out that its leader gave up. */
  predicate Orphaned(s: State, c: nat) {
    c < |s.callers| && s.callers[c].pc.Check? && s.callers[c].i !in s.table
  }

  /** How often caller c goes back to the election. */
  function Retries(crc: string -> int, s: State, steps: seq<Step>, c: nat): nat
    requires Legal(crc, s, steps)
    decreases |steps|
  {
    if steps == [] then 0
    else
      (if steps[0] == Do(c, Good) && Orphaned(s, c) then 1 else 0)
      + Retries(crc, Apply(crc, s, steps[0]), steps[1..], c)
  }

  /** How often a leader other than caller c deletes its row. */
  function GiveUps(crc: string -> int, s: State, steps: seq<Step>, c: nat): nat
    requires Legal(crc, s, steps)
    decreases |steps|
  {
    if steps == [] then 0
    else
      (if steps[0].Do? && steps[0].caller != c && s.callers[steps[0].caller].pc.Cleanup? then 1 else 0)
      + GiveUps(crc, Apply(crc, s, steps[0]), steps[1..], c)
  }

  /** A caller returns to the election at most once for every give-up of another caller. */
  lemma {:induction false} RetryBound(crc: string -> int, s: State, steps: seq<Step>, c: nat)
    requires Legal(crc, s, steps) && HealthyRun(crc, s, steps)
    ensures Retries(crc, s, steps, c) + (if Orphaned(Run(crc, s, steps), c) then 1 else 0)
            <= GiveUps(crc, s, steps, c) + (if Orphaned(s, c) then 1 else 0)
    decreases |steps|
  {
    if steps == [] {
    } else {
      RetryBound(crc, Apply(crc, s, steps[0]), steps[1..], c);
    }
  }

  // ---------------------------------------------------------------------------------------
  // Exec and run as loops over database calls
  // ---------------------------------------------------------------------------------------

  /** What the other callers do before the next call of this one, and how that call ends. */
  datatype Turn = Turn(others: seq<Step>, outcome: Outcome)

  lemma {:induction false} RunAppend(crc: string -> int, s: State, steps: seq<Step>, step: Step)
    requires Legal(crc, s, steps) && Enabled(Run(crc, s, steps), step)
    ensures Legal(crc, s, steps + [step])
    ensures Run(crc, s, steps + [step]) == Apply(crc, Run(crc, s, steps), step)
    decreases |steps|
  {
    if steps == [] {
      assert steps + [step] == [step];
    } else {
      assert (steps + [step])[1..] == steps[1..] + [step];
      RunAppend(crc, Apply(crc, s, steps[0]), steps[1..], step);
    }
  }

  /** The number of database calls of the caller. */
  function CallsOf(steps: seq<Step>, caller: nat): nat {
    if steps == [] then 0
    else
      var n := |steps| - 1;
      CallsOf(steps[..n], caller) + if steps[n].Do? && steps[n].caller == caller then 1 else 0
  }

  lemma CallsAppend(steps: seq<Step>, step: Step, caller: nat)
    ensures CallsOf(steps + [step], caller) ==
            CallsOf(steps, caller) + if step.Do? && step.caller == caller then 1 else 0
  {
    assert (steps + [step])[..|steps|] == steps;
  }

  /** Another caller takes the given step, if that is possible. */
  function TryOther(crc: string -> int, s: State, me: nat, step: Step): (t: State)
    requires me < |s.callers|
    ensures me < |t.callers| && t.callers[me] == s.callers[me]
  {
    if Enabled(s, step) && (step.Start? || step.caller != me) then Apply(crc, s, step) else s
  }

  /** The other callers take those of the given steps that are possible, in order. */
  function TakeOthers(crc: string -> int, s: State, me: nat, others: seq<Step>): (t: State)
    requires me < |s.callers|
    ensures me < |t.callers| && t.callers[me] == s.callers[me]
  {
    if others == [] then s
    else
      var n := |others| - 1;
      TryOther(crc, TakeOthers(crc, s, me, others[..n]), me, others[n])
  }

  /** Caller me is about to make a database call. */
  predicate Active(s: State, me: nat) {
    me < |s.callers| && Running(s.callers[me]) && s.callers[me].i < |s.callers[me].stmts|
  }

  /** How the call ends: as wanted if the database can do that at this moment, and otherwise with an error. */
  function Happens(s: State, me: nat, wanted: Outcome): (outcome: Outcome)
    requires Active(s, me)
    ensures CanDo(s, me, outcome)
  {
    if CanDo(s, me, wanted) then wanted else PlainError
  }

  /** One turn of the script. */
  function Turned(crc: string -> int, s: State, me: nat, turn: Turn): (t: State)
    requires Active(s, me)
    ensures me < |t.callers| && t.callers[me].stmts == s.callers[me].stmts
  {
    var now := TakeOthers(crc, s, me, turn.others);
    ApplyDo(crc, now, me, Happens(now, me, turn.outcome))
  }

  /** What the first turns of the script make of a state, until caller me has returned. */
  function Played(crc: string -> int, s: State, me: nat, script: seq<Turn>, used: nat): (t: State)
    requires me < |s.callers| && used <= |script|
    ensures me < |t.callers|
  {
    if used == 0 then s
    else
      var before := Played(crc, s, me, script, used - 1);
      if Active(before, me) then Turned(crc, before, me, script[used - 1]) else before
  }

  /** The states between the turns of a script. */
  ghost predicate Tracks(crc: string -> int, play: seq<State>, me: nat, script: seq<Turn>) {
    && |play| == |script| + 1
    && forall k: nat {:trigger script[k]} :: k < |script| ==>
         play[k + 1] == if Active(play[k], me) then Turned(crc, play[k], me, script[k]) else play[k]
  }

  lemma Plays(crc: string -> int, s: State, me: nat, script: seq<Turn>) returns (play: seq<State>)
    requires me < |s.callers|
    ensures Tracks(crc, play, me, script) && play[0] == s
    ensures forall k: nat :: k < |play| ==> play[k] == Played(crc, s, me, script, k)
  {
    play := seq(|script| + 1, k requires 0 <= k <= |script| => Played(crc, s, me, script, k));
  }

  // ---------------------------------------------------------------------------------------
  // What scripts lead to
  // ---------------------------------------------------------------------------------------

  lemma {:induction false} PlayedMore(crc: string -> int, s: State, me: nat, script: seq<Turn>, turn: Turn, k: nat)
    requires me < |s.callers| && k <= |script|
    ensures Played(crc, s, me, script + [turn], k) == Played(crc, s, me, script, k)
  {
    if k > 0 {
      PlayedMore(crc, s, me, script, turn, k - 1);
      assert (script + [turn])[k - 1] == script[k - 1];
    }
  }

  lemma {:induction false} PlayedAppend(crc: string -> int, s: State, me: nat, script: seq<Turn>, turn: Turn)
    requires me < |s.callers| && Active(Played(crc, s, me, script, |script|), me)
    ensures Played(crc, s, me, script + [turn], |script| + 1)
            == Turned(crc, Played(crc, s, me, script, |script|), me, turn)
  {
    PlayedMore(crc, s, me, script, turn, |script|);
    assert (script + [turn])[|script|] == turn;
  }

  lemma IdleTurn(crc: string -> int, play: seq<State>, me: nat, script: seq<Turn>, k: nat)
    requires Tracks(crc, play, me, script) && k < |script| && !Active(play[k], me)
    ensures play[k + 1] == play[k]
  {
    assert script[k] == script[k];
  }

  lemma {:induction false} PlayStays(crc: string -> int, play: seq<State>, me: nat, script: seq<Turn>, k: nat, m: nat)
    requires Tracks(crc, play, me, script) && k <= m <= |script| && !Active(play[k], me)
    ensures play[m] == play[k]
  {
    if k < m {
      PlayStays(crc, play, me, script, k, m - 1);
      IdleTurn(crc, play, me, script, m - 1);
    }
  }

  /** The turns after the return make no difference, so it does not matter at which of them we look. */
  lemma {:induction false} PlaySettles(crc: string -> int, play: seq<State>, me: nat, script: seq<Turn>, used: nat, end: nat)
    requires Tracks(crc, play, me, script) && used <= |script| && end <= |script| && !Active(play[end], me)
    requires used == |script| || !Active(play[used], me)
    ensures play[used] == play[end]
  {
    if end <= used {
      PlayStays(crc, play, me, script, end, used);
    } else {
      PlayStays(crc, play, me, script, used, end);
    }
  }

  lemma {:induction false} RunLast(crc: string -> int, s: State, steps: seq<Step>, step: Step)
    requires Legal(crc, s, steps + [step])
    ensures Legal(crc, s, steps) && Enabled(Run(crc, s, steps), step)
    ensures Run(crc, s, steps + [step]) == Apply(crc, Run(crc, s, steps), step)
    decreases |steps|
  {
    if steps == [] {
      assert steps + [step] == [step];
    } else {
      assert (steps + [step])[1..] == steps[1..] + [step];
      RunLast(crc, Apply(crc, s, steps[0]), steps[1..], step);
    }
  }

  lemma {:induction false} OthersAppend(crc: string -> int, s: State, me: nat, others: seq<Step>, step: Step)
    requires me < |s.callers|
    ensures TakeOthers(crc, s, me, others + [step]) == TryOther(crc, TakeOthers(crc, s, me, others), me, step)
  {
    assert (others + [step])[..|others|] == others;
  }

  /**
   Scripts leave nothing out: whatever run of the whole system happens around a call that does not crash,
   there is a script, with one turn for each of its database calls, that leads to the same state.
   */
  lemma {:induction false} EveryRunIsAScript(crc: string -> int, s: State, me: nat, steps: seq<Step>)
    returns (script: seq<Turn>, others: seq<Step>)
    requires me < |s.callers| && Legal(crc, s, steps) && Crash(me) !in steps
    ensures |script| == CallsOf(steps, me)
    ensures Run(crc, s, steps) == TakeOthers(crc, Played(crc, s, me, script, |script|), me, others)
    decreases |steps|
  {
    if steps == [] {
      script, others := [], [];
    } else {
      var n := |steps| - 1;
      var front, last := steps[..n], steps[n];
      assert steps == front + [last];
      RunLast(crc, s, front, last);
      script, others := EveryRunIsAScript(crc, s, me, front);
      if last.Do? && last.caller == me {
        PlayedAppend(crc, s, me, script, Turn(others, last.outcome));
        script, others := script + [Turn(others, last.outcome)], [];
      } else {
        OthersAppend(crc, Played(crc, s, me, script, |script|), me, others, last);
        others := others + [last];
      }
    }
  }

  /** Two turns in a row. */
  lemma {:induction false} TwoTurns(crc: string -> int, s: State, me: nat, first: Turn, second: Turn)
    requires Active(s, me) && Active(Turned(crc, s, me, first), me)
    ensures Played(crc, s, me, [first, second], 2) == Turned(crc, Turned(crc, s, me, first), me, second)
  {
    assert Played(crc, s, me, [first, second], 1) == Turned(crc, s, me, first);
  }

  /**
   If the statement or its callback fails and the row can then be deleted, the call returns the statement's
   error and the row is gone, whatever the others do in between.
   */
  lemma {:induction false} FailureIsUndone(crc: string -> int, s: State, me: nat, turn: Turn, undo: Turn)
    requires Active(s, me) && (s.callers[me].pc.Statement? || s.callers[me].pc.Callback?)
    requires turn.outcome != Good && undo.outcome == Good
    ensures var me', t := s.callers[me], Played(crc, s, me, [turn, undo], 2);
            t.callers[me] == me'.(pc := Done(Some(StmtError(me'.i)))) && me'.i !in t.table
  {
    var t := Turned(crc, s, me, turn);
    assert t.callers[me] == s.callers[me].(pc := Cleanup);
    TwoTurns(crc, s, me, turn, undo);
    assert CanDo(TakeOthers(crc, t, me, undo.others), me, Good);
  }

  /** Nobody else does anything. */
  predicate Alone(script: seq<Turn>) {
    forall k: nat :: k < |script| ==> script[k].others == []
  }

  predicate AllGood(script: seq<Turn>, n: nat) {
    n <= |script| && forall k: nat :: k < n ==> script[k].outcome == Good
  }

  /** A turn of a caller on its own, which ends as the script says, if that is possible. */
  lemma {:induction false} AloneTurn(crc: string -> int, play: seq<State>, me: nat, script: seq<Turn>, k: nat)
    requires Tracks(crc, play, me, script) && Alone(script) && k < |script| && Active(play[k], me)
    ensures play[k + 1] == ApplyDo(crc, play[k], me, Happens(play[k], me, script[k].outcome))
  {
    assert TakeOthers(crc, play[k], me, []) == play[k];
  }

  /** A good turn of a caller on its own. */
  lemma {:induction false} GoodTurn(crc: string -> int, play: seq<State>, me: nat, script: seq<Turn>, k: nat, n: nat)
    requires Tracks(crc, play, me, script) && Alone(script) && AllGood(script, n) && k < n && Active(play[k], me)
    ensures play[k + 1] == ApplyDo(crc, play[k], me, Happens(play[k], me, Good))
  {
    AloneTurn(crc, play, me, script, k);
  }

  /** The table with the checksums of the first n statements. */
  function Stored(crc: string -> int, stmts: seq<string>, n: nat): Table
    requires n <= |stmts|
  {
    map j: nat | j < n :: Some(Checksum(crc, stmts[j]))
  }

  function Below(n: nat): seq<nat> {
    seq(n, i requires 0 <= i < n => i)
  }

  /** A caller on its own after n statements. */
  function SoloState(crc: string -> int, stmts: seq<string>, n: nat): State
    requires n <= |stmts|
  {
    State(Stored(crc, stmts, n), [Caller(stmts, n, if n < |stmts| then Insert else Done(None))], Below(n), Below(n))
  }

  /** After n statements and then so many more calls, each of them good. */
  function SoloPart(crc: string -> int, stmts: seq<string>, n: nat, part: nat): State
    requires n < |stmts| && part <= 3
  {
    if part == 0 then SoloState(crc, stmts, n)
    else
      State(Stored(crc, stmts, n)[n := None],
            [Caller(stmts, n, if part == 1 then Statement else if part == 2 then Callback else Update)],
            if part == 3 then Below(n + 1) else Below(n),
            if part == 1 then Below(n) else Below(n + 1))
  }

  lemma BelowNext(n: nat)
    ensures Below(n) + [n] == Below(n + 1)
  {
  }

  lemma StoredNext(crc: string -> int, stmts: seq<string>, n: nat)
    requires n < |stmts|
    ensures Stored(crc, stmts, n)[n := None][n := Some(Checksum(crc, stmts[n]))] == Stored(crc, stmts, n + 1)
  {
  }

  lemma {:induction false} SoloStep(crc: string -> int, stmts: seq<string>, n: nat, part: nat)
    requires n < |stmts| && part <= 3
    ensures var s := SoloPart(crc, stmts, n, part);
            && Active(s, 0) && CanDo(s, 0, Good)
            && ApplyDo(crc, s, 0, Good) ==
               if part < 3 then SoloPart(crc, stmts, n, part + 1) else SoloState(crc, stmts, n + 1)
  {
    if part == 3 {
      StoredNext(crc, stmts, n);
    } else {
      BelowNext(n);
    }
  }

  lemma {:induction false} SoloTurn(crc: string -> int, stmts: seq<string>, script: seq<Turn>, play: seq<State>,
                                    n: nat, part: nat, k: nat, good: nat)
    requires Tracks(crc, play, 0, script) && Alone(script) && AllGood(script, good) && k < good
    requires n < |stmts| && part <= 3 && play[k] == SoloPart(crc, stmts, n, part)
    ensures play[k + 1] == if part < 3 then SoloPart(crc, stmts, n, part + 1) else SoloState(crc, stmts, n + 1)
  {
    SoloStep(crc, stmts, n, part);
    GoodTurn(crc, play, 0, script, k, good);
  }

  /** The calls of a caller on its own, as long as they are good: four for each statement. */
  lemma {:induction false} SoloPlay(crc: string -> int, stmts: seq<string>, script: seq<Turn>, play: seq<State>,
                                    n: nat, part: nat, good: nat)
    requires Tracks(crc, play, 0, script) && play[0] == SoloState(crc, stmts, 0)
    requires Alone(script) && AllGood(script, good) && 4 * n + part <= good
    requires n <= |stmts| && part <= 3 && (n == |stmts| ==> part == 0)
    ensures play[4 * n + part] == if n < |stmts| then SoloPart(crc, stmts, n, part) else SoloState(crc, stmts, n)
    decreases n, part
  {
    if part > 0 {
      SoloPlay(crc, stmts, script, play, n, part - 1, good);
      SoloTurn(crc, stmts, script, play, n, part - 1, 4 * n + part - 1, good);
    } else if n > 0 {
      SoloPlay(crc, stmts, script, play, n - 1, 3, good);
      SoloTurn(crc, stmts, script, play, n - 1, 3, 4 * n - 1, good);
    }
  }

  lemma {:induction false} SoloStart(crc: string -> int, stmts: seq<string>)
    ensures Apply(crc, Init(), Start(stmts)) == SoloState(crc, stmts, 0)
  {
    assert Stored(crc, stmts, 0) == map[];
  }

  /**
   On its own, on an empty table, and if nothing fails, a call that has returned, or whose script was long
   enough, has returned nil, and the table has exactly the checksums of its statements.
   */
  lemma {:induction false} GoodScriptMigrates(crc: string -> int, stmts: seq<string>, script: seq<Turn>, used: nat)
    requires Alone(script) && AllGood(script, |script|) && 4 * |stmts| <= |script| && used <= |script|
    requires var t := Played(crc, Apply(crc, Init(), Start(stmts)), 0, script, used);
             used == |script| || !Running(t.callers[0])
    ensures var t := Played(crc, Apply(crc, Init(), Start(stmts)), 0, script, used);
            && t.callers[0].pc == Done(None) && t.table == Stored(crc, stmts, |stmts|)
            && t.successes == Below(|stmts|)
  {
    var s := Apply(crc, Init(), Start(stmts));
    var play := Plays(crc, s, 0, script);
    SoloStart(crc, stmts);
    SoloPlay(crc, stmts, script, play, |stmts|, 0, |script|);
    PlaySettles(crc, play, 0, script, used, 4 * |stmts|);
  }

  /** The last two calls if statement n, or its callback, fails and the row can be deleted. */
  lemma {:induction false} SoloFailure(crc: string -> int, stmts: seq<string>, n: nat, part: nat, failure: Outcome)
    requires n < |stmts| && 1 <= part <= 2 && failure != Good
    ensures var s := SoloPart(crc, stmts, n, part);
            && Active(s, 0)
            && var t := ApplyDo(crc, s, 0, Happens(s, 0, failure));
               && Active(t, 0)
               && ApplyDo(crc, t, 0, Happens(t, 0, Good)) ==
                  State(Stored(crc, stmts, n), [Caller(stmts, n, Done(Some(StmtError(n))))], Below(n), Below(n + 1))
  {
    assert Below(n) + [n] == Below(n + 1);
    assert Stored(crc, stmts, n)[n := None] - {n} == Stored(crc, stmts, n);
  }

  /**
   The same up to statement n, whose execution or callback then fails: the call returns that statement's
   error, its row is deleted, and only the statements before it have succeeded.
   */
  lemma {:induction false} FailingScriptStops(crc: string -> int, stmts: seq<string>, script: seq<Turn>, n: nat, part: nat)
    requires 1 <= part <= 2 && n < |stmts| && Alone(script) && AllGood(script, 4 * n + part)
    requires var k := 4 * n + part; k + 1 < |script| && script[k].outcome != Good && script[k + 1].outcome == Good
    ensures Played(crc, Apply(crc, Init(), Start(stmts)), 0, script, 4 * n + part + 2) ==
            State(Stored(crc, stmts, n), [Caller(stmts, n, Done(Some(StmtError(n))))], Below(n), Below(n + 1))
  {
    var k := 4 * n + part;
    var play := Plays(crc, Apply(crc, Init(), Start(stmts)), 0, script);
    SoloStart(crc, stmts);
    SoloPlay(crc, stmts, script, play, n, part, k);
    SoloFailure(crc, stmts, n, part, script[k].outcome);
    AloneTurn(crc, play, 0, script, k);
    AloneTurn(crc, play, 0, script, k + 1);
  }

  /** A caller that has compared the first n rows. */
  function Compared(s: State, me: nat, stmts: seq<string>, n: nat, pc: Pc): State
    requires me < |s.callers|
  {
    s.(callers := s.callers[me := Caller(stmts, n, pc)])
  }

  function Next(stmts: seq<string>, n: nat): Pc {
    if n < |stmts| then Insert else Done(None)
  }

  /** The two calls for a row that is filled: the insertion fails, and the row is compared. */
  lemma {:induction false} CompareStep(crc: string -> int, s: State, me: nat, stmts: seq<string>, n: nat)
    requires me < |s.callers| && n < |stmts| && n in s.table && s.table[n].Some?
    ensures var t := Compared(s, me, stmts, n, Insert);
            Active(t, me) && ApplyDo(crc, t, me, Happens(t, me, Good)) == Compared(s, me, stmts, n, Check)
    ensures var t, sum := Compared(s, me, stmts, n, Check), Checksum(crc, stmts[n]);
            && Active(t, me)
            && ApplyDo(crc, t, me, Happens(t, me, Good)) ==
               if s.table[n] == Some(sum) then Compared(s, me, stmts, n + 1, Next(stmts, n + 1))
               else Compared(s, me, stmts, n, Done(Some(Mismatch(n, sum, s.table[n].value))))
  {
  }

  /** On its own, a caller whose rows are filled compares them one by one. */
  lemma {:induction false} RerunPlay(crc: string -> int, s: State, me: nat, stmts: seq<string>, script: seq<Turn>,
                                     play: seq<State>, n: nat, good: nat)
    requires Tracks(crc, play, me, script) && play[0] == s && me < |s.callers| && s.callers[me] == Enter(stmts)
    requires Alone(script) && AllGood(script, good) && 2 * n <= good
    requires n <= |stmts| && Matches(crc, s.table, stmts, n)
    ensures play[2 * n] == Compared(s, me, stmts, n, Next(stmts, n))
  {
    if n > 0 {
      RerunPlay(crc, s, me, stmts, script, play, n - 1, good);
      CompareStep(crc, s, me, stmts, n - 1);
      GoodTurn(crc, play, me, script, 2 * n - 2, good);
      GoodTurn(crc, play, me, script, 2 * n - 1, good);
    }
  }

  /**
   On its own, a caller whose rows are filled returns nil if they all hold its checksums, and otherwise the
   mismatch at the first row that does not, and it changes nothing else.
   */
  lemma {:induction false} RerunChecks(crc: string -> int, s: State, me: nat, stmts: seq<string>, script: seq<Turn>, n: nat)
    requires Alone(script) && AllGood(script, 2 * n + 2) && n <= |stmts|
    requires me < |s.callers| && s.callers[me] == Enter(stmts) && Matches(crc, s.table, stmts, n)
    requires n < |stmts| ==>
               n in s.table && s.table[n].Some? && s.table[n].value != Checksum(crc, stmts[n])
    ensures Played(crc, s, me, script, 2 * n + 2) ==
            s.(callers := s.callers[me := Caller(stmts, n, Done(
              if n == |stmts| then None
              else Some(Mismatch(n, Checksum(crc, stmts[n]), s.table[n].value))))])
  {
    var play := Plays(crc, s, me, script);
    RerunPlay(crc, s, me, stmts, script, play, n, 2 * n + 2);
    if n == |stmts| {
      PlayStays(crc, play, me, script, 2 * n, 2 * n + 2);
    } else {
      CompareStep(crc, s, me, stmts, n);
      GoodTurn(crc, play, me, script, 2 * n, 2 * n + 2);
      GoodTurn(crc, play, me, script, 2 * n + 1, 2 * n + 2);
    }
  }

  /** Where a database call takes its caller, by its outcome and the content of the caller's row. */
  predicate Answer(crc: string -> int, was: Caller, outcome: Outcome, row: Option<Option<int>>, now: Caller)
    requires was.i < |was.stmts|
  {
    var sum := Checksum(crc, was.stmts[was.i]);
    match was.pc
    case Insert => now == was.(pc := if outcome == Good then Statement else Check)
    case Statement => now == was.(pc := if outcome == Good then Callback else Cleanup)
    case Callback => now == was.(pc := if outcome == Good then Update else Cleanup)
    case Update => now == if outcome == Good then Advance(was) else was.(pc := Done(Some(DbError)))
    case Cleanup => now == was.(pc := Done(Some(StmtError(was.i))))
    case Check =>
      && (outcome == Cancelled ==> row == Some(None))
      && now ==
         if outcome == Cancelled then was.(pc := Done(Some(WaitCancelled(was.i))))
         else if outcome == PlainError then was.(pc := Done(Some(DbError)))
         else if row == None then was.(pc := Insert)
         else if row == Some(None) then was
         else if row.value.value == sum then Advance(was)
         else was.(pc := Done(Some(Mismatch(was.i, sum, row.value.value))))
    case _ => false
  }

  /** What reading a row leads to: waiting, another attempt, the next statement, or a return. */
  datatype Verdict = Waiting | GaveUp | Filled | Failed(err: Error)

  /**
   The shared database with all callers.  history is the run so far, from the empty table; it
   only grows, so whatever a method does is part of one run of the transition system.
   */
  class Cluster {
    const crc: string -> int
    var s: State
    ghost var history: seq<Step>

    ghost predicate Valid()
      reads this
    {
      Legal(crc, Init(), history) && s == Run(crc, Init(), history)
    }

    constructor (crc: string -> int)
      ensures Valid() && s == Init()
    {
      this.crc := crc;
      s := Init();
      history := [];
    }

    method Take(step: Step)
      requires Valid() && Enabled(s, step)
      modifies this
      ensures Valid() && s == Apply(crc, old(s), step) && history == old(history) + [step]
      ensures forall c: nat :: CallsOf(history, c) ==
                               CallsOf(old(history), c) + if step.Do? && step.caller == c then 1 else 0
    {
      forall c: nat ensures CallsOf(history + [step], c) ==
                            CallsOf(history, c) + if step.Do? && step.caller == c then 1 else 0
      {
        CallsAppend(history, step, c);
      }
      RunAppend(crc, Init(), history, step);
      s := Apply(crc, s, step);
      history := history + [step];
    }

    /** The other callers take those of the given steps that are possible. */
    method Interfere(me: nat, others: seq<Step>)
      requires Valid() && me < |s.callers|
      modifies this
      ensures Valid() && old(history) <= history
      ensures s == TakeOthers(crc, old(s), me, others)
      ensures CallsOf(history, me) == CallsOf(old(history), me)
    {
      for k := 0 to |others|
        invariant Valid() && old(history) <= history
        invariant s == TakeOthers(crc, old(s), me, others[..k])
        invariant CallsOf(history, me) == CallsOf(old(history), me)
      {
        assert others[..k + 1][..k] == others[..k];
        var step := others[k];
        if Enabled(s, step) && (step.Start? || step.caller != me) {
          Take(step);
        }
      }
      assert others[..|others|] == others;
    }

    /**
     One database call of caller me, after the others had their turn; it ends as the turn says, if that is
     possible then.  row is the row of the caller's statement at the moment of the call.
     */
    method Request(me: nat, turn: Turn) returns (outcome: Outcome, row: Option<Option<int>>)
      requires Valid() && Active(s, me)
      modifies this
      ensures Valid() && old(history) <= history && s == Turned(crc, old(s), me, turn)
      ensures var now, i := TakeOthers(crc, old(s), me, turn.others), old(s.callers[me].i);
              && outcome == Happens(now, me, turn.outcome)
              && row == if i in now.table then Some(now.table[i]) else None
      ensures CallsOf(history, me) == CallsOf(old(history), me) + 1
      ensures Answer(crc, old(s.callers[me]), outcome, row, s.callers[me])
    {
      Interfere(me, turn.others);
      var i := s.callers[me].i;
      row := if i in s.table then Some(s.table[i]) else None;
      outcome := if CanDo(s, me, turn.outcome) then turn.outcome else PlainError;
      Take(Do(me, outcome));
    }

    /** So many turns of the script were played, one for each call of caller me; play has the states. */
    ghost predicate Progress(play: seq<State>, before: seq<Step>, me: nat, script: seq<Turn>, used: nat)
      reads this
    {
      && Valid() && before <= history && me < |s.callers| && used <= |script| && Tracks(crc, play, me, script) && s == play[used]
      && CallsOf(history, me) == CallsOf(before, me) + used
    }

    /** The next turn of the script. */
    method Ask(me: nat, script: seq<Turn>, used: nat, ghost play: seq<State>, ghost before: seq<Step>)
      returns (outcome: Outcome, row: Option<Option<int>>)
      requires Progress(play, before, me, script, used) && used < |script| && Active(s, me)
      modifies this
      ensures Progress(play, before, me, script, used + 1)
      ensures Answer(crc, old(s.callers[me]), outcome, row, s.callers[me])
    {
      outcome, row := Request(me, script[used]);
    }

    /**
     The leader's part.  The result is None when the script ends first, and otherwise the error
     that run returns.
     */
    method Lead(me: nat, script: seq<Turn>, start: nat, ghost play: seq<State>, ghost before: seq<Step>)
      returns (next: nat, result: Option<Option<Error>>)
      requires Progress(play, before, me, script, start) && Active(s, me) && s.callers[me].pc.Statement?
      modifies this
      ensures start <= next <= |script| && Progress(play, before, me, script, next)
      ensures result == Some(None) ==> s.callers[me] == Advance(old(s.callers[me]))
      ensures result.Some? && result.value.Some? ==> s.callers[me] == old(s.callers[me]).(pc := Done(result.value))
      ensures result == None ==> Running(s.callers[me]) && next == |script|
    {
      next, result := start, None;
      var success := false;
      var err: Option<Error> := None;
      if next == |script| {
        return;
      }
      var outcome, row := Ask(me, script, next, play, before);
      next := next + 1;
      if outcome != Good {
        err := Some(StmtError(s.callers[me].i));
      } else {
        if next == |script| {
          return;
        }
        outcome, row := Ask(me, script, next, play, before);
        next := next + 1;
        if outcome != Good {
          err := Some(StmtError(s.callers[me].i));
        } else {
          success := true;
          if next == |script| {
            return;
          }
          outcome, row := Ask(me, script, next, play, before);
          next := next + 1;
          if outcome != Good {
            err := Some(DbError);
          }
        }
      }
      // the deferred clean-up
      if !success {
        if next == |script| {
          return;
        }
        outcome, row := Ask(me, script, next, play, before);
        next := next + 1;
      }
      result := Some(err);
    }

    /** Caller me is at the given statement and place. */
    ghost predicate Is(me: nat, stmts: seq<string>, i: nat, pc: Pc)
      reads this
    {
      me < |s.callers| && s.callers[me] == Caller(stmts, i, pc)
    }

    /** What a verdict says about the place of caller me, who checks statement i. */
    ghost predicate Follows(me: nat, stmts: seq<string>, i: nat, verdict: Verdict)
      reads this
    {
      match verdict
      case Waiting => Is(me, stmts, i, Check)
      case GaveUp => Is(me, stmts, i, Insert)
      case Filled => Is(me, stmts, i + 1, if i + 1 < |stmts| then Insert else Done(None))
      case Failed(err) => Is(me, stmts, i, Done(Some(err)))
    }

    /** Reads the row once. */
    method ReadChecksum(me: nat, stmts: seq<string>, i: nat, script: seq<Turn>, used: nat,
                        ghost play: seq<State>, ghost before: seq<Step>)
      returns (verdict: Verdict)
      requires Progress(play, before, me, script, used) && used < |script| && i < |stmts| && Is(me, stmts, i, Check)
      modifies this
      ensures Progress(play, before, me, script, used + 1) && Follows(me, stmts, i, verdict)
    {
      var outcome, row := Ask(me, script, used, play, before);
      if outcome == PlainError {
        return Failed(DbError);
      }
      if row == None {
        return GaveUp;
      }
      if row.value == None {
        return if outcome == Cancelled then Failed(WaitCancelled(i)) else Waiting;
      }
      var sum := Checksum(crc, stmts[i]);
      return if row.value.value == sum then Filled else Failed(Mismatch(i, sum, row.value.value));
    }

    /** Waits for the checksum of the leader, unless the script ends first. */
    method AwaitChecksum(me: nat, stmts: seq<string>, i: nat, script: seq<Turn>, start: nat,
                         ghost play: seq<State>, ghost before: seq<Step>)
      returns (used: nat, verdict: Verdict)
      requires Progress(play, before, me, script, start) && i < |stmts| && Is(me, stmts, i, Check)
      modifies this
      ensures start <= used && Progress(play, before, me, script, used) && Follows(me, stmts, i, verdict)
      ensures verdict == Waiting ==> used == |script|
    {
      used, verdict := start, Waiting;
      while used < |script| && verdict == Waiting
        invariant start <= used && Progress(play, before, me, script, used) && Follows(me, stmts, i, verdict)
      {
        verdict := ReadChecksum(me, stmts, i, script, used, play, before);
        used := used + 1;
      }
    }

    /** One attempt: race the insertion of the row, and then lead, or wait for the leader. */
    method Attempt(me: nat, stmts: seq<string>, i: nat, script: seq<Turn>, start: nat,
                   ghost play: seq<State>, ghost before: seq<Step>)
      returns (used: nat, verdict: Verdict)
      requires Progress(play, before, me, script, start) && i < |stmts| && Is(me, stmts, i, Insert)
      modifies this
      ensures Progress(play, before, me, script, used)
      ensures if verdict == Waiting then Running(s.callers[me]) && used == |script|
              else Follows(me, stmts, i, verdict) && start < used
    {
      used := start;
      if used == |script| {
        return used, Waiting;
      }
      var outcome, row := Ask(me, script, used, play, before);
      used := used + 1;
      if outcome == Good {
        // the election is won
        var result;
        used, result := Lead(me, script, used, play, before);
        verdict := match result
                   case None => Waiting
                   case Some(None) => Filled
                   case Some(Some(err)) => Failed(err);
      } else {
        // somebody else leads, or has led
        used, verdict := AwaitChecksum(me, stmts, i, script, used, play, before);
      }
    }

    /** The loops over the statements and the attempts. */
    method ExecAll(me: nat, stmts: seq<string>, script: seq<Turn>, ghost play: seq<State>, ghost before: seq<Step>)
      returns (used: nat, result: Option<Option<Error>>)
      requires Progress(play, before, me, script, 0)
      requires Is(me, stmts, 0, if stmts == [] then Done(None) else Insert)
      modifies this
      ensures Progress(play, before, me, script, used)
      ensures result == None ==> Running(s.callers[me]) && used == |script|
      ensures result.Some? ==> s.callers[me].pc == Done(result.value) && s.callers[me].stmts == stmts
    {
      var i := 0;
      used := 0;
      while i < |stmts|
        invariant i <= |stmts| && Progress(play, before, me, script, used)
        invariant Is(me, stmts, i, if i < |stmts| then Insert else Done(None))
      {
        var verdict := GaveUp;
        while verdict == GaveUp
          invariant Progress(play, before, me, script, used)
          invariant if verdict == Waiting then Running(s.callers[me]) && used == |script|
                    else Follows(me, stmts, i, verdict)
          decreases verdict == GaveUp, |script| - used
        {
          used, verdict := Attempt(me, stmts, i, script, used, play, before);
        }
        if verdict == Waiting {
          return used, None;
        } else if verdict.Failed? {
          return used, Some(Some(verdict.err));
        }
        i := i + 1;
      }
      result := Some(None);
    }

    /**
     Exec.  The script stands for everything outside of the call: the other callers and the way
     each database call ends.  The table and the callers become exactly what the turns that were used, one
     for each database call, make of them.  The result is None only if the call is still under way when the
     script ends.  A nil return means that every row of the list holds its checksum.
     */
    method Exec(stmts: seq<string>, script: seq<Turn>) returns (me: nat, used: nat, result: Option<Option<Error>>)
      requires Valid()
      modifies this
      ensures Valid() && old(history) + [Start(stmts)] <= history
      ensures me == old(|s.callers|) && me < |s.callers|
      ensures used <= |script| && CallsOf(history, me) == CallsOf(old(history), me) + used
      ensures s == Played(crc, Apply(crc, old(s), Start(stmts)), me, script, used)
      ensures result == None ==> Running(s.callers[me]) && used == |script|
      ensures result.Some? ==> s.callers[me].pc == Done(result.value)
      ensures result == Some(None) ==> Matches(crc, s.table, stmts, |stmts|)
    {
      me := |s.callers|;
      Take(Start(stmts));
      ghost var play := Plays(crc, s, me, script);
      used, result := ExecAll(me, stmts, script, play, history);
      if result == Some(None) {
        NilMeansStored(crc, history, me);
      }
    }
  }
}
