/**
 The log forwarder of daemonize: it copies a pipe to a log file through one buffer, and survives
 failed opens, partial and failed writes, deadlines, panics and reopened files.
 */
module Forwarder {
  import opened Sequences
  import opened Wrappers

  newtype byte = x: int | 0 <= x < 256

  const BUFFER_SIZE: nat := 4096

  datatype ReadError = NoError | DeadlineExceeded | Eof | OtherError

  /** How a read and a write end; in one round the read only happens if no chunk is pending. */
  datatype Round = Round(data: seq<byte>, err: ReadError, written: nat, failed: bool)

  /** One call of doForward: whether its deadline can be set, its file opened, and its rounds. */
  datatype Session = Session(deadlineSet: bool, fileOpened: bool, rounds: seq<Round>)

  /** After the last round the context is cancelled, and both deadlines have passed. */
  const CANCELLED: Round := Round([], DeadlineExceeded, 0, true)

  function RoundAt(rounds: seq<Round>, k: nat): Round {
    if k < |rounds| then rounds[k] else CANCELLED
  }

  /** How a round of the loop ends. */
  datatype Next = Continue | Return | Panic

  /** What one session does to the bytes: those it reads and writes, and those left pending. */
  datatype Effect = Effect(read: seq<byte>, written: seq<byte>, pending: seq<byte>, panicked: bool)

  /** The bytes a round reads, which is nothing while a chunk is pending. */
  function Fetch(chunk: seq<byte>, round: Round): seq<byte> {
    if chunk == [] then round.data[..Min(|round.data|, BUFFER_SIZE)] else []
  }

  /** The round ends the session before its write. */
  predicate Stops(chunk: seq<byte>, round: Round) {
    chunk == [] && (Fetch(chunk, round) == [] || round.err == DeadlineExceeded || round.err == OtherError)
  }

  /** It does so by a panic: on an unknown error, or after reading nothing without an error. */
  predicate StopPanics(round: Round) {
    round.err == OtherError || round.err == NoError
  }

  /** The effect of the rounds of doForward, starting with the given pending chunk. */
  function Play(chunk: seq<byte>, rounds: seq<Round>): Effect
    decreases |rounds|
  {
    var round := RoundAt(rounds, 0);
    var read := Fetch(chunk, round);
    var ready := chunk + read;
    var n := Min(round.written, |ready|);
    if Stops(chunk, round) then Effect(read, [], ready, StopPanics(round))
    else if round.failed then Effect(read, ready[..n], ready[n..], false)
    else
      var later := Play(ready[n..], rounds[1..]);
      Effect(read + later.read, ready[..n] + later.written, later.pending, later.panicked)
  }

  /** The same effect, with the bytes of the earlier rounds in front. */
  lemma PlayStep(chunk: seq<byte>, rounds: seq<Round>, k: nat, read: seq<byte>, written: seq<byte>)
    requires k <= |rounds|
    ensures var round, e := RoundAt(rounds, k), Play(chunk, rounds[k..]);
            var ready := chunk + Fetch(chunk, round);
            var n := Min(round.written, |ready|);
            if Stops(chunk, round) then
              && e.written == [] && e.pending == ready && e.panicked == StopPanics(round)
              && e.read == Fetch(chunk, round) && written + e.written == written
            else if round.failed then
              e == Effect(Fetch(chunk, round), ready[..n], ready[n..], false)
            else
              var later := Play(ready[n..], rounds[k + 1..]);
              && k < |rounds| && e.pending == later.pending && e.panicked == later.panicked
              && read + e.read == (read + Fetch(chunk, round)) + later.read
              && written + e.written == (written + ready[..n]) + later.written
  {
    var round := RoundAt(rounds, k);
    assert RoundAt(rounds[k..], 0) == round;
    if !Stops(chunk, round) && !round.failed {
      assert rounds[k..][1..] == rounds[k + 1..];
    }
  }

  /** The rounds from the k-th one on have the rest of an effect that began with read and written. */
  ghost predicate Rest(all: Effect, read: seq<byte>, written: seq<byte>, chunk: seq<byte>, rounds: seq<Round>, k: nat) {
    && k <= |rounds|
    && var later := Play(chunk, rounds[k..]);
       all == Effect(read + later.read, written + later.written, later.pending, later.panicked)
  }

  /** What the next round adds to the bytes read and written. */
  function Gain(chunk: seq<byte>, round: Round): (seq<byte>, seq<byte>) {
    var read := Fetch(chunk, round);
    var ready := chunk + read;
    (read, if Stops(chunk, round) then [] else ready[..Min(round.written, |ready|)])
  }

  lemma RestStep(all: Effect, read: seq<byte>, written: seq<byte>, chunk: seq<byte>, rounds: seq<Round>, k: nat)
    requires Rest(all, read, written, chunk, rounds, k)
    ensures var round := RoundAt(rounds, k);
            var gain := Gain(chunk, round);
            var pending := (chunk + gain.0)[|gain.1|..];
            if Stops(chunk, round) then
              all == Effect(read + gain.0, written + gain.1, pending, StopPanics(round))
            else if round.failed then all == Effect(read + gain.0, written + gain.1, pending, false)
            else k < |rounds| && Rest(all, read + gain.0, written + gain.1, pending, rounds, k + 1)
  {
    PlayStep(chunk, rounds, k, read, written);
  }

  function PlaySession(chunk: seq<byte>, session: Session): Effect {
    if !session.deadlineSet then Effect([], [], chunk, true)
    else if !session.fileOpened then Effect([], [], chunk, false)
    else Play(chunk, session.rounds)
  }

  /** A session conserves the bytes, in order, and leaves at most one buffer pending. */
  lemma {:induction false} PlayConserves(chunk: seq<byte>, rounds: seq<Round>)
    ensures var e := Play(chunk, rounds);
            && e.written + e.pending == chunk + e.read
            && (|chunk| <= 4096 ==> |e.pending| <= 4096)
    decreases |rounds|
  {
    var round := RoundAt(rounds, 0);
    var read := Fetch(chunk, round);
    var ready := chunk + read;
    var n := Min(round.written, |ready|);
    if !Stops(chunk, round) {
      assert ready == ready[..n] + ready[n..];
      if !round.failed {
        var later := Play(ready[n..], rounds[1..]);
        PlayConserves(ready[n..], rounds[1..]);
        Regroup(ready[..n], later.written, later.pending);
        Regroup(ready[..n], ready[n..], later.read);
        Regroup(chunk, read, later.read);
      }
    }
  }

  function Data(rounds: seq<Round>): seq<byte> {
    if rounds == [] then [] else rounds[0].data + Data(rounds[1..])
  }

  /** The effect of one session after the other; a panic ends only its own session. */
  function PlayAll(chunk: seq<byte>, sessions: seq<Session>): Effect
    decreases |sessions|
  {
    if sessions == [] then Effect([], [], chunk, false)
    else
      var e := PlaySession(chunk, sessions[0]);
      var later := PlayAll(e.pending, sessions[1..]);
      Effect(e.read + later.read, e.written + later.written, later.pending, false)
  }

  lemma PlayAllStep(chunk: seq<byte>, sessions: seq<Session>, k: nat, read: seq<byte>)
    requires k < |sessions|
    ensures var e := PlaySession(chunk, sessions[k]);
            var all, later := PlayAll(chunk, sessions[k..]), PlayAll(e.pending, sessions[k + 1..]);
            all.pending == later.pending && read + all.read == (read + e.read) + later.read
  {
    assert sessions[k..][1..] == sessions[k + 1..];
  }

  lemma PlaySessionConserves(chunk: seq<byte>, session: Session)
    ensures var e := PlaySession(chunk, session);
            && e.written + e.pending == chunk + e.read
            && (|chunk| <= 4096 ==> |e.pending| <= 4096)
  {
    if session.deadlineSet && session.fileOpened {
      PlayConserves(chunk, session.rounds);
    } else {
      assert [] + chunk == chunk + [];
    }
  }

  /** When nothing fails and every write is complete, a session copies exactly what it is given. */
  lemma {:induction false} GoodRoundsCopyAll(rounds: seq<Round>)
    requires forall k: nat :: k < |rounds| ==>
               && 0 < |rounds[k].data| <= 4096 && rounds[k].err == NoError
               && rounds[k].written >= |rounds[k].data| && !rounds[k].failed
    ensures Play([], rounds) == Effect(Data(rounds), Data(rounds), [], false)
  {
    if rounds == [] {
    } else {
      GoodRoundsCopyAll(rounds[1..]);
      var data := rounds[0].data;
      assert data[..|data|] == data && data[|data|..] == [] && [] + data == data;
    }
  }

  /** The session goes on after the round: it wrote without an error what was pending or what it read. */
  predicate GoesOn(chunk: seq<byte>, round: Round) {
    !round.failed && (chunk != [] || (round.data != [] && round.err in {NoError, Eof}))
  }

  /** What is left pending after a round after which the session goes on. */
  function Left(chunk: seq<byte>, round: Round): seq<byte> {
    var ready := if chunk == [] then round.data[..Min(|round.data|, 4096)] else chunk;
    ready[Min(round.written, |ready|)..]
  }

  /** What is pending at the beginning of round k, if the session gets there. */
  function PendingAt(chunk: seq<byte>, rounds: seq<Round>, k: nat): Option<seq<byte>>
    requires k <= |rounds|
    decreases k
  {
    if k == 0 then Some(chunk)
    else if !GoesOn(chunk, rounds[0]) then None
    else PendingAt(Left(chunk, rounds[0]), rounds[1..], k - 1)
  }

  /** The session reads in round k, and gets an error that it does not know, or nothing and no error. */
  predicate BadRead(chunk: seq<byte>, rounds: seq<Round>, k: nat) {
    && k < |rounds| && PendingAt(chunk, rounds, k) == Some([])
    && (rounds[k].err == OtherError || (rounds[k].err == NoError && rounds[k].data == []))
  }

  lemma BadReadLater(chunk: seq<byte>, rounds: seq<Round>, k: nat)
    requires rounds != [] && GoesOn(chunk, rounds[0])
    ensures BadRead(chunk, rounds, k + 1) <==> BadRead(Left(chunk, rounds[0]), rounds[1..], k)
  {
    assert k + 1 < |rounds| ==> rounds[1..][k] == rounds[k + 1];
  }

  lemma PlayRound(chunk: seq<byte>, rounds: seq<Round>)
    requires rounds != []
    ensures if GoesOn(chunk, rounds[0]) then
              Play(chunk, rounds).panicked == Play(Left(chunk, rounds[0]), rounds[1..]).panicked
            else Play(chunk, rounds).panicked <==> BadRead(chunk, rounds, 0)
  {
    var ready := if chunk == [] then rounds[0].data[..Min(|rounds[0].data|, 4096)] else chunk;
    assert chunk + Fetch(chunk, rounds[0]) == ready;
  }

  /** The rounds of a session panic exactly if there is such a read. */
  lemma {:induction false} PanicsIff(chunk: seq<byte>, rounds: seq<Round>)
    ensures Play(chunk, rounds).panicked <==> exists k: nat :: BadRead(chunk, rounds, k)
    decreases |rounds|
  {
    if rounds != [] {
      PlayRound(chunk, rounds);
      if GoesOn(chunk, rounds[0]) {
        var rest, later := Left(chunk, rounds[0]), rounds[1..];
        PanicsIff(rest, later);
        forall k: nat ensures BadRead(chunk, rounds, k + 1) <==> BadRead(rest, later, k) {
          BadReadLater(chunk, rounds, k);
        }
        BadReadsFrom(chunk, rounds, rest, later);
      } else {
        assert forall k: nat :: BadRead(chunk, rounds, k) ==> k == 0;
      }
    }
  }

  lemma BadReadsFrom(chunk: seq<byte>, rounds: seq<Round>, rest: seq<byte>, later: seq<Round>)
    requires rounds != [] && GoesOn(chunk, rounds[0])
    requires forall k: nat :: BadRead(chunk, rounds, k + 1) <==> BadRead(rest, later, k)
    ensures (exists k: nat :: BadRead(chunk, rounds, k)) <==> exists k: nat :: BadRead(rest, later, k)
  {
    assert !BadRead(chunk, rounds, 0);
    if k: nat :| BadRead(chunk, rounds, k) {
      assert BadRead(chunk, rounds, k - 1 + 1) && BadRead(rest, later, k - 1);
    }
    if k: nat :| BadRead(rest, later, k) {
      assert BadRead(chunk, rounds, k + 1);
    }
  }

  /** A session panics exactly if it cannot set its deadline, or opens its file and makes such a read. */
  lemma SessionPanicsIff(chunk: seq<byte>, session: Session)
    ensures PlaySession(chunk, session).panicked <==>
            !session.deadlineSet || (session.fileOpened && exists k: nat :: BadRead(chunk, session.rounds, k))
  {
    PanicsIff(chunk, session.rounds);
  }

  /** What was written over all files, in the order in which they were opened. */
  function Flatten(files: seq<seq<byte>>): seq<byte> {
    if files == [] then [] else Flatten(files[..|files| - 1]) + files[|files| - 1]
  }

  lemma FlattenOpen(files: seq<seq<byte>>)
    ensures Flatten(files + [[]]) == Flatten(files)
  {
    assert (files + [[]])[..|files|] == files;
  }

  lemma FlattenWrite(files: seq<seq<byte>>, more: seq<byte>)
    requires files != []
    ensures var n := |files| - 1; Flatten(files[n := files[n] + more]) == Flatten(files) + more
  {
    var n := |files| - 1;
    var longer := files[n := files[n] + more];
    assert longer[..n] == files[..n];
    assert Flatten(longer) == Flatten(files[..n]) + (files[n] + more);
  }

  /**
   The state that outlives the sessions.  The pending chunk is buf[lo..hi]; files holds what each
   file opened so far received, input and output are all bytes read and written so far.
   */
  class ForwardState {
    const buf: array<byte>
    var lo: nat
    var hi: nat
    var files: seq<seq<byte>>
    ghost var input: seq<byte>
    ghost var output: seq<byte>

    ghost predicate Valid()
      reads this, buf
    {
      buf.Length == BUFFER_SIZE && lo <= hi <= buf.Length && Flatten(files) == output
    }

    ghost function Chunk(): seq<byte>
      requires lo <= hi <= buf.Length
      reads this, buf
    {
      buf[lo..hi]
    }

    constructor ()
      ensures Valid() && files == [] && input == [] && output == [] && Chunk() == [] && fresh(buf)
    {
      buf := new byte[BUFFER_SIZE](_ => 0);
      lo, hi := 0, 0;
      files, input, output := [], [], [];
    }

    /** Refills the buffer; only possible when no chunk is pending. */
    method Refill(data: seq<byte>)
      requires Valid() && Chunk() == []
      modifies this`lo, this`hi, this`input, buf
      ensures Valid()
      ensures Chunk() == data[..Min(|data|, BUFFER_SIZE)] && input == old(input) + Chunk()
    {
      var n := Min(|data|, buf.Length);
      forall i | 0 <= i < n {
        buf[i] := data[i];
      }
      lo, hi := 0, n;
      input := input + data[..n];
      assert buf[..n] == data[..n];
    }

    method OpenFile()
      requires Valid()
      modifies this`files
      ensures Valid() && files == old(files) + [[]]
    {
      FlattenOpen(files);
      files := files + [[]];
    }

    /** Writes part of the chunk to the file opened last. */
    method WriteSome(n: nat)
      requires Valid() && files != [] && n <= |Chunk()|
      modifies this`lo, this`files, this`output
      ensures Valid()
      ensures Chunk() == old(Chunk())[n..] && output == old(output) + old(Chunk())[..n]
      ensures |files| == |old(files)| && files[..|files| - 1] == old(files)[..|files| - 1]
    {
      var part := buf[lo..lo + n];
      FlattenWrite(files, part);
      assert Chunk() == part + buf[lo + n..hi];
      files := files[|files| - 1 := files[|files| - 1] + part];
      output := output + part;
      lo := lo + n;
    }

    /** One round of doForward's loop. */
    method DoRound(round: Round) returns (next: Next)
      requires Valid() && files != []
      modifies this`lo, this`hi, this`files, this`input, this`output, buf
      ensures Valid()
      ensures |files| == |old(files)| && files[..|files| - 1] == old(files)[..|files| - 1]
      ensures var chunk := old(Chunk());
              var gain := Gain(chunk, round);
              && input == old(input) + gain.0 && output == old(output) + gain.1
              && Chunk() == (chunk + gain.0)[|gain.1|..]
              && next == if Stops(chunk, round) then if StopPanics(round) then Panic else Return
                         else if round.failed then Return else Continue
    {
      if lo == hi {
        Refill(round.data);
        assert [] + Chunk() == Chunk();
        if round.err == DeadlineExceeded {
          return Return;
        } else if round.err == Eof {
          if lo == hi {
            return Return; // after the context is done
          }
        } else if round.err == OtherError {
          return Panic;
        }
      } else {
        assert Chunk() + [] == Chunk() && input + [] == input;
      }
      if lo == hi {
        return Panic; // a read of nothing without an error
      }
      WriteSome(Min(round.written, hi - lo));
      return if round.failed then Return else Continue;
    }

    /** Rounds before the k-th one are done, and those from it on lead to all. */
    ghost predicate AtRound(all: Effect, closed: seq<seq<byte>>, rounds: seq<Round>, k: nat)
      reads this, buf
    {
      && Valid() && |files| == |closed| + 1 && files[..|closed|] == closed
      && Rest(all, input, output, Chunk(), rounds, k)
    }

    /** One iteration of doForward's loop. */
    method NextRound(rounds: seq<Round>, k: nat, ghost all: Effect, ghost closed: seq<seq<byte>>) returns (next: Next)
      requires AtRound(all, closed, rounds, k)
      modifies this`lo, this`hi, this`files, this`input, this`output, buf
      ensures next == Continue ==> k < |rounds| && AtRound(all, closed, rounds, k + 1)
      ensures next != Continue ==>
                && Valid() && |files| == |closed| + 1 && files[..|closed|] == closed
                && all == Effect(input, output, Chunk(), next == Panic)
    {
      RestStep(all, input, output, Chunk(), rounds, k);
      next := DoRound(RoundAt(rounds, k));
    }

    /** doForward's loop. */
    method DoRounds(rounds: seq<Round>) returns (panicked: bool)
      requires Valid() && files != []
      modifies this`lo, this`hi, this`files, this`input, this`output, buf
      ensures Valid()
      ensures |files| == |old(files)| && files[..|files| - 1] == old(files)[..|files| - 1]
      ensures var e := Play(old(Chunk()), rounds);
              && input == old(input) + e.read && output == old(output) + e.written
              && Chunk() == e.pending && panicked == e.panicked
    {
      var k := 0;
      ghost var closed, e := files[..|files| - 1], Play(Chunk(), rounds);
      ghost var all := Effect(input + e.read, output + e.written, e.pending, e.panicked);
      assert rounds[0..] == rounds;
      while true
        invariant k <= |rounds| && AtRound(all, closed, rounds, k)
        decreases |rounds| - k
      {
        var next := NextRound(rounds, k, all, closed);
        if next != Continue {
          return next == Panic;
        }
        k := k + 1;
      }
    }

    /** doForward: reads and writes until the context ends, an error occurs, or it panics. */
    method DoForward(session: Session) returns (panicked: bool)
      requires Valid()
      modifies this`lo, this`hi, this`files, this`input, this`output, buf
      ensures Valid()
      ensures var e := PlaySession(old(Chunk()), session);
              && input == old(input) + e.read && output == old(output) + e.written
              && Chunk() == e.pending && panicked == e.panicked
      ensures |files| == |old(files)| + if session.deadlineSet && session.fileOpened then 1 else 0
      ensures old(files) <= files
    {
      if !session.deadlineSet {
        return true;
      }
      if !session.fileOpened {
        return false;
      }
      OpenFile();
      panicked := DoRounds(session.rounds);
    }

    /**
     The goroutine of setupForwarderBackend: one session after the other until the parent context is
     done, and then one last attempt to write the pending chunk.  A panic in a session is recovered
     from.  Only that last attempt discards anything: the tail it could not write.
     */
    method Forward(sessions: seq<Session>, finalOpen: bool, finalWritten: nat) returns (discarded: seq<byte>)
      requires Valid() && files == [] && input == [] && Chunk() == []
      modifies this`lo, this`hi, this`files, this`input, this`output, buf
      ensures Flatten(files) + discarded == input
      ensures var e := PlayAll([], sessions);
              && input == e.read
              && |discarded| <= |e.pending| <= BUFFER_SIZE
              && discarded == e.pending[if finalOpen then Min(finalWritten, |e.pending|) else 0..]
    {
      ghost var read: seq<byte> := [];
      assert sessions[0..] == sessions;
      for k := 0 to |sessions|
        invariant Valid() && |files| <= k && input == read
        invariant output + Chunk() == input && |Chunk()| <= BUFFER_SIZE
        invariant var later, e := PlayAll(Chunk(), sessions[k..]), PlayAll([], sessions);
                  e.read == read + later.read && e.pending == later.pending
      {
        ghost var step := PlaySession(Chunk(), sessions[k]);
        PlayAllStep(Chunk(), sessions, k, read);
        PlaySessionConserves(Chunk(), sessions[k]);
        Regroup(output, step.written, step.pending);
        Regroup(output, Chunk(), step.read);
        var _ := DoForward(sessions[k]);
        read := read + step.read;
      }
      assert Chunk() == PlayAll([], sessions).pending;
      if lo == hi {
        return [];
      }
      if finalOpen {
        OpenFile();
        ghost var n := Min(finalWritten, hi - lo);
        Regroup(output, Chunk()[..n], Chunk()[n..]);
        assert Chunk()[..n] + Chunk()[n..] == Chunk();
        WriteSome(Min(finalWritten, hi - lo));
      }
      discarded := buf[lo..hi];
    }
  }
}
