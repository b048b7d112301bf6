/**
 The main loop of the daemonize supervisor, as a transition system.

 In every round of the loop a goroutine, the waiter, starts a process, waits for it and sends the result
 into a channel of that round.  The loop selects on that channel, on the channel of signals, and on
 timers.  Every step of the loop, of a waiter, of a process, of the signal handling and of the clock is
 one step of the system, and they interleave in any order.  Time is in milliseconds.
 */
module Supervisor {
  import opened Wrappers

  const MIN_INTERVAL: nat := 15000
  const MIN_SLEEP: nat := 100
  const KILL_TIMEOUT: nat := 15000
  const SIGNAL_CAPACITY: nat := 2

  datatype Signal = SigTerm | SigUsr1

  /** A process that was not started, runs, has ended, or has ended and was waited for. */
  datatype Process = NoProcess | Alive | Zombie(ok: bool) | Reaped(ok: bool)

  /** A waiter is about to start its process, waits for it, is about to send the result, or is done. */
  datatype Waiter = Starting | Waiting | Sending(ok: bool) | Finished

  /** One round of the loop; result is the content of its channel, whether there was no error. */
  datatype Round = Round(process: Process, waiter: Waiter, result: Option<bool>)

  datatype Exit = Success | Stopped | Panicked

  /** Where the loop is, and the local variables it still needs there. */
  datatype Main =
    | Head                                            // about to begin a round
    | Stamp                                           // about to read the clock
    | Wait                                            // select: result or signal
    | Report(failed: nat, sleep: nat)                 // about to set the timer of the back-off
    | Backoff(failed: nat, deadline: nat)             // select: timer or signal
    | Terminate(sig: Signal)                          // about to send SIGTERM
    | Arm(sig: Signal, sent: nat)                     // about to set the timer of the kill
    | Ending(sig: Signal, sent: nat, deadline: nat)   // select: result or timer
    | Kill(sig: Signal, sent: nat)                    // about to send SIGKILL
    | Drain(sig: Signal)                              // about to receive the result
    | Ended(exit: Exit)

  /** The reading of the clock in a round and the number of SIGUSR1 handled before it. */
  datatype Begin = Begin(time: nat, restarts: nat)

  datatype Event =
    | Started(round: nat)
    | WaitedFor(round: nat)
    | SentTerm(round: nat, time: nat)
    | SentKill(round: nat, time: nat)

  datatype State = State(
    now: nat,
    main: Main,
    rounds: seq<Round>,
    signals: seq<Signal>,
    restarts: nat,
    begins: seq<Begin>,
    log: seq<Event>)

  /** The case that a select takes; Go is for the other operations of the loop. */
  datatype Choice = Go | TakeResult | TakeSignal | TakeTimer

  datatype Step =
    | Tick(time: nat)
    | Deliver(sig: Signal)              // into the channel, or dropped if that is full
    | Start(round: nat, ok: bool)       // the waiter starts its process, or fails to
    | Exit(round: nat, ok: bool)        // the process ends, for whatever reason
    | Reap(round: nat)                  // the waiter's Wait returns
    | Send(round: nat)                  // the waiter sends the result
    | Move(choice: Choice)              // the loop

  function Init(): State {
    State(0, Head, [], [], 0, [], [])
  }

  function Max(a: int, b: int): int {
    if a > b then a else b
  }

  function Current(s: State): nat
    requires s.rounds != []
  {
    |s.rounds| - 1
  }

  /** The last reading of the clock at the beginning of a round. */
  function BeforeWait(s: State): nat {
    if s.begins == [] then 0 else s.begins[|s.begins| - 1].time
  }

  // ---------------------------------------------------------------------------------------
  // Steps
  // ---------------------------------------------------------------------------------------

  predicate CanMove(s: State, choice: Choice) {
    && (s.main.Head? || (s.rounds != [] && (s.begins != [] || s.main.Stamp?)))
    && match choice
       case Go =>
         s.main.Head? || s.main.Stamp? || s.main.Report? || s.main.Terminate? || s.main.Arm? || s.main.Kill?
       case TakeResult => (s.main.Wait? || s.main.Ending? || s.main.Drain?) && s.rounds[Current(s)].result.Some?
       case TakeSignal => (s.main.Wait? || s.main.Backoff?) && s.signals != []
       case TakeTimer => (s.main.Backoff? || s.main.Ending?) && s.now >= s.main.deadline
  }

  predicate Enabled(s: State, step: Step) {
    match step
    case Tick(_) => true
    case Deliver(_) => true
    case Start(k, _) => k < |s.rounds| && s.rounds[k].waiter.Starting?
    case Exit(k, _) => k < |s.rounds| && s.rounds[k].process.Alive?
    case Reap(k) => k < |s.rounds| && s.rounds[k].waiter.Waiting? && s.rounds[k].process.Zombie?
    case Send(k) => k < |s.rounds| && s.rounds[k].waiter.Sending? && s.rounds[k].result.None?
    case Move(choice) => CanMove(s, choice)
  }

  function Put(s: State, k: nat, r: Round): State
    requires k < |s.rounds|
  {
    s.(rounds := s.rounds[k := r])
  }

  /** After SIGUSR1 the loop begins another round, after SIGTERM it is over. */
  function Answer(s: State, sig: Signal): State {
    if sig == SigTerm then s.(main := Ended(Stopped)) else s.(main := Head, restarts := s.restarts + 1)
  }

  function TakeResultFrom(s: State): State
    requires CanMove(s, TakeResult)
  {
    var k := Current(s);
    var ok := s.rounds[k].result.value;
    var t := Put(s, k, s.rounds[k].(result := None));
    if !s.main.Wait? then Answer(t, s.main.sig)
    else if ok then t.(main := Ended(Success))
    else t.(main := Report(s.now, Max(MIN_SLEEP, MIN_INTERVAL - (s.now - BeforeWait(s)))))
  }

  /**
   Sending SIGTERM fails, and the loop panics, if the process was waited for already; without a process
   to send it to, the loop panics as well.
   */
  function SendTerm(s: State): State
    requires s.main.Terminate? && s.rounds != []
  {
    var k := Current(s);
    if s.rounds[k].process.Alive? || s.rounds[k].process.Zombie? then
      s.(main := Arm(s.main.sig, s.now), log := s.log + [SentTerm(k, s.now)])
    else s.(main := Ended(Panicked))
  }

  function ApplyMove(s: State, choice: Choice): State
    requires CanMove(s, choice)
  {
    match choice
    case TakeResult => TakeResultFrom(s)
    case TakeSignal =>
      var t := s.(signals := s.signals[1..]);
      if s.main.Wait? then t.(main := Terminate(s.signals[0])) else Answer(t, s.signals[0])
    case TakeTimer => s.(main := if s.main.Backoff? then Head else Kill(s.main.sig, s.main.sent))
    case Go =>
      match s.main
      case Head => s.(main := Stamp, rounds := s.rounds + [Round(NoProcess, Starting, None)])
      case Stamp => s.(main := Wait, begins := s.begins + [Begin(s.now, s.restarts)])
      case Report(failed, sleep) => s.(main := Backoff(failed, s.now + sleep))
      case Terminate(_) => SendTerm(s)
      case Arm(sig, sent) => s.(main := Ending(sig, sent, s.now + KILL_TIMEOUT))
      case Kill(sig, _) => s.(main := Drain(sig), log := s.log + [SentKill(Current(s), s.now)])
  }

  function Apply(s: State, step: Step): State
    requires Enabled(s, step)
  {
    match step
    case Tick(time) => s.(now := s.now + time)
    case Deliver(sig) => if |s.signals| < SIGNAL_CAPACITY then s.(signals := s.signals + [sig]) else s
    case Start(k, ok) =>
      if ok then Put(s, k, s.rounds[k].(process := Alive, waiter := Waiting)).(log := s.log + [Started(k)])
      else Put(s, k, s.rounds[k].(waiter := Sending(false)))
    case Exit(k, ok) => Put(s, k, s.rounds[k].(process := Zombie(ok)))
    case Reap(k) =>
      var ok := s.rounds[k].process.ok;
      Put(s, k, s.rounds[k].(process := Reaped(ok), waiter := Sending(ok))).(log := s.log + [WaitedFor(k)])
    case Send(k) => Put(s, k, s.rounds[k].(waiter := Finished, result := Some(s.rounds[k].waiter.ok)))
    case Move(choice) => ApplyMove(s, choice)
  }

  predicate Legal(s: State, steps: seq<Step>)
    decreases |steps|
  {
    steps == [] || (Enabled(s, steps[0]) && Legal(Apply(s, steps[0]), steps[1..]))
  }

  function Run(s: State, steps: seq<Step>): State
    requires Legal(s, steps)
    decreases |steps|
  {
    if steps == [] then s else Run(Apply(s, steps[0]), steps[1..])
  }

  // ---------------------------------------------------------------------------------------
  // The handshake between the loop and its waiters
  // ---------------------------------------------------------------------------------------

  predicate Unreaped(r: Round) {
    r.process.Alive? || r.process.Zombie?
  }

  /** Process, waiter and channel of a round fit together. */
  predicate Consistent(r: Round) {
    match r.waiter
    case Starting => r.process.NoProcess? && r.result.None?
    case Waiting => Unreaped(r) && r.result.None?
    case Sending(ok) => Delivers(r.process, ok) && r.result.None?
    case Finished => !Unreaped(r) && (r.result.Some? ==> Delivers(r.process, r.result.value))
  }

  /** The result that belongs to a process that was waited for or could not be started. */
  predicate Delivers(p: Process, ok: bool) {
    p == Reaped(ok) || (p.NoProcess? && !ok)
  }

  /** The result was received, so the waiter is done and the process is gone, or never was. */
  predicate Settled(r: Round) {
    r.waiter.Finished? && r.result.None? && !Unreaped(r)
  }

  /** The loop has received the result of the current round. */
  predicate HasResult(main: Main) {
    main.Head? || main.Report? || main.Backoff? || (main.Ended? && !main.exit.Panicked?)
  }

  /** The loop has sent SIGTERM to the process of the current round. */
  predicate HasSentTerm(main: Main) {
    main.Arm? || main.Ending? || main.Kill? || main.Drain?
  }

  predicate RoundInv(main: Main, r: Round, current: bool) {
    && Consistent(r)
    && (!current || HasResult(main) ==> Settled(r))
    && (current && !HasResult(main) ==> !Settled(r))
    && (current && HasSentTerm(main) ==> !r.process.NoProcess?)
  }

  ghost predicate Handshake(s: State) {
    && (s.rounds == [] ==> s.main.Head?)
    && |s.rounds| == |s.begins| + (if s.main.Stamp? then 1 else 0)
    && forall k: nat :: k < |s.rounds| ==> RoundInv(s.main, s.rounds[k], k == |s.rounds| - 1)
  }

  lemma StepKeepsHandshake(s: State, step: Step)
    requires Handshake(s) && Enabled(s, step)
    ensures Handshake(Apply(s, step))
  {
    var t := Apply(s, step);
    forall k: nat | k < |t.rounds| ensures RoundInv(t.main, t.rounds[k], k == |t.rounds| - 1) {
      assert k < |s.rounds| ==> RoundInv(s.main, s.rounds[k], k == |s.rounds| - 1);
    }
  }

  lemma {:induction false} RunKeepsHandshake(s: State, steps: seq<Step>)
    requires Handshake(s) && Legal(s, steps)
    ensures Handshake(Run(s, steps))
    decreases |steps|
  {
    if steps != [] {
      StepKeepsHandshake(s, steps[0]);
      RunKeepsHandshake(Apply(s, steps[0]), steps[1..]);
    }
  }

  lemma Reachable(steps: seq<Step>)
    requires Legal(Init(), steps)
    ensures Handshake(Run(Init(), steps)) && Timing(Run(Init(), steps)) && Logged(Run(Init(), steps))
  {
    RunKeepsHandshake(Init(), steps);
    RunKeepsHistory(Init(), steps);
  }

  /**
   The loop begins a round only when the process of every earlier round was waited for, or could not be
   started, and no waiter is left; and the loop does not end normally before that either.
   */
  lemma HeadIsClean(steps: seq<Step>)
    requires Legal(Init(), steps)
    ensures var s := Run(Init(), steps);
            s.main.Head? || s.main == Ended(Success) || s.main == Ended(Stopped) ==>
              forall k: nat :: k < |s.rounds| ==> Settled(s.rounds[k])
  {
    RunKeepsHandshake(Init(), steps);
    var s := Run(Init(), steps);
    forall k: nat | k < |s.rounds| ensures HasResult(s.main) ==> Settled(s.rounds[k]) {
      assert RoundInv(s.main, s.rounds[k], k == |s.rounds| - 1);
    }
  }

  /** In every reachable state, at most one process is not waited for, that of the current round. */
  lemma OneChild(steps: seq<Step>, k: nat)
    requires Legal(Init(), steps)
    requires var s := Run(Init(), steps); k < |s.rounds| && Unreaped(s.rounds[k])
    ensures k == Current(Run(Init(), steps)) && !HasResult(Run(Init(), steps).main)
  {
    RunKeepsHandshake(Init(), steps);
    var s := Run(Init(), steps);
    assert RoundInv(s.main, s.rounds[k], k == |s.rounds| - 1);
  }

  // ---------------------------------------------------------------------------------------
  // Time
  // ---------------------------------------------------------------------------------------

  /** Two rounds are MIN_INTERVAL apart for every restart that no SIGUSR1 asked for. */
  ghost predicate Spaced(begins: seq<Begin>) {
    forall i: nat, j: nat :: i <= j < |begins| ==>
      begins[j].time - begins[i].time >= MIN_INTERVAL * (j - i - (begins[j].restarts - begins[i].restarts))
  }

  /** The next round may begin: enough time has passed since the last one, or SIGUSR1 came. */
  predicate MayBegin(s: State, last: Begin) {
    s.now - last.time >= MIN_INTERVAL * (1 - (s.restarts - last.restarts))
  }

  /** What the position of the loop says about the time since the last round began. */
  predicate SinceBegin(s: State, last: Begin) {
    && last.time <= s.now
    && last.restarts <= s.restarts
    && if s.main.Head? || s.main.Stamp? then MayBegin(s, last)
       else
         && s.restarts == last.restarts
         && (s.main.Report? ==>
               last.time <= s.main.failed <= s.now
               && s.main.sleep == Max(MIN_SLEEP, MIN_INTERVAL - (s.main.failed - last.time)))
         && (s.main.Backoff? ==>
               s.main.failed <= s.now && s.main.deadline >= s.main.failed + MIN_SLEEP
               && s.main.deadline >= last.time + MIN_INTERVAL)
  }

  ghost predicate Timing(s: State) {
    Spaced(s.begins) && (s.begins != [] ==> SinceBegin(s, s.begins[|s.begins| - 1]))
  }

  lemma SpacedMore(begins: seq<Begin>, next: Begin)
    requires Spaced(begins)
    requires begins != [] ==>
               var last := begins[|begins| - 1];
               next.time - last.time >= MIN_INTERVAL * (1 - (next.restarts - last.restarts))
    ensures Spaced(begins + [next])
  {
    var more := begins + [next];
    forall i: nat, j: nat | i <= j < |more|
      ensures more[j].time - more[i].time >= MIN_INTERVAL * (j - i - (more[j].restarts - more[i].restarts))
    {
      if i < j == |begins| {
        var n := |begins| - 1;
        assert begins[n].time - begins[i].time >= MIN_INTERVAL * (n - i - (begins[n].restarts - begins[i].restarts));
      }
    }
  }

  lemma StepKeepsSinceBegin(s: State, step: Step, last: Begin)
    requires SinceBegin(s, last) && Enabled(s, step) && s.begins != [] && last == s.begins[|s.begins| - 1]
    requires step == Move(Go) ==> !s.main.Stamp?
    ensures SinceBegin(Apply(s, step), last) && Apply(s, step).begins == s.begins
  {
  }

  lemma StepKeepsTiming(s: State, step: Step)
    requires Handshake(s) && Timing(s) && Enabled(s, step)
    ensures Timing(Apply(s, step))
  {
    if step == Move(Go) && s.main.Stamp? {
      SpacedMore(s.begins, Begin(s.now, s.restarts));
    } else if s.begins != [] {
      StepKeepsSinceBegin(s, step, s.begins[|s.begins| - 1]);
    }
  }

  /**
   In any window of time the number of rounds is at most one more than the number of whole intervals
   that fit in, plus the number of SIGUSR1 handled in between.
   */
  lemma StartRate(steps: seq<Step>, i: nat, j: nat, window: nat)
    requires Legal(Init(), steps)
    requires var begins := Run(Init(), steps).begins;
             i <= j < |begins| && begins[j].time - begins[i].time <= window
    ensures var begins := Run(Init(), steps).begins;
            j - i + 1 <= 1 + window / 15000 + (begins[j].restarts - begins[i].restarts)
  {
    Reachable(steps);
    var begins := Run(Init(), steps).begins;
    assert MIN_INTERVAL * (j - i - (begins[j].restarts - begins[i].restarts)) <= window;
  }

  /** Without a signal the back-off lasts until an interval has passed, and at least a short while. */
  lemma BackoffRests(steps: seq<Step>)
    requires Legal(Init(), steps) && Enabled(Run(Init(), steps), Move(TakeTimer))
    requires Run(Init(), steps).main.Backoff?
    ensures var s := Run(Init(), steps);
            s.begins != [] && s.now >= s.main.failed + 100
            && s.now >= s.begins[|s.begins| - 1].time + 15000
  {
    Reachable(steps);
  }

  /**
   After a failure the loop backs off for exactly the rest of the interval, but not less than the minimum,
   and then begins another round.
   */
  lemma FailureBacksOff(steps: seq<Step>, wait: nat)
    requires Legal(Init(), steps)
    requires var s := Run(Init(), steps);
             s.main.Wait? && s.rounds != [] && s.rounds[Current(s)].result == Some(false) && s.begins != []
    ensures var s := Run(Init(), steps);
            && Enabled(s, Move(TakeResult)) && Enabled(Apply(s, Move(TakeResult)), Move(Go))
            && var t := Apply(Apply(Apply(s, Move(TakeResult)), Move(Go)), Tick(wait));
               && t.main.Backoff?
               && (Enabled(t, Move(TakeTimer)) <==>
                     wait >= 100 && wait >= 15000 - (s.now - s.begins[|s.begins| - 1].time))
               && (Enabled(t, Move(TakeTimer)) ==> Apply(t, Move(TakeTimer)).main == Head)
  {
    Reachable(steps);
  }

  /** After SIGTERM the process has exactly the timeout before the timer can fire. */
  lemma TimeoutIsExact(steps: seq<Step>, wait: nat)
    requires Legal(Init(), steps) && Run(Init(), steps).main.Arm?
    ensures var s := Run(Init(), steps);
            && Enabled(s, Move(Go))
            && var t := Apply(Apply(s, Move(Go)), Tick(wait));
               t.main.Ending? && (Enabled(t, Move(TakeTimer)) <==> wait >= 15000)
  {
    Reachable(steps);
  }

  // ---------------------------------------------------------------------------------------
  // Why the loop ends
  // ---------------------------------------------------------------------------------------

  /** How often the signal was delivered. */
  function Delivered(steps: seq<Step>, sig: Signal): nat {
    if steps == [] then 0
    else
      var n := |steps| - 1;
      Delivered(steps[..n], sig) + if steps[n] == Deliver(sig) then 1 else 0
  }

  function Count(signals: seq<Signal>, sig: Signal): nat {
    if signals == [] then 0 else (if signals[0] == sig then 1 else 0) + Count(signals[1..], sig)
  }

  lemma {:induction false} CountAppend(signals: seq<Signal>, next: Signal, sig: Signal)
    ensures Count(signals + [next], sig) == Count(signals, sig) + if next == sig then 1 else 0
  {
    if signals == [] {
      assert signals + [next] == [next];
    } else {
      assert (signals + [next])[1..] == signals[1..] + [next];
      CountAppend(signals[1..], next, sig);
    }
  }

  /** The signal that the loop has taken and not answered yet. */
  predicate Carries(main: Main, sig: Signal) {
    match main
    case Terminate(taken) => taken == sig
    case Arm(taken, _) => taken == sig
    case Ending(taken, _, _) => taken == sig
    case Kill(taken, _) => taken == sig
    case Drain(taken) => taken == sig
    case _ => false
  }

  /** The signals that wait in the channel, or with the loop, or were answered. */
  function Known(s: State, sig: Signal): nat {
    Count(s.signals, sig) + (if Carries(s.main, sig) then 1 else 0)
    + if sig == SigUsr1 then s.restarts else if s.main == Ended(Stopped) then 1 else 0
  }

  ghost predicate Accounted(s: State, steps: seq<Step>) {
    && |s.signals| <= 2
    && Known(s, SigUsr1) <= Delivered(steps, SigUsr1) && Known(s, SigTerm) <= Delivered(steps, SigTerm)
    && Known(s, SigUsr1) + Known(s, SigTerm) + (if s.main == Ended(Panicked) then 1 else 0)
       <= Delivered(steps, SigUsr1) + Delivered(steps, SigTerm)
  }

  predicate Succeeded(s: State) {
    s.main == Ended(Success) ==> s.rounds != [] && s.rounds[Current(s)].process == Reaped(true)
  }

  lemma StepKeepsSucceeded(s: State, step: Step)
    requires Handshake(s) && Succeeded(s) && Enabled(s, step)
    ensures Succeeded(Apply(s, step))
  {
    if step == Move(TakeResult) {
      assert RoundInv(s.main, s.rounds[Current(s)], true);
    }
  }

  lemma MoveKeepsKnown(s: State, choice: Choice, sig: Signal)
    requires CanMove(s, choice)
    ensures var t := ApplyMove(s, choice);
            && |t.signals| <= |s.signals|
            && (if t.main == Ended(Panicked) then Known(t, sig) <= Known(s, sig) else Known(t, sig) == Known(s, sig))
            && (t.main == Ended(Panicked) ==>
                  Known(t, SigUsr1) + Known(t, SigTerm) + 1 == Known(s, SigUsr1) + Known(s, SigTerm))
  {
  }

  lemma StepKeepsAccounted(s: State, steps: seq<Step>, step: Step)
    requires Accounted(s, steps) && Enabled(s, step)
    ensures Accounted(Apply(s, step), steps + [step])
  {
    assert (steps + [step])[..|steps|] == steps;
    if step.Deliver? {
      CountAppend(s.signals, step.sig, SigUsr1);
      CountAppend(s.signals, step.sig, SigTerm);
    } else if step.Move? {
      MoveKeepsKnown(s, step.choice, SigUsr1);
      MoveKeepsKnown(s, step.choice, SigTerm);
    }
  }

  lemma {:induction false} RunIsAccounted(steps: seq<Step>)
    requires Legal(Init(), steps)
    ensures Accounted(Run(Init(), steps), steps) && Succeeded(Run(Init(), steps))
    decreases |steps|
  {
    if steps != [] {
      var n := |steps| - 1;
      var front, last := steps[..n], steps[n];
      assert steps == front + [last];
      RunLast(Init(), front, last);
      RunIsAccounted(front);
      RunKeepsHandshake(Init(), front);
      StepKeepsAccounted(Run(Init(), front), front, last);
      StepKeepsSucceeded(Run(Init(), front), last);
    }
  }

  /**
   The loop ends with success only if the last process did, stops only for a SIGTERM, and panics only for a
   signal; and it answers no more SIGUSR1 than there were, each with one round.
   */
  lemma EndsFor(steps: seq<Step>)
    requires Legal(Init(), steps)
    ensures var s := Run(Init(), steps);
            && (s.main == Ended(Success) ==> s.rounds != [] && s.rounds[|s.rounds| - 1].process == Reaped(true))
            && (s.main == Ended(Stopped) ==> Delivered(steps, SigTerm) > 0)
            && (s.main == Ended(Panicked) ==> Delivered(steps, SigTerm) + Delivered(steps, SigUsr1) > s.restarts)
            && s.restarts <= Delivered(steps, SigUsr1)
  {
    RunIsAccounted(steps);
  }

  /** A signal waits behind the earlier ones, unless two of them wait already; then it is dropped. */
  lemma SignalsQueue(steps: seq<Step>, sig: Signal)
    requires Legal(Init(), steps)
    ensures var waiting := Run(Init(), steps).signals;
            && |waiting| <= 2
            && Legal(Init(), steps + [Deliver(sig)])
            && Run(Init(), steps + [Deliver(sig)]).signals == if |waiting| < 2 then waiting + [sig] else waiting
  {
    RunIsAccounted(steps);
    RunAppend(Init(), steps, Deliver(sig));
  }

  // ---------------------------------------------------------------------------------------
  // The history of starts, waits and signals
  // ---------------------------------------------------------------------------------------

  /** SIGTERM was sent to the process of the round, at least KILL_TIMEOUT before the given time. */
  ghost predicate AskedBefore(log: seq<Event>, round: nat, time: nat) {
    exists t: nat :: SentTerm(round, t) in log && t + KILL_TIMEOUT <= time
  }

  /** What the position of the loop says about the SIGTERM that it has sent. */
  predicate SinceTerm(s: State) {
    match s.main
    case Arm(_, sent) => s.rounds != [] && sent <= s.now && SentTerm(Current(s), sent) in s.log
    case Ending(_, sent, deadline) =>
      s.rounds != [] && sent + KILL_TIMEOUT <= deadline && SentTerm(Current(s), sent) in s.log
    case Kill(_, sent) => s.rounds != [] && sent + KILL_TIMEOUT <= s.now && SentTerm(Current(s), sent) in s.log
    case _ => true
  }

  /** The log says which processes were started and which were waited for. */
  ghost predicate Recorded(s: State) {
    forall k: nat :: RecordedRound(s, k)
  }

  ghost predicate Logged(s: State) {
    && SinceTerm(s) && Recorded(s)
    && (forall e :: e in s.log && e.SentKill? ==> AskedBefore(s.log, e.round, e.time))
  }

  lemma StepKeepsSinceTerm(s: State, step: Step)
    requires Handshake(s) && SinceTerm(s) && Enabled(s, step)
    ensures SinceTerm(Apply(s, step))
  {
    assert forall e :: e in s.log ==> e in Apply(s, step).log;
  }

  lemma StepKeepsKillsLate(s: State, step: Step)
    requires Logged(s) && Enabled(s, step)
    ensures forall e :: e in Apply(s, step).log && e.SentKill? ==> AskedBefore(Apply(s, step).log, e.round, e.time)
  {
    var t := Apply(s, step);
    assert forall e :: e in s.log ==> e in t.log;
    forall e | e in t.log && e.SentKill? ensures AskedBefore(t.log, e.round, e.time) {
      if e in s.log {
        var time: nat :| SentTerm(e.round, time) in s.log && time + KILL_TIMEOUT <= e.time;
        assert SentTerm(e.round, time) in t.log;
      } else {
        assert SentTerm(e.round, s.main.sent) in t.log;
      }
    }
  }

  lemma StepKeepsLogged(s: State, step: Step)
    requires Handshake(s) && Logged(s) && Enabled(s, step)
    ensures Logged(Apply(s, step))
  {
    StepKeepsSinceTerm(s, step);
    StepKeepsKillsLate(s, step);
    StepKeepsRecords(s, step);
  }

  /** What the log should say about a round. */
  ghost predicate RecordedRound(s: State, k: nat) {
    && (Started(k) in s.log <==> k < |s.rounds| && !s.rounds[k].process.NoProcess?)
    && (WaitedFor(k) in s.log <==> k < |s.rounds| && s.rounds[k].process.Reaped?)
  }

  lemma StepKeepsRecord(s: State, step: Step, k: nat)
    requires Handshake(s) && Enabled(s, step) && RecordedRound(s, k)
    ensures RecordedRound(Apply(s, step), k)
  {
    if step.Start? || step.Reap? {
      assert RoundInv(s.main, s.rounds[step.round], step.round == |s.rounds| - 1);
    }
  }

  lemma StepKeepsRecords(s: State, step: Step)
    requires Handshake(s) && Logged(s) && Enabled(s, step)
    ensures Recorded(Apply(s, step))
  {
    forall k: nat ensures RecordedRound(Apply(s, step), k) {
      StepKeepsRecord(s, step, k);
    }
  }

  lemma {:induction false} RunKeepsHistory(s: State, steps: seq<Step>)
    requires Handshake(s) && Timing(s) && Logged(s) && Legal(s, steps)
    ensures Timing(Run(s, steps)) && Logged(Run(s, steps))
    decreases |steps|
  {
    if steps != [] {
      StepKeepsHandshake(s, steps[0]);
      StepKeepsTiming(s, steps[0]);
      StepKeepsLogged(s, steps[0]);
      RunKeepsHistory(Apply(s, steps[0]), steps[1..]);
    }
  }

  /** No process is sent SIGKILL before it was sent SIGTERM and had KILL_TIMEOUT to end. */
  lemma NoEarlyKill(steps: seq<Step>, e: Event)
    requires Legal(Init(), steps)
    requires e in Run(Init(), steps).log && e.SentKill?
    ensures exists t: nat :: SentTerm(e.round, t) in Run(Init(), steps).log && t + 15000 <= e.time
  {
    Reachable(steps);
    assert AskedBefore(Run(Init(), steps).log, e.round, e.time);
  }

  // ---------------------------------------------------------------------------------------
  // A SIGKILL after the process is gone
  // ---------------------------------------------------------------------------------------

  /** SIGKILL was sent to the process of the round after the waiter had waited for it. */
  ghost predicate Late(log: seq<Event>, round: nat) {
    exists i: nat, j: nat ::
      i < j < |log| && log[i] == WaitedFor(round) && log[j].SentKill? && log[j].round == round
  }

  ghost predicate LateAfter(s: State, more: seq<Step>, round: nat) {
    Legal(s, more) && Late(Run(s, more).log, round)
  }

  /** The loop can still send SIGKILL to the process of the round after it was waited for. */
  predicate CanBeLate(s: State, round: nat) {
    && round + 1 == |s.rounds|
    && if s.main.Stamp? || s.main.Wait? || s.main.Terminate? then
         s.rounds[round].waiter.Starting? || Unreaped(s.rounds[round])
       else s.main.Arm? || s.main.Ending? || s.main.Kill?
  }

  /** A step towards a late SIGKILL. */
  function Towards(s: State, round: nat): Step
    requires CanBeLate(s, round)
  {
    var r := s.rounds[round];
    match s.main
    case Kill(_, _) => if r.process.Alive? then Exit(round, false) else if r.process.Zombie? then Reap(round) else Move(Go)
    case Ending(_, _, deadline) => if s.now < deadline then Tick(deadline - s.now) else Move(TakeTimer)
    case Wait =>
      if r.waiter.Starting? then Start(round, true)
      else if s.signals == [] then Deliver(SigTerm)
      else Move(TakeSignal)
    case Terminate(_) => if r.waiter.Starting? then Start(round, true) else Move(Go)
    case _ => Move(Go)
  }

  /** The number of steps to a late SIGKILL. */
  function Distance(s: State, round: nat): nat
    requires CanBeLate(s, round)
  {
    var r := s.rounds[round];
    (if r.waiter.Starting? then 1 else 0) + (if r.process.Reaped? then 0 else if r.process.Zombie? then 1 else 2)
    + match s.main
      case Stamp => 9
      case Wait => if s.signals == [] then 8 else 7
      case Terminate(_) => 6
      case Arm(_, _) => 5
      case Ending(_, _, deadline) => if s.now < deadline then 4 else 3
      case _ => 2
  }

  lemma TowardsLate(s: State, round: nat)
    requires Handshake(s) && Logged(s) && CanBeLate(s, round)
    ensures Enabled(s, Towards(s, round))
    ensures var t := Apply(s, Towards(s, round));
            && (Late(t.log, round) || (CanBeLate(t, round) && Distance(t, round) < Distance(s, round)))
            && round < |t.rounds| && t.rounds[round].result == s.rounds[round].result
  {
    var r := s.rounds[round];
    assert RoundInv(s.main, r, true);
    if s.main.Kill? && r.process.Reaped? {
      assert RecordedRound(s, round);
      var i: nat :| i < |s.log| && s.log[i] == WaitedFor(round);
      var log := s.log + [SentKill(round, s.now)];
      assert log[i] == WaitedFor(round) && log[|s.log|].SentKill?;
    }
  }

  lemma {:induction false} LateKillFrom(s: State, round: nat) returns (more: seq<Step>)
    requires Handshake(s) && Logged(s) && CanBeLate(s, round)
    ensures Legal(s, more) && Late(Run(s, more).log, round) && round < |Run(s, more).rounds|
    ensures s.rounds[round].result.None? ==> Run(s, more).rounds[round].result.None?
    decreases Distance(s, round)
  {
    TowardsLate(s, round);
    var step := Towards(s, round);
    var t := Apply(s, step);
    if Late(t.log, round) {
      more := [step];
      assert more[1..] == [] && Run(s, more) == Run(t, []);
    } else {
      StepKeepsHandshake(s, step);
      StepKeepsLogged(s, step);
      var rest := LateKillFrom(t, round);
      more := [step] + rest;
      assert more[1..] == rest && Run(s, more) == Run(t, rest);
    }
  }

  lemma LateMore(log: seq<Event>, e: Event, round: nat)
    requires Late(log + [e], round)
    ensures Late(log, round) || (e.SentKill? && e.round == round)
  {
    var more := log + [e];
    var i: nat, j: nat :| i < j < |more| && more[i] == WaitedFor(round) && more[j].SentKill? && more[j].round == round;
    if j < |log| {
      assert log[i] == WaitedFor(round) && log[j] == more[j];
    }
  }

  lemma StepStaysInTime(s: State, step: Step, round: nat)
    requires Handshake(s) && Enabled(s, step) && round < |s.rounds|
    requires !Late(s.log, round) && !CanBeLate(s, round)
    ensures !Late(Apply(s, step).log, round) && !CanBeLate(Apply(s, step), round)
  {
    var t := Apply(s, step);
    assert RoundInv(s.main, s.rounds[round], round == |s.rounds| - 1);
    if t.log != s.log && Late(t.log, round) {
      assert t.log == s.log + [t.log[|s.log|]];
      LateMore(s.log, t.log[|s.log|], round);
    }
  }

  lemma {:induction false} RunStaysInTime(s: State, steps: seq<Step>, round: nat)
    requires Handshake(s) && Legal(s, steps) && round < |s.rounds|
    requires !Late(s.log, round) && !CanBeLate(s, round)
    ensures !Late(Run(s, steps).log, round)
    decreases |steps|
  {
    if steps != [] {
      StepKeepsHandshake(s, steps[0]);
      StepStaysInTime(s, steps[0], round);
      RunStaysInTime(Apply(s, steps[0]), steps[1..], round);
    }
  }

  /**
   From a reachable state, SIGKILL can be sent to the process of a round after it was waited for if and
   only if that has happened already, or it is the current round and SIGTERM was just sent, or can still
   be sent.
   */
  lemma LateKillIff(steps: seq<Step>, round: nat)
    requires Legal(Init(), steps) && round < |Run(Init(), steps).rounds|
    ensures var s := Run(Init(), steps);
            (exists more: seq<Step> :: LateAfter(s, more, round))
            <==> Late(s.log, round) || CanBeLate(s, round)
  {
    Reachable(steps);
    var s := Run(Init(), steps);
    if Late(s.log, round) {
      assert LateAfter(s, [], round);
    } else if CanBeLate(s, round) {
      var more := LateKillFrom(s, round);
      assert LateAfter(s, more, round);
    } else {
      forall more: seq<Step> | Legal(s, more) ensures !LateAfter(s, more, round) {
        RunStaysInTime(s, more, round);
      }
    }
  }

  /** There is a run with such a late SIGKILL, in the first round, while its channel is still empty. */
  lemma LateKillHappens() returns (steps: seq<Step>)
    ensures Legal(Init(), steps)
    ensures var s := Run(Init(), steps); Late(s.log, 0) && s.rounds != [] && s.rounds[0].result.None?
  {
    var first := Move(Go);
    StepKeepsHandshake(Init(), first);
    StepKeepsLogged(Init(), first);
    var rest := LateKillFrom(Apply(Init(), first), 0);
    steps := [first] + rest;
    assert steps[1..] == rest;
  }

  /**
   When SIGKILL is about to be sent, the process is gone exactly if its waiter has left Wait.  A result
   in the channel shows that it is gone, but the channel can be empty as well.
   */
  lemma GoneBeforeKill(steps: seq<Step>)
    requires Legal(Init(), steps) && Run(Init(), steps).main.Kill?
    ensures var s := Run(Init(), steps);
            && s.rounds != []
            && var r := s.rounds[Current(s)];
               && (r.process.Reaped? <==> !r.waiter.Waiting?)
               && (r.process.Reaped? <==> r.result.Some? || r.waiter.Sending?)
  {
    RunKeepsHandshake(Init(), steps);
    var s := Run(Init(), steps);
    assert RoundInv(s.main, s.rounds[Current(s)], true);
  }

  // ---------------------------------------------------------------------------------------
  // A signal that races with the end of the process
  // ---------------------------------------------------------------------------------------

  /**
   When SIGTERM is about to be sent, the loop panics if and only if its waiter has not started the process
   yet, is about to send the result, or has sent it.
   */
  lemma PanicIff(steps: seq<Step>)
    requires Legal(Init(), steps) && Enabled(Run(Init(), steps), Move(Go)) && Run(Init(), steps).main.Terminate?
    ensures var s := Run(Init(), steps);
            && s.rounds != []
            && var r := s.rounds[Current(s)];
               Apply(s, Move(Go)).main == Ended(Panicked)
               <==> r.waiter.Starting? || r.waiter.Sending? || r.result.Some?
  {
    RunKeepsHandshake(Init(), steps);
    var s := Run(Init(), steps);
    assert RoundInv(s.main, s.rounds[Current(s)], true);
  }

  lemma Prepend(s: State, step: Step, rest: seq<Step>) returns (steps: seq<Step>)
    requires Enabled(s, step) && Legal(Apply(s, step), rest)
    ensures Legal(s, steps) && Run(s, steps) == Run(Apply(s, step), rest)
  {
    steps := [step] + rest;
    assert steps[1..] == rest;
  }

  /** The process starts and ends with success, and then the loop takes the signal. */
  lemma PanicFrom(s: State) returns (steps: seq<Step>)
    requires s == State(0, Wait, [Round(NoProcess, Starting, None)], [SigTerm], 0, [Begin(0, 0)], [])
    ensures Legal(s, steps)
    ensures Run(s, steps).main == Ended(Panicked) && Run(s, steps).rounds == [Round(Reaped(true), Sending(true), None)]
  {
    var s1 := Apply(s, Start(0, true));
    assert s1 == s.(rounds := [Round(Alive, Waiting, None)], log := [Started(0)]);
    var s2 := Apply(s1, Exit(0, true));
    assert s2 == s1.(rounds := [Round(Zombie(true), Waiting, None)]);
    var s3 := Apply(s2, Reap(0));
    assert s3 == s2.(rounds := [Round(Reaped(true), Sending(true), None)], log := [Started(0), WaitedFor(0)]);
    var s4 := Apply(s3, Move(TakeSignal));
    assert s4 == s3.(main := Terminate(SigTerm), signals := []);
    var s5 := Apply(s4, Move(Go));
    assert s5 == s4.(main := Ended(Panicked)) && Run(s5, []) == s5;
    steps := Prepend(s4, Move(Go), []);
    steps := Prepend(s3, Move(TakeSignal), steps);
    steps := Prepend(s2, Reap(0), steps);
    steps := Prepend(s1, Exit(0, true), steps);
    steps := Prepend(s, Start(0, true), steps);
  }

  /** There is a run in which the process ends with success and the loop panics for a SIGTERM that came. */
  lemma PanicHappens() returns (steps: seq<Step>)
    ensures Legal(Init(), steps)
    ensures var s := Run(Init(), steps);
            s.main == Ended(Panicked) && s.rounds == [Round(Reaped(true), Sending(true), None)]
  {
    var s1 := Apply(Init(), Move(Go));
    var s2 := Apply(s1, Move(Go));
    assert s2 == State(0, Wait, [Round(NoProcess, Starting, None)], [], 0, [Begin(0, 0)], []);
    var s3 := Apply(s2, Deliver(SigTerm));
    assert s3 == s2.(signals := [SigTerm]);
    steps := PanicFrom(s3);
    steps := Prepend(s2, Deliver(SigTerm), steps);
    steps := Prepend(s1, Move(Go), steps);
    steps := Prepend(Init(), Move(Go), steps);
  }

  // ---------------------------------------------------------------------------------------
  // The loop
  // ---------------------------------------------------------------------------------------

  /** What happens before the next operation of the loop, and the case that its select prefers. */
  datatype Turn = Turn(others: seq<Step>, choice: Choice)

  /** After the script's end nothing else happens. */
  function TurnAt(script: seq<Turn>, k: nat): Turn {
    if k < |script| then script[k] else Turn([], Go)
  }

  /** Something other than the loop takes the given step, if that is possible. */
  function TryOther(s: State, step: Step): State {
    if !step.Move? && Enabled(s, step) then Apply(s, step) else s
  }

  /** The clock, the processes, the waiters and the signals take those of the given steps that are possible. */
  function TakeOthers(s: State, others: seq<Step>): State {
    if others == [] then s
    else
      var n := |others| - 1;
      TryOther(TakeOthers(s, others[..n]), others[n])
  }

  /** The case that the loop takes, unless it is blocked: the preferred one if that is ready. */
  function Chosen(s: State, preferred: Choice): Option<Choice> {
    if CanMove(s, preferred) then Some(preferred)
    else if CanMove(s, TakeResult) then Some(TakeResult)
    else if CanMove(s, TakeSignal) then Some(TakeSignal)
    else if CanMove(s, TakeTimer) then Some(TakeTimer)
    else if CanMove(s, Go) then Some(Go)
    else None
  }

  /** One turn of the script. */
  function Turned(s: State, turn: Turn): State {
    var now := TakeOthers(s, turn.others);
    var choice := Chosen(now, turn.choice);
    if choice.None? then now else ApplyMove(now, choice.value)
  }

  /** What the first turns of the script, and empty ones after its end, make of a state. */
  function Played(s: State, script: seq<Turn>, used: nat): State {
    if used == 0 then s else Turned(Played(s, script, used - 1), TurnAt(script, used - 1))
  }

  /** The states between the turns of a script. */
  ghost predicate Tracks(play: nat -> State, script: seq<Turn>) {
    forall k: nat {:trigger TurnAt(script, k)} :: play(k + 1) == Turned(play(k), TurnAt(script, k))
  }

  lemma Plays(s: State, script: seq<Turn>) returns (play: nat -> State)
    ensures Tracks(play, script) && play(0) == s && forall k: nat :: play(k) == Played(s, script, k)
  {
    play := (k: nat) => Played(s, script, k);
  }

  lemma {:induction false} PlayedMore(s: State, script: seq<Turn>, turn: Turn, k: nat)
    requires k <= |script|
    ensures Played(s, script + [turn], k) == Played(s, script, k)
  {
    if k > 0 {
      PlayedMore(s, script, turn, k - 1);
      assert (script + [turn])[k - 1] == script[k - 1];
    }
  }

  lemma PlayedAppend(s: State, script: seq<Turn>, turn: Turn)
    ensures Played(s, script + [turn], |script| + 1) == Turned(Played(s, script, |script|), turn)
  {
    PlayedMore(s, script, turn, |script|);
    assert (script + [turn])[|script|] == turn;
  }

  lemma {:induction false} RunLast(s: State, steps: seq<Step>, step: Step)
    requires Legal(s, steps + [step])
    ensures Legal(s, steps) && Enabled(Run(s, steps), step)
    ensures Run(s, steps + [step]) == Apply(Run(s, steps), step)
    decreases |steps|
  {
    if steps == [] {
      assert steps + [step] == [step];
    } else {
      assert (steps + [step])[1..] == steps[1..] + [step];
      RunLast(Apply(s, steps[0]), steps[1..], step);
    }
  }

  lemma OthersAppend(s: State, others: seq<Step>, step: Step)
    ensures TakeOthers(s, others + [step]) == TryOther(TakeOthers(s, others), step)
  {
    assert (others + [step])[..|others|] == others;
  }

  /** One more step of a run is one more step of the others or one more turn of the script. */
  lemma OneMoreStep(s: State, script: seq<Turn>, others: seq<Step>, step: Step)
    requires Enabled(TakeOthers(Played(s, script, |script|), others), step)
    ensures var t := Apply(TakeOthers(Played(s, script, |script|), others), step);
            if step.Move? then TakeOthers(Played(s, script + [Turn(others, step.choice)], |script| + 1), []) == t
            else TakeOthers(Played(s, script, |script|), others + [step]) == t
  {
    if step.Move? {
      PlayedAppend(s, script, Turn(others, step.choice));
    } else {
      OthersAppend(Played(s, script, |script|), others, step);
    }
  }

  /** Scripts leave nothing out: every run of the whole system is what some script makes of it. */
  lemma {:induction false} EveryRunIsAScript(s: State, steps: seq<Step>) returns (script: seq<Turn>, others: seq<Step>)
    requires Legal(s, steps)
    ensures Run(s, steps) == TakeOthers(Played(s, script, |script|), others)
    decreases |steps|
  {
    if steps == [] {
      script, others := [], [];
    } else {
      var n := |steps| - 1;
      var front, last := steps[..n], steps[n];
      assert steps == front + [last];
      RunLast(s, front, last);
      script, others := EveryRunIsAScript(s, front);
      OneMoreStep(s, script, others, last);
      if last.Move? {
        script, others := script + [Turn(others, last.choice)], [];
      } else {
        others := others + [last];
      }
    }
  }

  lemma {:induction false} RunAppend(s: State, steps: seq<Step>, step: Step)
    requires Legal(s, steps) && Enabled(Run(s, steps), step)
    ensures Legal(s, steps + [step])
    ensures Run(s, steps + [step]) == Apply(Run(s, steps), step)
    decreases |steps|
  {
    if steps == [] {
      assert steps + [step] == [step];
    } else {
      assert (steps + [step])[1..] == steps[1..] + [step];
      RunAppend(Apply(s, steps[0]), steps[1..], step);
    }
  }

  /** Where the loop goes once the process that it asked to end is gone. */
  function Answered(sig: Signal): Main {
    if sig == SigTerm then Ended(Stopped) else Head
  }

  /** What came out of one operation of the loop: the result received or reported, or the signal. */
  datatype Outcome = Blocked | Done(choice: Choice, ok: bool, sig: Signal)

  /** What a part of the loop leads to: another round, the end, or neither when the script ends first. */
  datatype Verdict = Again | Over(exit: Exit) | Unfinished

  /** Where an operation takes the loop, by its outcome and the time at which it is done. */
  function Leads(was: Main, outcome: Outcome, now: nat, beforeWait: nat): Main
    requires outcome.Done?
  {
    match was
    case Head => Stamp
    case Stamp => Wait
    case Wait =>
      if outcome.choice == TakeSignal then Terminate(outcome.sig)
      else if outcome.ok then Ended(Success)
      else Report(now, Max(MIN_SLEEP, MIN_INTERVAL - (now - beforeWait)))
    case Report(failed, sleep) => Backoff(failed, now + sleep)
    case Backoff(_, _) => if outcome.choice == TakeSignal then Answered(outcome.sig) else Head
    case Terminate(sig) => if outcome.ok then Arm(sig, now) else Ended(Panicked)
    case Arm(sig, sent) => Ending(sig, sent, now + KILL_TIMEOUT)
    case Ending(sig, sent, _) => if outcome.choice == TakeTimer then Kill(sig, sent) else Answered(sig)
    case Kill(sig, _) => Drain(sig)
    case Drain(sig) => Answered(sig)
    case Ended(_) => was
  }

  /** The cases of the select at which the loop is. */
  function Cases(main: Main): set<Choice> {
    match main
    case Wait => {TakeResult, TakeSignal}
    case Backoff(_, _) => {TakeTimer, TakeSignal}
    case Ending(_, _, _) => {TakeResult, TakeTimer}
    case Drain(_) => {TakeResult}
    case _ => {Go}
  }

  /** The number of SIGUSR1 that an operation answers with another round. */
  function Restarts(was: Main, outcome: Outcome): nat
    requires outcome.Done?
  {
    match was
    case Backoff(_, _) => if outcome.choice == TakeSignal && outcome.sig == SigUsr1 then 1 else 0
    case Ending(sig, _, _) => if outcome.choice == TakeResult && sig == SigUsr1 then 1 else 0
    case Drain(sig) => if sig == SigUsr1 then 1 else 0
    case _ => 0
  }

  /**
   The loop, its waiters and processes.  history is the run so far; it only grows, so whatever a method
   does is part of one run of the transition system.
   */
  class Loop {
    var s: State
    ghost var history: seq<Step>

    ghost predicate Valid()
      reads this
    {
      Legal(Init(), history) && s == Run(Init(), history)
    }

    constructor ()
      ensures Valid() && s == Init()
    {
      s, history := Init(), [];
    }

    method Take(step: Step)
      requires Valid() && Enabled(s, step)
      modifies this
      ensures Valid() && s == Apply(old(s), step) && history == old(history) + [step]
    {
      RunAppend(Init(), history, step);
      s := Apply(s, step);
      history := history + [step];
    }

    /** The clock, the processes, the waiters and the signals take those of the given steps that are possible. */
    method Interfere(others: seq<Step>)
      requires Valid()
      modifies this
      ensures Valid() && old(history) <= history
      ensures s.main == old(s.main) && s.begins == old(s.begins) && s.restarts == old(s.restarts)
      ensures old(s).now <= s.now && s == TakeOthers(old(s), others)
    {
      for k := 0 to |others|
        invariant Valid() && old(history) <= history
        invariant s.main == old(s.main) && s.begins == old(s.begins) && s.restarts == old(s.restarts)
        invariant old(s).now <= s.now && s == TakeOthers(old(s), others[..k])
      {
        assert others[..k + 1][..k] == others[..k];
        if !others[k].Move? && Enabled(s, others[k]) {
          Take(others[k]);
        }
      }
      assert others[..|others|] == others;
    }

    /** The loop's own operation, which is possible. */
    method Operate(choice: Choice) returns (outcome: Outcome)
      requires Valid() && CanMove(s, choice)
      modifies this
      ensures Valid() && history == old(history) + [Move(choice)]
      ensures outcome.Done? && outcome.choice == choice
      ensures s == ApplyMove(old(s), choice) && choice in Cases(old(s).main)
      ensures s.main == Leads(old(s).main, outcome, s.now, BeforeWait(old(s)))
      ensures s.restarts == old(s).restarts + Restarts(old(s).main, outcome)
    {
      var ok, sig := true, SigTerm;
      if choice == TakeResult {
        ok := s.rounds[Current(s)].result.value;
      } else if choice == TakeSignal {
        sig := s.signals[0];
      } else if s.main.Terminate? {
        ok := Unreaped(s.rounds[Current(s)]);
      }
      Take(Move(choice));
      outcome := Done(choice, ok, sig);
    }

    /** The loop is in a select none of whose cases is ready. */
    predicate Stuck()
      reads this
    {
      !CanMove(s, TakeResult) && !CanMove(s, TakeSignal) && !CanMove(s, TakeTimer) && !CanMove(s, Go)
    }

    /** What an operation of the loop that is done says about the state before and after it. */
    ghost predicate Follows(was: State, outcome: Outcome)
      reads this
    {
      && was.now <= s.now && outcome.Done?
      && s.main == Leads(was.main, outcome, s.now, BeforeWait(was))
      && BeforeWait(s) == (if was.main.Stamp? then s.now else BeforeWait(was))
      && s.restarts == was.restarts + Restarts(was.main, outcome)
      && outcome.choice in Cases(was.main)
      && (outcome.choice == TakeTimer ==> s.now >= was.main.deadline)
    }

    /** The loop has not moved. */
    ghost predicate Waits(was: State)
      reads this
    {
      was.now <= s.now && s.main == was.main && s.restarts == was.restarts && s.begins == was.begins
    }

    /**
     One turn of the script.  A select takes the preferred case if it is ready, or another one that is; if
     none is ready, it is blocked.
     */
    method Try(turn: Turn) returns (outcome: Outcome)
      requires Valid()
      modifies this
      ensures Valid() && old(history) <= history && s == Turned(old(s), turn)
      ensures if outcome.Blocked? then Stuck() && Waits(old(s)) else Follows(old(s), outcome)
      ensures turn.others == [] ==>
                if outcome.Blocked? then s == old(s)
                else s.now == old(s).now && |s.signals| + (if outcome.choice == TakeSignal then 1 else 0) == |old(s).signals|
    {
      Interfere(turn.others);
      var choice := turn.choice;
      if !CanMove(s, choice) {
        choice := if CanMove(s, TakeResult) then TakeResult
                  else if CanMove(s, TakeSignal) then TakeSignal
                  else if CanMove(s, TakeTimer) then TakeTimer
                  else Go;
      }
      if !CanMove(s, choice) {
        return Blocked;
      }
      outcome := Operate(choice);
    }

    /** So many turns of the script were played; play has the states. */
    ghost predicate Progress(play: nat -> State, before: seq<Step>, used: nat)
      reads this
    {
      Valid() && before <= history && s == play(used)
    }

    /** The next operation of the loop; it is blocked only if the script has ended. */
    method Next(script: seq<Turn>, start: nat, ghost play: nat -> State, ghost before: seq<Step>)
      returns (next: nat, outcome: Outcome)
      requires Tracks(play, script) && Progress(play, before, start)
      modifies this
      ensures Progress(play, before, next) && start < next
      ensures if outcome.Blocked? then Stuck() && Waits(old(s)) && next > |script| else Follows(old(s), outcome)
      ensures outcome.Done? && start >= |script| ==>
                s.now == old(s).now && |s.signals| + (if outcome.choice == TakeSignal then 1 else 0) == |old(s).signals|
    {
      next := start;
      while true
        invariant Progress(play, before, next) && start <= next && Waits(old(s))
        invariant start >= |script| ==> s == old(s)
        decreases |script| - next
      {
        outcome := Try(TurnAt(script, next));
        next := next + 1;
        if outcome.Done? || next > |script| {
          return;
        }
      }
    }

    /** The result of a part of the loop agrees with where the loop is. */
    predicate At(verdict: Verdict)
      reads this
    {
      match verdict
      case Again => s.main.Head?
      case Over(exit) => s.main == Ended(exit)
      case Unfinished => !s.main.Ended? && Stuck()
    }

    /**
     The process failed, or could not be started: wait for the timer or a signal, which is returned.  The
     timer does not fire before sleepDur has passed.
     */
    method BackOff(script: seq<Turn>, start: nat, sleepDur: nat, ghost play: nat -> State, ghost before: seq<Step>)
      returns (next: nat, verdict: Verdict, heard: Option<Signal>)
      requires Tracks(play, script) && Progress(play, before, start) && s.main.Report? && s.main.sleep == sleepDur > 0
      modifies this
      ensures Progress(play, before, next) && start < next && At(verdict)
      ensures verdict == Unfinished ==> next > |script|
      ensures verdict != Unfinished ==>
                && verdict == (if heard == Some(SigTerm) then Over(Stopped) else Again)
                && s.restarts == old(s).restarts + (if heard == Some(SigUsr1) then 1 else 0)
                && (heard == None ==> s.now >= old(s).now + sleepDur)
      ensures verdict == Again && start >= |script| ==> |s.signals| < |old(s).signals|
    {
      var outcome;
      next, outcome := Next(script, start, play, before);
      if outcome.Blocked? {
        return next, Unfinished, None;
      }
      next, outcome := Next(script, next, play, before);
      if outcome.Blocked? {
        return next, Unfinished, None;
      }
      heard := if outcome.choice == TakeSignal then Some(outcome.sig) else None;
      verdict := if heard == Some(SigTerm) then Over(Stopped) else Again;
    }

    /** A signal came while the process ran: ask it to end, kill it after a while, and await its end. */
    method AskToEnd(script: seq<Turn>, start: nat, sig: Signal, ghost play: nat -> State, ghost before: seq<Step>)
      returns (next: nat, verdict: Verdict)
      requires Tracks(play, script) && Progress(play, before, start) && s.main == Terminate(sig)
      modifies this
      ensures Progress(play, before, next) && start < next && At(verdict)
      ensures verdict == Unfinished ==> next > |script|
      ensures match verdict
              case Again => sig == SigUsr1 && s.restarts == old(s).restarts + 1
              case Over(Stopped) => sig == SigTerm && s.restarts == old(s).restarts
              case Over(exit) => exit == Panicked
              case Unfinished => true
      ensures verdict == Again && start >= |script| ==> |s.signals| <= |old(s).signals|
    {
      var outcome;
      next, outcome := Next(script, start, play, before);
      if outcome.Blocked? {
        return next, Unfinished;
      }
      if !outcome.ok {
        return next, Over(Panicked);
      }
      next, outcome := Next(script, next, play, before);
      if outcome.Blocked? {
        return next, Unfinished;
      }
      next, verdict := AwaitEnd(script, next, sig, play, before);
    }

    /** The timer of the kill is set: wait for the result, and send SIGKILL if the timer fires first. */
    method AwaitEnd(script: seq<Turn>, start: nat, sig: Signal, ghost play: nat -> State, ghost before: seq<Step>)
      returns (next: nat, verdict: Verdict)
      requires Tracks(play, script) && Progress(play, before, start) && s.main.Ending? && s.main.sig == sig
      modifies this
      ensures Progress(play, before, next) && start < next && At(verdict)
      ensures verdict == Unfinished ==> next > |script|
      ensures verdict != Unfinished ==>
                && verdict == (if sig == SigTerm then Over(Stopped) else Again)
                && s.restarts == old(s).restarts + (if sig == SigUsr1 then 1 else 0)
      ensures verdict == Again && start >= |script| ==> |s.signals| <= |old(s).signals|
    {
      var outcome;
      next, outcome := Next(script, start, play, before);
      if outcome.Blocked? {
        return next, Unfinished;
      }
      if outcome.choice == TakeTimer {
        next, outcome := Next(script, next, play, before); // SIGKILL
        if outcome.Blocked? {
          return next, Unfinished;
        }
        next, outcome := Next(script, next, play, before);
        if outcome.Blocked? {
          return next, Unfinished;
        }
      }
      verdict := if sig == SigTerm then Over(Stopped) else Again;
    }

    /** One round of the loop. */
    method OneRound(script: seq<Turn>, start: nat, ghost play: nat -> State, ghost before: seq<Step>)
      returns (next: nat, verdict: Verdict)
      requires Tracks(play, script) && Progress(play, before, start) && s.main.Head?
      modifies this
      ensures Progress(play, before, next) && start < next && At(verdict)
      ensures verdict == Unfinished ==> next > |script|
      ensures verdict == Again && start >= |script| ==> |s.signals| < |old(s).signals|
    {
      var outcome;
      next, outcome := Next(script, start, play, before); // the command, its channel and its waiter
      if outcome.Blocked? {
        return next, Unfinished;
      }
      next, outcome := Next(script, next, play, before);
      if outcome.Blocked? {
        return next, Unfinished;
      }
      var beforeWait := s.now;
      next, outcome := Next(script, next, play, before);
      if outcome.Blocked? {
        return next, Unfinished;
      }
      if outcome.choice == TakeSignal {
        next, verdict := AskToEnd(script, next, outcome.sig, play, before);
      } else if outcome.ok {
        verdict := Over(Success);
      } else {
        var sleepDur := Max(MIN_SLEEP, MIN_INTERVAL - (s.now - beforeWait));
        var heard;
        next, verdict, heard := BackOff(script, next, sleepDur, play, before);
      }
    }

    /**
     startMainLoop.  The script stands for everything outside of the loop, and after its end nothing else
     happens.  The whole system becomes exactly what the turns that were used make of it.  The result is None
     if the loop is blocked in a select after the script's end.  After a normal end no process and no waiter
     is left.
     */
    method StartMainLoop(script: seq<Turn>) returns (used: nat, exit: Option<Exit>)
      requires Valid() && s.main.Head?
      modifies this
      ensures Valid() && old(history) <= history && s == Played(old(s), script, used)
      ensures if exit.Some? then s.main == Ended(exit.value) else !s.main.Ended? && Stuck() && used > |script|
      ensures exit == Some(Success) || exit == Some(Stopped) ==>
                forall k: nat :: k < |s.rounds| ==> Settled(s.rounds[k])
    {
      ghost var play := Plays(s, script);
      ghost var before := history;
      var verdict := Again;
      used := 0;
      while verdict == Again
        invariant Progress(play, before, used) && At(verdict) && (verdict == Unfinished ==> used > |script|)
        decreases verdict == Again, if used < |script| then |script| - used else 0, |s.signals|
      {
        used, verdict := OneRound(script, used, play, before);
      }
      HeadIsClean(history);
      exit := if verdict.Over? then Some(verdict.exit) else None;
    }
  }
}
