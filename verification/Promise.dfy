/**
 The lock-and-publish protocol of async.Promise, as a transition system.

 Any number of callers run the closure that Promise returns.  Each of them has a program
 counter, every atomic operation of the closure is one step, and the scheduler is a
 sequence of steps.  The type parameter R is the pair of value and error that f delivers.
 */
module Promise {
  import opened Wrappers

  /** The one-shot channel of Run2: f still runs, its result is buffered, or it was received. */
  datatype Future<R> = Running | Buffered(result: R) | Received(result: R)

  /** What a caller returned: a copy of the shared data, or the error of its own context. */
  datatype Return<R> = Value(data: Option<R>) | CtxErr

  /** The program counter of one caller; the comment names the operation it is about to do. */
  datatype Pc<R> =
    | Load              // first load of waitPtr
    | Acquire           // select on ctx.Done and wait.lock
    | Recheck           // second load of waitPtr
    | Retrieve          // select on ctx.Done and wait.data
    | PutBack           // send the token back into wait.lock
    | Assign(result: R) // write the received result into data
    | Publish           // store nil in waitPtr
    | CloseLock         // close wait.lock
    | Read              // copy data into the return values
    | Done(ret: Return<R>)

  datatype Caller<R> = Caller(pc: Pc<R>, ctxDone: bool)

  /** data is None for the zero value; fault records a panic on the lock channel. */
  datatype State<R> = State(
    future: Future<R>,
    data: Option<R>,
    waitNil: bool,
    tokens: nat,
    closed: bool,
    fault: bool,
    callers: seq<Caller<R>>)

  /** A select either takes its channel case or sees the cancelled context. */
  datatype Choice = Proceed | SeeDone

  datatype Step<R> =
    | Finish(result: R)
    | Call
    | Cancel(caller: nat)
    | Move(caller: nat, choice: Choice)

  const LOCK_CAPACITY: nat := 1

  function Init<R>(): State<R> {
    State(Running, None, false, 1, false, false, [])
  }

  predicate CanMove<R>(s: State<R>, c: nat, choice: Choice)
    requires c < |s.callers|
  {
    var me := s.callers[c];
    match choice
    case SeeDone => me.ctxDone && (me.pc.Acquire? || me.pc.Retrieve?)
    case Proceed =>
      match me.pc
      case Acquire => s.tokens > 0 || s.closed
      case Retrieve => s.future.Buffered?
      case PutBack => s.closed || s.tokens < LOCK_CAPACITY
      case Done(_) => false
      case _ => true
  }

  predicate Enabled<R>(s: State<R>, step: Step<R>) {
    match step
    case Finish(_) => s.future.Running?
    case Call => true
    case Cancel(c) => c < |s.callers|
    case Move(c, choice) => c < |s.callers| && CanMove(s, c, choice)
  }

  function Goto<R>(s: State<R>, c: nat, pc: Pc<R>): State<R>
    requires c < |s.callers|
  {
    s.(callers := s.callers[c := s.callers[c].(pc := pc)])
  }

  /** A move changes no other caller than its own, and of that one only the program counter. */
  function ApplyMove<R>(s: State<R>, c: nat, choice: Choice): (t: State<R>)
    requires c < |s.callers| && CanMove(s, c, choice)
    ensures |t.callers| == |s.callers| && t.callers == s.callers[c := s.callers[c].(pc := t.callers[c].pc)]
  {
    match s.callers[c].pc
    case Load => Goto(s, c, if s.waitNil then Read else Acquire)
    case Acquire =>
      if choice == SeeDone then Goto(s, c, Done(CtxErr))
      else Goto(s.(tokens := if s.tokens > 0 then s.tokens - 1 else 0), c, Recheck)
    case Recheck => Goto(s, c, if s.waitNil then Read else Retrieve)
    case Retrieve =>
      if choice == SeeDone then Goto(s, c, PutBack)
      else Goto(s.(future := Received(s.future.result)), c, Assign(s.future.result))
    case PutBack =>
      if s.closed then Goto(s.(fault := true), c, Done(CtxErr))
      else Goto(s.(tokens := s.tokens + 1), c, Done(CtxErr))
    case Assign(r) => Goto(s.(data := Some(r)), c, Publish)
    case Publish => Goto(s.(waitNil := true), c, CloseLock)
    case CloseLock => Goto(s.(fault := s.fault || s.closed, closed := true), c, Read)
    case Read => Goto(s, c, Done(Value(s.data)))
  }

  function Apply<R>(s: State<R>, step: Step<R>): State<R>
    requires Enabled(s, step)
  {
    match step
    case Finish(r) => s.(future := Buffered(r))
    case Call => s.(callers := s.callers + [Caller(Load, false)])
    case Cancel(c) => s.(callers := s.callers[c := s.callers[c].(ctxDone := true)])
    case Move(c, choice) => ApplyMove(s, c, choice)
  }

  predicate Legal<R>(s: State<R>, steps: seq<Step<R>>)
    decreases |steps|
  {
    steps == [] || (Enabled(s, steps[0]) && Legal(Apply(s, steps[0]), steps[1..]))
  }

  function Run<R>(s: State<R>, steps: seq<Step<R>>): State<R>
    requires Legal(s, steps)
    decreases |steps|
  {
    if steps == [] then s else Run(Apply(s, steps[0]), steps[1..])
  }

  // ---------------------------------------------------------------------------------------
  // The invariant
  // ---------------------------------------------------------------------------------------

  predicate InCritical<R>(pc: Pc<R>) {
    pc.Retrieve? || pc.PutBack? || pc.Assign? || pc.Publish? || pc.CloseLock?
  }

  /** Caller c owns the token of the lock. */
  predicate Holds<R>(s: State<R>, c: nat)
    requires c < |s.callers|
  {
    InCritical(s.callers[c].pc) || (s.callers[c].pc.Recheck? && !s.closed)
  }

  ghost predicate CallerInv<R>(s: State<R>, c: nat)
    requires c < |s.callers|
  {
    var me := s.callers[c];
    && (Holds(s, c) ==> s.tokens == 0 && !s.closed && s.waitNil == me.pc.CloseLock?)
    && (Holds(s, c) ==> (s.future.Received? <==> me.pc.Assign? || me.pc.Publish? || me.pc.CloseLock?))
    && (me.pc.Assign? ==> s.future == Received(me.pc.result))
    && (me.pc.Publish? ==> s.data.Some? && s.future == Received(s.data.value))
    && (me.pc.Read? ==> s.waitNil)
    && (me.pc.PutBack? ==> me.ctxDone)
    && (me.pc.Done? ==> if me.pc.ret.CtxErr? then me.ctxDone else s.waitNil && me.pc.ret.data == s.data)
  }

  ghost predicate Inv<R>(s: State<R>) {
    && !s.fault
    && s.tokens <= 1
    && (s.closed ==> s.waitNil && s.tokens == 0)
    && (s.waitNil ==> s.data.Some? && s.future == Received(s.data.value))
    && (s.tokens == 1 ==> !s.future.Received? && !s.waitNil)
    && (s.tokens == 0 && !s.closed ==> exists c: nat | c < |s.callers| :: Holds(s, c))
    && (forall c: nat | c < |s.callers| :: CallerInv(s, c))
    && (forall c: nat, d: nat | c < |s.callers| && d < |s.callers| && Holds(s, c) && Holds(s, d) :: c == d)
  }

  lemma MoveKeepsInv<R>(s: State<R>, c: nat, choice: Choice)
    requires Inv(s) && Enabled(s, Move(c, choice))
    ensures Inv(Apply(s, Move(c, choice)))
  {
    var t := ApplyMove(s, c, choice);
    assert CallerInv(s, c);
    forall d: nat | d < |s.callers|
      ensures CallerInv(t, d)
      ensures d != c && Holds(t, d) ==> Holds(s, d) && !Holds(t, c)
    {
      assert CallerInv(s, d);
      assert Holds(s, c) && Holds(s, d) ==> c == d;
    }
    if t.tokens == 0 && !t.closed && !Holds(t, c) {
      var d: nat :| d < |s.callers| && Holds(s, d);
      assert Holds(t, d);
    }
  }

  lemma StepKeepsInv<R>(s: State<R>, step: Step<R>)
    requires Inv(s) && Enabled(s, step)
    ensures Inv(Apply(s, step))
  {
    if step.Move? {
      MoveKeepsInv(s, step.caller, step.choice);
    } else {
      var t := Apply(s, step);
      forall d: nat | d < |t.callers|
        ensures CallerInv(t, d) && (Holds(t, d) ==> d < |s.callers| && Holds(s, d))
      {
        assert d < |s.callers| ==> CallerInv(s, d);
      }
      if t.tokens == 0 && !t.closed {
        var d: nat :| d < |s.callers| && Holds(s, d);
        assert Holds(t, d);
      }
    }
  }

  lemma {:induction false} RunKeepsInv<R>(s: State<R>, steps: seq<Step<R>>)
    requires Inv(s) && Legal(s, steps)
    ensures Inv(Run(s, steps))
    decreases |steps|
  {
    if steps == [] {
    } else {
      StepKeepsInv(s, steps[0]);
      RunKeepsInv(Apply(s, steps[0]), steps[1..]);
    }
  }

  // ---------------------------------------------------------------------------------------
  // Safety over every run
  // ---------------------------------------------------------------------------------------

  function Holders<R>(s: State<R>): set<nat> {
    set c: nat | c < |s.callers| && Holds(s, c)
  }

  /** One caller is about to write data while another is about to read or write it. */
  ghost predicate Racy<R>(s: State<R>) {
    exists c: nat, d: nat ::
      c < |s.callers| && d < |s.callers| && c != d
      && s.callers[c].pc.Assign? && (s.callers[d].pc.Assign? || s.callers[d].pc.Read?)
  }

  /** While the lock is open there is exactly one token: in the channel or with one caller. */
  lemma OneToken<R>(steps: seq<Step<R>>)
    requires Legal(Init(), steps)
    ensures var s := Run(Init(), steps); !s.closed ==> s.tokens + |Holders(s)| == 1
  {
    RunKeepsInv(Init(), steps);
    var s := Run(Init(), steps);
    if !s.closed {
      if s.tokens == 0 {
        var c: nat :| c < |s.callers| && Holds(s, c);
        assert Holders(s) == {c};
      } else {
        forall c: nat | c < |s.callers| ensures !Holds(s, c) {
          assert CallerInv(s, c);
        }
        assert Holders(s) == {};
      }
    }
  }

  /**
   No run has a data race on data, a send into the closed lock or a second close of it, and a
   caller that puts the token back finds room for it in the channel.
   */
  lemma NoRaceNoFault<R>(steps: seq<Step<R>>)
    requires Legal(Init(), steps)
    ensures var s := Run(Init(), steps);
            && !s.fault
            && !Racy(s)
            && (forall c: nat | c < |s.callers| && s.callers[c].pc.PutBack? ::
                  !s.closed && s.tokens == 0)
            && (forall c: nat | c < |s.callers| && s.callers[c].pc.CloseLock? :: !s.closed)
  {
    RunKeepsInv(Init(), steps);
    var s := Run(Init(), steps);
    forall c: nat | c < |s.callers|
      ensures s.callers[c].pc.PutBack? || s.callers[c].pc.CloseLock? ==> s.tokens == 0 && !s.closed
    {
      assert CallerInv(s, c);
    }
    if Racy(s) {
      var c: nat, d: nat :| c < |s.callers| && d < |s.callers| && c != d
        && s.callers[c].pc.Assign? && (s.callers[d].pc.Assign? || s.callers[d].pc.Read?);
      assert CallerInv(s, c) && CallerInv(s, d) && Holds(s, c);
      assert s.callers[d].pc.Assign? ==> Holds(s, d);
      assert false;
    }
  }

  /** f finishes at most once, and the future then keeps that one result for good. */
  lemma {:induction false} FutureFate<R>(s: State<R>, steps: seq<Step<R>>)
    requires Legal(s, steps)
    ensures var t := Run(s, steps);
            if s.future.Running? then
              t.future.Running? || exists k: nat :: k < |steps| && steps[k] == Finish(t.future.result)
            else !t.future.Running? && t.future.result == s.future.result
    ensures !s.future.Running? ==> forall k: nat | k < |steps| :: !steps[k].Finish?
    ensures forall j: nat, k: nat | j < |steps| && k < |steps| && steps[j].Finish? && steps[k].Finish? :: j == k
    decreases |steps|
  {
    if steps == [] {
    } else {
      var s1, rest := Apply(s, steps[0]), steps[1..];
      FutureFate(s1, rest);
      assert forall k: nat | 0 < k < |steps| :: steps[k] == rest[k - 1];
      var t := Run(s1, rest);
      if s.future.Running? && !t.future.Running? {
        if s1.future.Running? {
          var k: nat :| k < |rest| && rest[k] == Finish(t.future.result);
          assert steps[k + 1] == Finish(t.future.result);
        } else {
          assert steps[0] == Finish(t.future.result);
        }
      }
    }
  }

  /**
   A caller returns either the error of its own cancelled context, or exactly the result with
   which f finished in this run; all callers that return a value return the same one.
   */
  lemma OneResult<R>(steps: seq<Step<R>>, c: nat)
    requires Legal(Init(), steps)
    requires var s := Run(Init(), steps); c < |s.callers| && s.callers[c].pc.Done?
    ensures var s := Run(Init(), steps);
            var ret := s.callers[c].pc.ret;
            if ret.CtxErr? then s.callers[c].ctxDone
            else
              && !s.future.Running?
              && ret.data == Some(s.future.result)
              && exists k: nat :: k < |steps| && steps[k] == Finish(s.future.result)
  {
    RunKeepsInv(Init(), steps);
    FutureFate(Init(), steps);
    assert CallerInv(Run(Init(), steps), c);
  }

  // ---------------------------------------------------------------------------------------
  // Progress and termination
  // ---------------------------------------------------------------------------------------

  const CALL_STEPS: nat := 8

  /** The number of steps a caller can still take. */
  function Rank<R>(pc: Pc<R>): (r: nat)
    ensures r <= CALL_STEPS
    ensures r == 0 <==> pc.Done?
  {
    match pc
    case Load => 8
    case Acquire => 7
    case Recheck => 6
    case Retrieve => 5
    case Assign(_) => 4
    case Publish => 3
    case CloseLock => 2
    case PutBack => 1
    case Read => 1
    case Done(_) => 0
  }

  function Work<R>(callers: seq<Caller<R>>): nat {
    if callers == [] then 0 else Rank(callers[0].pc) + Work(callers[1..])
  }

  lemma {:induction false} WorkUpdate<R>(callers: seq<Caller<R>>, c: nat, x: Caller<R>)
    requires c < |callers|
    ensures Work(callers[c := x]) == Work(callers) - Rank(callers[c].pc) + Rank(x.pc)
  {
    if c == 0 {
      assert callers[c := x][1..] == callers[1..];
    } else {
      assert callers[c := x][1..] == callers[1..][c - 1 := x];
      WorkUpdate(callers[1..], c - 1, x);
    }
  }

  lemma {:induction false} WorkAppend<R>(callers: seq<Caller<R>>, x: Caller<R>)
    ensures Work(callers + [x]) == Work(callers) + Rank(x.pc)
  {
    if callers == [] {
      assert callers + [x] == [x];
    } else {
      assert (callers + [x])[1..] == callers[1..] + [x];
      WorkAppend(callers[1..], x);
    }
  }

  function Moves<R>(steps: seq<Step<R>>): nat {
    if steps == [] then 0 else (if steps[0].Move? then 1 else 0) + Moves(steps[1..])
  }

  function Calls<R>(steps: seq<Step<R>>): nat {
    if steps == [] then 0 else (if steps[0].Call? then 1 else 0) + Calls(steps[1..])
  }

  lemma MoveRank<R>(s: State<R>, c: nat, choice: Choice)
    requires Enabled(s, Move(c, choice))
    ensures var x := Apply(s, Move(c, choice)).callers[c];
            && Apply(s, Move(c, choice)).callers == s.callers[c := x]
            && Rank(x.pc) < Rank(s.callers[c].pc)
  {
  }

  lemma StepWork<R>(s: State<R>, step: Step<R>)
    requires Enabled(s, step)
    ensures var w := Work(Apply(s, step).callers);
            match step
            case Move(_, _) => w < Work(s.callers)
            case Call => w == Work(s.callers) + CALL_STEPS
            case _ => w == Work(s.callers)
  {
    match step
    case Move(c, choice) =>
      MoveRank(s, c, choice);
      WorkUpdate(s.callers, c, Apply(s, step).callers[c]);
    case Cancel(c) => WorkUpdate(s.callers, c, s.callers[c].(ctxDone := true));
    case Call => WorkAppend(s.callers, Caller(Load, false));
    case Finish(_) =>
  }

  /** Every run is finite per call: the callers together take at most CALL_STEPS steps each. */
  lemma {:induction false} BoundedWork<R>(s: State<R>, steps: seq<Step<R>>)
    requires Legal(s, steps)
    ensures Moves(steps) + Work(Run(s, steps).callers) <= Work(s.callers) + CALL_STEPS * Calls(steps)
    decreases |steps|
  {
    if steps == [] {
    } else {
      StepWork(s, steps[0]);
      BoundedWork(Apply(s, steps[0]), steps[1..]);
    }
  }

  lemma HolderCanMove<R>(s: State<R>, c: nat)
    requires Inv(s) && !s.future.Running?
    requires c < |s.callers| && Holds(s, c)
    ensures CanMove(s, c, Proceed)
  {
    assert CallerInv(s, c);
  }

  /** Once f has finished, some caller can move as long as not all of them have returned. */
  lemma NotStuck<R>(steps: seq<Step<R>>, c: nat)
    requires Legal(Init(), steps)
    requires var s := Run(Init(), steps);
             !s.future.Running? && c < |s.callers| && !s.callers[c].pc.Done?
    ensures exists d: nat :: Enabled(Run(Init(), steps), Move(d, Proceed))
  {
    RunKeepsInv(Init(), steps);
    var s := Run(Init(), steps);
    assert CallerInv(s, c);
    if Holds(s, c) {
      HolderCanMove(s, c);
      assert Enabled(s, Move(c, Proceed));
    } else if s.callers[c].pc.Acquire? && s.tokens == 0 && !s.closed {
      var d: nat :| d < |s.callers| && Holds(s, d);
      HolderCanMove(s, d);
      assert Enabled(s, Move(d, Proceed));
    } else {
      assert Enabled(s, Move(c, Proceed));
    }
  }

  /** A caller whose context is cancelled is never blocked, whether f has finished or not. */
  lemma CancelledCanMove<R>(steps: seq<Step<R>>, c: nat)
    requires Legal(Init(), steps)
    requires var s := Run(Init(), steps); c < |s.callers| && s.callers[c].ctxDone && !s.callers[c].pc.Done?
    ensures exists choice :: Enabled(Run(Init(), steps), Move(c, choice))
  {
    RunKeepsInv(Init(), steps);
    var s := Run(Init(), steps);
    assert CallerInv(s, c);
    assert Enabled(s, Move(c, if s.callers[c].pc.Acquire? || s.callers[c].pc.Retrieve? then SeeDone else Proceed));
  }

  /** A caller that comes when the result is there returns it, even if its context is cancelled. */
  lemma {:induction false} FastPath<R>(s: State<R>, steps: seq<Step<R>>, c: nat)
    requires Inv(s) && Legal(s, steps) && s.waitNil && c < |s.callers|
    requires s.callers[c].pc.Load? || s.callers[c].pc.Read? || s.callers[c].pc == Done(Value(s.data))
    ensures var t := Run(s, steps);
            && c < |t.callers| && t.data == s.data
            && (t.callers[c].pc.Load? || t.callers[c].pc.Read? || t.callers[c].pc == Done(Value(s.data)))
    decreases |steps|
  {
    if steps != [] {
      StepKeepsInv(s, steps[0]);
      DataStays(s, steps[0]);
      FastPath(Apply(s, steps[0]), steps[1..], c);
    }
  }

  /** Once the result is announced, it is not written again. */
  lemma DataStays<R>(s: State<R>, step: Step<R>)
    requires Inv(s) && Enabled(s, step) && s.waitNil
    ensures Apply(s, step).waitNil && Apply(s, step).data == s.data
  {
    if step.Move? {
      assert CallerInv(s, step.caller);
    }
  }

  /**
   A run that cannot be extended by any caller, after f has finished, has taken at most
   eight steps per call, and in it every caller has returned: with f's result unless its own
   context was cancelled.
   */
  lemma MaximalRun<R>(steps: seq<Step<R>>)
    requires Legal(Init(), steps)
    requires var s := Run(Init(), steps);
             !s.future.Running? && forall d: nat :: !Enabled(s, Move(d, Proceed))
    ensures Moves(steps) <= 8 * Calls(steps)
    ensures var s := Run(Init(), steps);
            forall c: nat | c < |s.callers| ::
              && s.callers[c].pc.Done?
              && (!s.callers[c].ctxDone ==> s.callers[c].pc.ret == Value(Some(s.future.result)))
  {
    BoundedWork(Init(), steps);
    var s := Run(Init(), steps);
    forall c: nat | c < |s.callers|
      ensures s.callers[c].pc.Done?
      ensures !s.callers[c].ctxDone ==> s.callers[c].pc.ret == Value(Some(s.future.result))
    {
      if !s.callers[c].pc.Done? {
        NotStuck(steps, c);
        assert false;
      } else {
        OneResult(steps, c);
      }
    }
  }

  // ---------------------------------------------------------------------------------------
  // The closure and its captured variables
  // ---------------------------------------------------------------------------------------

  /** What happens before the next operation of a caller, and the select case it prefers. */
  datatype Turn<R> = Turn(others: seq<Step<R>>, choice: Choice)

  /** After the script's end nothing else happens. */
  function TurnAt<R>(script: seq<Turn<R>>, k: nat): Turn<R> {
    if k < |script| then script[k] else Turn([], Proceed)
  }

  /** Somebody else takes the given step, if that is possible. */
  function TryOther<R>(s: State<R>, me: nat, step: Step<R>): (t: State<R>)
    requires me < |s.callers|
    ensures me < |t.callers| && t.callers[me].pc == s.callers[me].pc
  {
    if Enabled(s, step) && (!step.Move? || step.caller != me) then Apply(s, step) else s
  }

  /** The others take those of the given steps that are possible, in order. */
  function TakeOthers<R>(s: State<R>, me: nat, others: seq<Step<R>>): (t: State<R>)
    requires me < |s.callers|
    ensures me < |t.callers| && t.callers[me].pc == s.callers[me].pc
  {
    if others == [] then s
    else
      var n := |others| - 1;
      TryOther(TakeOthers(s, me, others[..n]), me, others[n])
  }

  /** The case that caller me takes, if it is not blocked; when both are ready, the preferred one. */
  function Chosen<R>(s: State<R>, me: nat, preferred: Choice): Option<Choice>
    requires me < |s.callers|
  {
    var proceed, seeDone := CanMove(s, me, Proceed), CanMove(s, me, SeeDone);
    if seeDone && (preferred == SeeDone || !proceed) then Some(SeeDone) else if proceed then Some(Proceed) else None
  }

  /** One turn of the script. */
  function Turned<R>(s: State<R>, me: nat, turn: Turn<R>): (t: State<R>)
    requires me < |s.callers|
    ensures me < |t.callers|
  {
    var now := TakeOthers(s, me, turn.others);
    var choice := Chosen(now, me, turn.choice);
    if choice.None? then now else ApplyMove(now, me, choice.value)
  }

  /** What the first turns of the script, and empty ones after its end, make of a state. */
  function Played<R>(s: State<R>, me: nat, script: seq<Turn<R>>, used: nat): (t: State<R>)
    requires me < |s.callers|
    ensures me < |t.callers|
  {
    if used == 0 then s else Turned(Played(s, me, script, used - 1), me, TurnAt(script, used - 1))
  }

  /** The states between the turns of a script. */
  ghost predicate Tracks<R>(play: nat -> State<R>, me: nat, script: seq<Turn<R>>) {
    forall k: nat {:trigger TurnAt(script, k)} ::
      me < |play(k).callers| && play(k + 1) == Turned(play(k), me, TurnAt(script, k))
  }

  lemma Plays<R>(s: State<R>, me: nat, script: seq<Turn<R>>) returns (play: nat -> State<R>)
    requires me < |s.callers|
    ensures Tracks(play, me, script) && play(0) == s && forall k: nat :: play(k) == Played(s, me, script, k)
  {
    play := (k: nat) => if me < |s.callers| then Played(s, me, script, k) else s;
  }

  lemma {:induction false} PlayedMore<R>(s: State<R>, me: nat, script: seq<Turn<R>>, turn: Turn<R>, k: nat)
    requires me < |s.callers| && k <= |script|
    ensures Played(s, me, script + [turn], k) == Played(s, me, script, k)
  {
    if k > 0 {
      PlayedMore(s, me, script, turn, k - 1);
      assert (script + [turn])[k - 1] == script[k - 1];
    }
  }

  lemma PlayedAppend<R>(s: State<R>, me: nat, script: seq<Turn<R>>, turn: Turn<R>)
    requires me < |s.callers|
    ensures Played(s, me, script + [turn], |script| + 1) == Turned(Played(s, me, script, |script|), me, turn)
  {
    PlayedMore(s, me, script, turn, |script|);
    assert (script + [turn])[|script|] == turn;
  }

  lemma {:induction false} RunLast<R>(s: State<R>, steps: seq<Step<R>>, step: Step<R>)
    requires Legal(s, steps + [step])
    ensures Legal(s, steps) && Enabled(Run(s, steps), step)
    ensures Run(s, steps + [step]) == Apply(Run(s, steps), step)
    decreases |steps|
  {
    if steps == [] {
      assert steps + [step] == [step];
    } else {
      assert (steps + [step])[1..] == steps[1..] + [step];
      RunLast(Apply(s, steps[0]), steps[1..], step);
    }
  }

  lemma OthersAppend<R>(s: State<R>, me: nat, others: seq<Step<R>>, step: Step<R>)
    requires me < |s.callers|
    ensures TakeOthers(s, me, others + [step]) == TryOther(TakeOthers(s, me, others), me, step)
  {
    assert (others + [step])[..|others|] == others;
  }

  lemma ChosenIs<R>(s: State<R>, me: nat, choice: Choice)
    requires me < |s.callers| && CanMove(s, me, choice)
    ensures Chosen(s, me, choice) == Some(choice)
  {
  }

  /** One more step of a run is one more step of the others or one more turn of the script. */
  lemma OneMoreStep<R>(s: State<R>, me: nat, script: seq<Turn<R>>, others: seq<Step<R>>, step: Step<R>)
    requires me < |s.callers| && Enabled(TakeOthers(Played(s, me, script, |script|), me, others), step)
    ensures var t := Apply(TakeOthers(Played(s, me, script, |script|), me, others), step);
            if step.Move? && step.caller == me then
              TakeOthers(Played(s, me, script + [Turn(others, step.choice)], |script| + 1), me, []) == t
            else TakeOthers(Played(s, me, script, |script|), me, others + [step]) == t
  {
    if step.Move? && step.caller == me {
      ChosenIs(TakeOthers(Played(s, me, script, |script|), me, others), me, step.choice);
      PlayedAppend(s, me, script, Turn(others, step.choice));
    } else {
      OthersAppend(Played(s, me, script, |script|), me, others, step);
    }
  }

  /** Scripts leave nothing out: every run of the whole system around a call is what some script makes of it. */
  lemma {:induction false} EveryRunIsAScript<R>(s: State<R>, me: nat, steps: seq<Step<R>>)
    returns (script: seq<Turn<R>>, others: seq<Step<R>>)
    requires me < |s.callers| && Legal(s, steps)
    ensures Run(s, steps) == TakeOthers(Played(s, me, script, |script|), me, others)
    decreases |steps|
  {
    if steps == [] {
      script, others := [], [];
    } else {
      var n := |steps| - 1;
      var front, last := steps[..n], steps[n];
      assert steps == front + [last];
      RunLast(s, front, last);
      script, others := EveryRunIsAScript(s, me, front);
      OneMoreStep(s, me, script, others, last);
      if last.Move? && last.caller == me {
        script, others := script + [Turn(others, last.choice)], [];
      } else {
        others := others + [last];
      }
    }
  }

  lemma {:induction false} RunAppend<R>(s: State<R>, steps: seq<Step<R>>, step: Step<R>)
    requires Legal(s, steps) && Enabled(Run(s, steps), step)
    ensures Legal(s, steps + [step])
    ensures Run(s, steps + [step]) == Apply(Run(s, steps), step)
    decreases |steps|
  {
    if steps == [] {
      assert steps + [step] == [step];
    } else {
      assert (steps + [step])[1..] == steps[1..] + [step];
      RunAppend(Apply(s, steps[0]), steps[1..], step);
    }
  }

  /**
   The variables that the closure captures, with the positions of all callers.  history is the run so far;
   it only grows, so whatever a method does is part of one run of the transition system.
   */
  class Cell<R> {
    var future: Future<R>
    var data: Option<R>
    var waitNil: bool
    var tokens: nat
    var closed: bool
    var fault: bool
    var callers: seq<Caller<R>>
    ghost var history: seq<Step<R>>

    ghost function Abs(): State<R>
      reads this
    {
      State(future, data, waitNil, tokens, closed, fault, callers)
    }

    ghost predicate Valid()
      reads this
    {
      Legal(Init(), history) && Abs() == Run(Init(), history)
    }

    /** Caller me is at the given place. */
    ghost predicate At(me: nat, pc: Pc<R>)
      reads this
    {
      Valid() && me < |callers| && callers[me].pc == pc
    }

    constructor ()
      ensures Valid() && history == []
    {
      future := Running;
      data := None;
      tokens := LOCK_CAPACITY;
      waitNil, closed, fault := false, false, false;
      callers, history := [], [];
    }

    /** Another caller, f, or a cancellation takes a step. */
    method Take(step: Step<R>)
      requires Valid() && Enabled(Abs(), step)
      modifies this
      ensures Valid() && history == old(history) + [step] && Abs() == Apply(old(Abs()), step)
    {
      RunAppend(Init(), history, step);
      var t := Apply(State(future, data, waitNil, tokens, closed, fault, callers), step);
      future, data, waitNil := t.future, t.data, t.waitNil;
      tokens, closed, fault, callers := t.tokens, t.closed, t.fault, t.callers;
      history := history + [step];
    }

    /** Everything but caller me takes those of the given steps that are possible. */
    method Interfere(me: nat, others: seq<Step<R>>)
      requires Valid() && me < |callers|
      modifies this
      ensures At(me, old(callers[me].pc)) && old(history) <= history
      ensures Abs() == TakeOthers(old(Abs()), me, others)
    {
      for k := 0 to |others|
        invariant At(me, old(callers[me].pc)) && old(history) <= history
        invariant Abs() == TakeOthers(old(Abs()), me, others[..k])
      {
        assert others[..k + 1][..k] == others[..k];
        var step := others[k];
        if Enabled(State(future, data, waitNil, tokens, closed, fault, callers), step)
           && (!step.Move? || step.caller != me) {
          Take(step);
        }
      }
      assert others[..|others|] == others;
    }

    /** Notes that caller me has changed the variables by one operation, and is now at pc. */
    method Goto(me: nat, choice: Choice, pc: Pc<R>, ghost was: State<R>)
      requires me < |callers|
      requires Legal(Init(), history) && was == Run(Init(), history) && Enabled(was, Move(me, choice))
      requires Abs().(callers := callers[me := callers[me].(pc := pc)]) == Apply(was, Move(me, choice))
      modifies this`callers, this`history
      ensures At(me, pc) && history == old(history) + [Move(me, choice)] && Abs() == ApplyMove(was, me, choice)
    {
      RunAppend(Init(), history, Move(me, choice));
      callers := callers[me := callers[me].(pc := pc)];
      history := history + [Move(me, choice)];
    }

    method LoadWait(me: nat, turn: Turn<R>) returns (isNil: bool)
      requires At(me, Load) || At(me, Recheck)
      modifies this
      ensures old(history) <= history && Abs() == Turned(old(Abs()), me, turn)
      ensures At(me, if isNil then Read else if old(callers[me].pc).Load? then Acquire else Retrieve)
    {
      Interfere(me, turn.others);
      ghost var was := Abs();
      isNil := waitNil;
      Goto(me, Proceed, if isNil then Read else if callers[me].pc.Load? then Acquire else Retrieve, was);
    }

    /** Caller me is in a select, and none of its cases is ready. */
    ghost predicate Blocked(me: nat)
      reads this
    {
      && Valid() && me < |callers| && (callers[me].pc.Acquire? || callers[me].pc.Retrieve?)
      && !Enabled(Abs(), Move(me, Proceed)) && !Enabled(Abs(), Move(me, SeeDone))
    }

    /** One look at the lock and the context; None if neither is ready. */
    method TryLock(me: nat, turn: Turn<R>) returns (choice: Option<Choice>)
      requires At(me, Acquire)
      modifies this
      ensures old(history) <= history && Abs() == Turned(old(Abs()), me, turn)
      ensures match choice
              case None => At(me, Acquire) && Blocked(me)
              case Some(c) => At(me, if c == SeeDone then Done(CtxErr) else Recheck)
    {
      Interfere(me, turn.others);
      ghost var was := Abs();
      var ready := tokens > 0 || closed;
      if callers[me].ctxDone && (!ready || turn.choice == SeeDone) {
        Goto(me, SeeDone, Done(CtxErr), was);
        return Some(SeeDone);
      } else if ready {
        if tokens > 0 {
          tokens := tokens - 1;
        }
        Goto(me, Proceed, Recheck, was);
        return Some(Proceed);
      }
      return None;
    }

    /** One look at the result and the context; None if neither is there. */
    method TryData(me: nat, turn: Turn<R>) returns (choice: Option<Choice>, r: Option<R>)
      requires At(me, Retrieve)
      modifies this
      ensures old(history) <= history && Abs() == Turned(old(Abs()), me, turn)
      ensures match choice
              case None => At(me, Retrieve) && Blocked(me)
              case Some(SeeDone) => At(me, PutBack)
              case Some(Proceed) => r.Some? && At(me, Assign(r.value))
    {
      Interfere(me, turn.others);
      ghost var was := Abs();
      r := None;
      if callers[me].ctxDone && (!future.Buffered? || turn.choice == SeeDone) {
        Goto(me, SeeDone, PutBack, was);
        return Some(SeeDone), None;
      } else if future.Buffered? {
        r := Some(future.result);
        future := Received(future.result);
        Goto(me, Proceed, Assign(r.value), was);
        return Some(Proceed), r;
      }
      return None, None;
    }

    /** Sends the token back.  The channel is open and has room for it, so this does not block. */
    method GiveBack(me: nat, turn: Turn<R>)
      requires At(me, PutBack)
      modifies this
      ensures old(history) <= history && At(me, Done(CtxErr)) && Abs() == Turned(old(Abs()), me, turn)
    {
      Interfere(me, turn.others);
      NoRaceNoFault(history);
      assert !closed && tokens < LOCK_CAPACITY;
      ghost var was := Abs();
      tokens := tokens + 1;
      Goto(me, Proceed, Done(CtxErr), was);
    }

    method Store(me: nat, r: R, turn: Turn<R>)
      requires At(me, Assign(r))
      modifies this
      ensures old(history) <= history && At(me, Publish) && Abs() == Turned(old(Abs()), me, turn)
    {
      Interfere(me, turn.others);
      ghost var was := Abs();
      data := Some(r);
      Goto(me, Proceed, Publish, was);
    }

    method Announce(me: nat, turn: Turn<R>)
      requires At(me, Publish)
      modifies this
      ensures old(history) <= history && At(me, CloseLock) && Abs() == Turned(old(Abs()), me, turn)
    {
      Interfere(me, turn.others);
      ghost var was := Abs();
      waitNil := true;
      Goto(me, Proceed, CloseLock, was);
    }

    /** Wakes up whoever waits for the lock, which is closed only here. */
    method Wake(me: nat, turn: Turn<R>)
      requires At(me, CloseLock)
      modifies this
      ensures old(history) <= history && At(me, Read) && Abs() == Turned(old(Abs()), me, turn)
    {
      Interfere(me, turn.others);
      NoRaceNoFault(history);
      assert !closed;
      ghost var was := Abs();
      closed := true;
      Goto(me, Proceed, Read, was);
    }

    method ReadData(me: nat, turn: Turn<R>) returns (ret: Return<R>)
      requires At(me, Read)
      modifies this
      ensures old(history) <= history && At(me, Done(ret)) && Abs() == Turned(old(Abs()), me, turn)
    {
      Interfere(me, turn.others);
      ghost var was := Abs();
      ret := Value(data);
      Goto(me, Proceed, Done(ret), was);
    }

    /** So many turns of the script were played; play has the states. */
    ghost predicate Progress(play: nat -> State<R>, before: seq<Step<R>>, script: seq<Turn<R>>, used: nat)
      reads this
    {
      before <= history && Abs() == play(used)
    }

    /** Blocks until the lock has a token or is closed, or the context is done, or else the script has ended. */
    method SelectLock(me: nat, script: seq<Turn<R>>, start: nat, ghost play: nat -> State<R>, ghost before: seq<Step<R>>)
      returns (next: nat, choice: Option<Choice>)
      requires At(me, Acquire) && Tracks(play, me, script) && Progress(play, before, script, start)
      modifies this
      ensures Progress(play, before, script, next)
      ensures match choice
              case None => Blocked(me) && next > |script|
              case Some(c) => At(me, if c == SeeDone then Done(CtxErr) else Recheck)
    {
      next := start;
      while true
        invariant At(me, Acquire) && Progress(play, before, script, next)
        decreases |script| - next
      {
        choice := TryLock(me, TurnAt(script, next));
        next := next + 1;
        if choice.Some? || next > |script| {
          return;
        }
      }
    }

    /** Blocks until the result is there, or the context is done, or else the script has ended. */
    method SelectData(me: nat, script: seq<Turn<R>>, start: nat, ghost play: nat -> State<R>, ghost before: seq<Step<R>>)
      returns (next: nat, choice: Option<Choice>, r: Option<R>)
      requires At(me, Retrieve) && Tracks(play, me, script) && Progress(play, before, script, start)
      modifies this
      ensures Progress(play, before, script, next)
      ensures match choice
              case None => Blocked(me) && next > |script|
              case Some(SeeDone) => At(me, PutBack)
              case Some(Proceed) => r.Some? && At(me, Assign(r.value))
    {
      next := start;
      while true
        invariant At(me, Retrieve) && Progress(play, before, script, next)
        decreases |script| - next
      {
        choice, r := TryData(me, TurnAt(script, next));
        next := next + 1;
        if choice.Some? || next > |script| {
          return;
        }
      }
    }

    /**
     The closure.  The script says what happens in between, and after its end nothing else does.  All
     variables become exactly what the turns that were used make of them.  The result is None if the call is
     blocked in a select after the script's end, and otherwise what it returns: the error of its own
     cancelled context, or the one result with which f has finished.
     */
    method Get(script: seq<Turn<R>>) returns (me: nat, used: nat, ret: Option<Return<R>>)
      requires Valid()
      modifies this
      ensures Valid() && old(history) + [Call] <= history
      ensures me == old(|callers|) && me < |callers|
      ensures Abs() == Played(Apply(old(Abs()), Call), me, script, used)
      ensures match ret
              case None => Blocked(me) && used > |script|
              case Some(CtxErr) => callers[me].pc == Done(CtxErr) && callers[me].ctxDone
              case Some(Value(r)) =>
                && callers[me].pc == Done(Value(r))
                && !future.Running? && r == Some(future.result) && Finish(future.result) in history
    {
      me := |callers|;
      Take(Call);
      ghost var play := Plays(Abs(), me, script);
      used, ret := Body(me, script, play, history);
      if ret.Some? {
        OneResult(history, me);
      }
    }

    /** The operations of the closure, in its order. */
    method Body(me: nat, script: seq<Turn<R>>, ghost play: nat -> State<R>, ghost before: seq<Step<R>>)
      returns (used: nat, ret: Option<Return<R>>)
      requires At(me, Load) && Tracks(play, me, script) && Progress(play, before, script, 0)
      modifies this
      ensures Progress(play, before, script, used)
      ensures if ret == None then Blocked(me) && used > |script| else At(me, Done(ret.value))
    {
      // without the lock, in case the result is there
      var isNil := LoadWait(me, TurnAt(script, 0));
      if isNil {
        var value := ReadData(me, TurnAt(script, 1));
        return 2, Some(value);
      }
      var next, choice := SelectLock(me, script, 1, play, before);
      if choice == None {
        return next, None;
      } else if choice == Some(SeeDone) {
        return next, Some(CtxErr);
      }
      used, ret := Locked(me, script, next, play, before);
    }

    /** The part of the closure with the lock. */
    method Locked(me: nat, script: seq<Turn<R>>, start: nat, ghost play: nat -> State<R>, ghost before: seq<Step<R>>)
      returns (used: nat, ret: Option<Return<R>>)
      requires At(me, Recheck) && Tracks(play, me, script) && Progress(play, before, script, start)
      modifies this
      ensures Progress(play, before, script, used)
      ensures if ret == None then Blocked(me) && used > |script| else At(me, Done(ret.value))
    {
      // somebody else may have been faster
      var isNil := LoadWait(me, TurnAt(script, start));
      if isNil {
        var value := ReadData(me, TurnAt(script, start + 1));
        return start + 2, Some(value);
      }
      used, ret := Await(me, script, start + 1, play, before);
    }

    /** Waits for the result, and gives the lock up if the context is done first. */
    method Await(me: nat, script: seq<Turn<R>>, start: nat, ghost play: nat -> State<R>, ghost before: seq<Step<R>>)
      returns (used: nat, ret: Option<Return<R>>)
      requires At(me, Retrieve) && Tracks(play, me, script) && Progress(play, before, script, start)
      modifies this
      ensures Progress(play, before, script, used)
      ensures if ret == None then Blocked(me) && used > |script| else At(me, Done(ret.value))
    {
      var next, choice, r := SelectData(me, script, start, play, before);
      if choice == None {
        return next, None;
      } else if choice == Some(SeeDone) {
        GiveBack(me, TurnAt(script, next));
        return next + 1, Some(CtxErr);
      }
      var value := Fulfil(me, r.value, script, next, play, before);
      return next + 4, Some(value);
    }

    /** Stores the result, announces it, wakes up the others, and reads it back. */
    method Fulfil(me: nat, r: R, script: seq<Turn<R>>, start: nat, ghost play: nat -> State<R>, ghost before: seq<Step<R>>)
      returns (ret: Return<R>)
      requires At(me, Assign(r)) && Tracks(play, me, script) && Progress(play, before, script, start)
      modifies this
      ensures Progress(play, before, script, start + 4) && At(me, Done(ret))
    {
      Store(me, r, TurnAt(script, start));
      Announce(me, TurnAt(script, start + 1));
      Wake(me, TurnAt(script, start + 2));
      ret := ReadData(me, TurnAt(script, start + 3));
    }
  }
}
