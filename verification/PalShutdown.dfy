/**
 The PAL's shutdown protocol: one shared counter that keeps the interrupt thread
 alive while threads are inside the enclave (src/pal/src/pal_thread_counter.c,
 src/pal/src/pal_interrupt_thread.c), and its users in src/pal/src/pal_api.c.

 One controller thread initialises and destroys the enclave once; any number of
 threads execute. Every access to the counter, `is_running` or the enclave id is a
 step of its own. A futex wait may return at any time: it has a timeout.
 */
module PalShutdown {
  import opened Util

  type Tid = nat

  /** `occlum_pal_init` up to the running state, then `occlum_pal_destroy`. */
  datatype Controller =
    | Boot
    | StartFlag
    | StartInc
    | StartCreate
    | StartUndo
    | Up
    | StopFlag
    | StopDec
    | StopJoin
    | Destroy(joined: bool)
    | Down

  /** The interrupt thread's loop. */
  datatype Interrupt = NotStarted | Broadcast | FirstGet | FutexWait | SecondGet | Exited

  /** `occlum_pal_exec`; `late`: it counted itself in after the interrupt thread had left. */
  datatype Exec = Outside | ReadEid | Inc | Ecall(late: bool) | Dec(late: bool)

  datatype State = State(
    counter: int,
    isRunning: bool,
    enclave: bool,
    ctl: Controller,
    interrupt: Interrupt,
    execs: map<Tid, Exec>)

  datatype Actor = Ctl(ok: bool) | Int | Ex(t: Tid)

  ghost predicate Init(s: State) {
    && s.counter == 0 && !s.isRunning && !s.enclave && s.ctl == Boot && s.interrupt == NotStarted
    && forall t :: t in s.execs ==> s.execs[t] == Outside
  }

  predicate Enabled(s: State, a: Actor) {
    match a
    case Ctl(ok) => s.ctl != Down && (s.ctl == StopJoin && ok ==> s.interrupt == Exited)
    case Int => !s.interrupt.NotStarted? && !s.interrupt.Exited?
    case Ex(t) => t in s.execs
  }

  /** `ok` is the outcome of creating or joining the interrupt thread. */
  function ActCtl(s: State, ok: bool): State {
    match s.ctl
    case Boot => s.(enclave := true, ctl := StartFlag)
    case StartFlag => s.(isRunning := true, ctl := StartInc)
    case StartInc => s.(counter := s.counter + 1, ctl := StartCreate)
    case StartCreate =>
      if ok then s.(interrupt := Broadcast, ctl := Up) else s.(isRunning := false, ctl := StartUndo)
    case StartUndo => s.(counter := s.counter - 1, ctl := Destroy(false))
    case Up => s.(ctl := StopFlag)
    case StopFlag => if s.isRunning then s.(isRunning := false, ctl := StopDec) else s.(ctl := Destroy(false))
    case StopDec => s.(counter := s.counter - 1, ctl := StopJoin)
    case StopJoin => s.(ctl := Destroy(ok))
    case Destroy(_) => s.(enclave := false, ctl := Down)
    case Down => s
  }

  function ActInt(s: State): State {
    match s.interrupt
    case Broadcast => s.(interrupt := FirstGet)
    case FirstGet => s.(interrupt := if s.counter == 0 then Exited else FutexWait)
    case FutexWait => s.(interrupt := SecondGet)
    case SecondGet => s.(interrupt := if s.counter > 0 then Broadcast else Exited)
    case _ => s
  }

  function ActExec(s: State, t: Tid): State
    requires t in s.execs
  {
    match s.execs[t]
    case Outside => s.(execs := s.execs[t := ReadEid])
    case ReadEid => s.(execs := s.execs[t := if s.enclave then Inc else Outside])
    case Inc => s.(counter := s.counter + 1, execs := s.execs[t := Ecall(s.interrupt == Exited)])
    case Ecall(late) => s.(execs := s.execs[t := Dec(late)])
    case Dec(_) => s.(counter := s.counter - 1, execs := s.execs[t := Outside])
  }

  function Act(s: State, a: Actor): State
    requires Enabled(s, a)
  {
    match a
    case Ctl(ok) => ActCtl(s, ok)
    case Int => ActInt(s)
    case Ex(t) => ActExec(s, t)
  }

  ghost predicate Run(trace: seq<State>, actors: seq<Actor>) {
    && |trace| == |actors| + 1
    && Init(trace[0])
    && forall i :: 0 <= i < |actors| ==> StepAt(trace, actors, i)
  }

  ghost predicate StepAt(trace: seq<State>, actors: seq<Actor>, i: int)
    requires 0 <= i < |actors| < |trace|
  {
    Enabled(trace[i], actors[i]) && trace[i + 1] == Act(trace[i], actors[i])
  }

  // ---- The invariant

  /** The interrupt thread's own reference on the counter. */
  predicate HasReference(c: Controller) {
    c.StartCreate? || c.StartUndo? || c.Up? || c.StopFlag? || c.StopDec?
  }

  function Weight(e: Exec): nat {
    if e.Ecall? || e.Dec? then 1 else 0
  }

  function Weights(execs: map<Tid, Exec>): map<Tid, nat> {
    map t | t in execs :: Weight(execs[t])
  }

  ghost function Inside(execs: map<Tid, Exec>): nat {
    Total(Weights(execs))
  }

  ghost predicate ControllerOK(s: State) {
    && (s.isRunning <==> s.ctl.StartInc? || s.ctl.StartCreate? || s.ctl.Up? || s.ctl.StopFlag?)
    && (!s.interrupt.NotStarted? ==>
          s.ctl.Up? || s.ctl.StopFlag? || s.ctl.StopDec? || s.ctl.StopJoin? || s.ctl.Destroy? || s.ctl.Down?)
    && (s.ctl == Destroy(true) ==> s.interrupt == Exited)
    && (s.interrupt == Exited ==> s.ctl.StopJoin? || s.ctl.Destroy? || s.ctl.Down?)
  }

  ghost predicate CounterOK(s: State) {
    s.counter == Inside(s.execs) + (if HasReference(s.ctl) then 1 else 0)
  }

  /** Whoever is inside came in late exactly if the interrupt thread has left. */
  ghost predicate LateOK(s: State) {
    forall t :: t in s.execs && Weight(s.execs[t]) > 0 ==> (s.execs[t].late <==> s.interrupt == Exited)
  }

  ghost predicate Inv(s: State) {
    CounterOK(s) && ControllerOK(s) && LateOK(s)
  }

  lemma WeightOf(execs: map<Tid, Exec>, t: Tid)
    requires t in execs
    ensures Weight(execs[t]) <= Inside(execs)
  {
    SumOverRemove(Weights(execs).Keys, Weights(execs), t);
  }

  /** A zero counter means nobody is inside. */
  lemma NobodyInside(execs: map<Tid, Exec>)
    requires Inside(execs) == 0
    ensures forall t :: t in execs ==> Weight(execs[t]) == 0
  {
    forall t | t in execs
      ensures Weight(execs[t]) == 0
    {
      WeightOf(execs, t);
    }
  }

  lemma InitInv(s: State)
    requires Init(s)
    ensures Inv(s)
  {
    SumOverZero(Weights(s.execs).Keys, Weights(s.execs));
  }

  lemma ExecCounter(s: State, t: Tid)
    requires CounterOK(s) && t in s.execs
    ensures CounterOK(ActExec(s, t))
  {
    match s.execs[t]
    case Outside => InsideUpdate(s.execs, t, ReadEid);
    case ReadEid => InsideUpdate(s.execs, t, if s.enclave then Inc else Outside);
    case Inc => InsideUpdate(s.execs, t, Ecall(s.interrupt == Exited));
    case Ecall(late) => InsideUpdate(s.execs, t, Dec(late));
    case Dec(_) => InsideUpdate(s.execs, t, Outside);
  }

  lemma InsideUpdate(execs: map<Tid, Exec>, t: Tid, e: Exec)
    requires t in execs
    ensures Inside(execs[t := e]) == Inside(execs) + Weight(e) - Weight(execs[t])
  {
    TotalUpdate(Weights(execs), t, Weight(e));
    assert Weights(execs[t := e]) == Weights(execs)[t := Weight(e)];
  }

  lemma ExecLate(s: State, t: Tid)
    requires LateOK(s) && t in s.execs
    ensures LateOK(ActExec(s, t))
  {
  }

  lemma ExecInv(s: State, t: Tid)
    requires Inv(s) && t in s.execs
    ensures Inv(ActExec(s, t))
  {
    ExecCounter(s, t);
    ExecLate(s, t);
  }

  lemma ControlInv(s: State, ok: bool)
    requires Inv(s) && Enabled(s, Ctl(ok))
    ensures Inv(ActCtl(s, ok))
  {
  }

  lemma InterruptInv(s: State)
    requires Inv(s) && Enabled(s, Int)
    ensures Inv(ActInt(s))
  {
    if s.counter == 0 {
      NobodyInside(s.execs);
    }
  }

  lemma {:induction false} RunInv(trace: seq<State>, actors: seq<Actor>, i: nat)
    requires Run(trace, actors) && i < |trace|
    ensures Inv(trace[i])
  {
    if i == 0 {
      InitInv(trace[0]);
    } else {
      RunInv(trace, actors, i - 1);
      assert StepAt(trace, actors, i - 1);
      match actors[i - 1]
      case Ctl(ok) => ControlInv(trace[i - 1], ok);
      case Int => InterruptInv(trace[i - 1]);
      case Ex(t) => ExecInv(trace[i - 1], t);
    }
  }

  // ---- Results

  /** The step decrements the counter. */
  predicate Decrements(s: State, a: Actor) {
    match a
    case Ctl(_) => s.ctl.StartUndo? || s.ctl.StopDec?
    case Int => false
    case Ex(t) => t in s.execs && s.execs[t].Dec?
  }

  /**
   The counter is always the interrupt thread's reference plus the threads between
   their increment and decrement, so the assertion after a decrement never fails and
   the interrupt thread cannot leave before it is told to stop.
   */
  lemma CounterExact(trace: seq<State>, actors: seq<Actor>, i: nat)
    requires Run(trace, actors) && i < |trace|
    ensures trace[i].counter == Inside(trace[i].execs) + (if HasReference(trace[i].ctl) then 1 else 0)
    ensures i < |actors| && Decrements(trace[i], actors[i]) ==> trace[i + 1].counter >= 0
    ensures trace[i].interrupt == Exited ==> !trace[i].isRunning && !HasReference(trace[i].ctl)
  {
    RunInv(trace, actors, i);
    if i < |actors| {
      RunInv(trace, actors, i + 1);
      assert StepAt(trace, actors, i);
    }
  }

  /**
   When the enclave is destroyed after a successful join, whoever is inside the exec
   ECall counted itself in only after the interrupt thread had left.
   */
  lemma InsideOnlyIfLate(trace: seq<State>, actors: seq<Actor>, i: nat, t: Tid)
    requires Run(trace, actors) && i < |trace| && trace[i].ctl == Destroy(true)
    requires t in trace[i].execs && Weight(trace[i].execs[t]) > 0
    ensures trace[i].execs[t].late
  {
    RunInv(trace, actors, i);
  }

  /**
   Whether or not the join succeeded, the enclave is destroyed with nobody inside
   exactly if the counter reads zero just before; the code does not look.
   */
  lemma DestroySafeExactly(trace: seq<State>, actors: seq<Actor>, i: nat)
    requires Run(trace, actors) && i < |trace| && trace[i].ctl.Destroy?
    ensures trace[i].counter == 0 <==> forall t :: t in trace[i].execs ==> Weight(trace[i].execs[t]) == 0
  {
    RunInv(trace, actors, i);
    var execs := trace[i].execs;
    if trace[i].counter == 0 {
      NobodyInside(execs);
    } else if forall t :: t in execs ==> Weight(execs[t]) == 0 {
      SumOverZero(Weights(execs).Keys, Weights(execs));
    }
  }

  /** From step `b` on, no call is short of its increment and none begins. */
  ghost predicate NoNewcomers(trace: seq<State>, actors: seq<Actor>, b: nat)
    requires |trace| == |actors| + 1 && b < |trace|
  {
    && (forall t :: t in trace[b].execs ==> !trace[b].execs[t].ReadEid? && !trace[b].execs[t].Inc?)
    && forall i :: b <= i < |actors| ==> !Begins(trace[i], actors[i])
  }

  predicate Begins(s: State, a: Actor) {
    a.Ex? && a.t in s.execs && s.execs[a.t] == Outside
  }

  ghost predicate Settled(s: State) {
    forall t :: t in s.execs ==>
      !s.execs[t].ReadEid? && !s.execs[t].Inc? && (Weight(s.execs[t]) > 0 ==> !s.execs[t].late)
  }

  lemma {:induction false} StaysSettled(trace: seq<State>, actors: seq<Actor>, b: nat, i: nat)
    requires Run(trace, actors) && b <= i < |trace|
    requires Settled(trace[b]) && NoNewcomers(trace, actors, b)
    ensures Settled(trace[i])
  {
    if b < i {
      StaysSettled(trace, actors, b, i - 1);
      assert StepAt(trace, actors, i - 1);
      assert !Begins(trace[i - 1], actors[i - 1]);
      SettledStep(trace[i - 1], actors[i - 1]);
    }
  }

  lemma SettledStep(s: State, a: Actor)
    requires Settled(s) && Enabled(s, a) && !Begins(s, a)
    ensures Settled(Act(s, a))
  {
  }

  /**
   If no exec call is still short of its increment when destroy begins and none starts
   later, and joining the interrupt thread succeeds, then the enclave is destroyed with
   no thread inside the exec ECall.
   */
  lemma SafeShutdown(trace: seq<State>, actors: seq<Actor>, b: nat, i: nat)
    requires Run(trace, actors) && b <= i < |trace|
    requires trace[b].ctl == Up && NoNewcomers(trace, actors, b)
    requires trace[i].ctl == Destroy(true)
    ensures forall t :: t in trace[i].execs ==> trace[i].execs[t] == Outside
  {
    RunInv(trace, actors, b);
    StaysSettled(trace, actors, b, i);
    RunInv(trace, actors, i);
  }

  // ---- The condition is needed

  lemma Extend(trace: seq<State>, actors: seq<Actor>, a: Actor) returns (trace': seq<State>, actors': seq<Actor>)
    requires Run(trace, actors) && Enabled(trace[|trace| - 1], a)
    ensures Run(trace', actors') && trace' == trace + [Act(trace[|trace| - 1], a)] && actors' == actors + [a]
  {
    trace' := trace + [Act(trace[|trace| - 1], a)];
    actors' := actors + [a];
    forall i | 0 <= i < |actors'|
      ensures StepAt(trace', actors', i)
    {
      assert i < |actors| ==> StepAt(trace, actors, i);
    }
  }

  lemma Started() returns (trace: seq<State>, actors: seq<Actor>)
    ensures Run(trace, actors)
    ensures trace[|trace| - 1] == State(1, true, true, Up, Broadcast, map[0 := Inc])
  {
    trace, actors := [State(0, false, false, Boot, NotStarted, map[0 := Outside])], [];
    trace, actors := Extend(trace, actors, Ctl(true));
    trace, actors := Extend(trace, actors, Ctl(true));
    trace, actors := Extend(trace, actors, Ctl(true));
    trace, actors := Extend(trace, actors, Ctl(true));
    trace, actors := Extend(trace, actors, Ex(0));
    trace, actors := Extend(trace, actors, Ex(0));
  }

  lemma Joined() returns (trace: seq<State>, actors: seq<Actor>)
    ensures Run(trace, actors)
    ensures trace[|trace| - 1] == State(0, false, true, Destroy(true), Exited, map[0 := Inc])
  {
    trace, actors := Started();
    trace, actors := Extend(trace, actors, Ctl(true));
    trace, actors := Extend(trace, actors, Ctl(true));
    trace, actors := Extend(trace, actors, Ctl(true));
    trace, actors := Extend(trace, actors, Int);
    trace, actors := Extend(trace, actors, Int);
    trace, actors := Extend(trace, actors, Ctl(true));
  }

  /**
   A call that has read the enclave id but not yet incremented the counter when destroy
   begins can be inside the ECall when the enclave is gone, although the join succeeded.
   */
  lemma DestroyedUnderLateCall() returns (trace: seq<State>, actors: seq<Actor>)
    ensures Run(trace, actors)
    ensures var s := trace[|trace| - 1];
      s.ctl == Down && !s.enclave && 0 in s.execs && s.execs[0].Ecall?
  {
    trace, actors := Joined();
    trace, actors := Extend(trace, actors, Ex(0));
    trace, actors := Extend(trace, actors, Ctl(true));
  }

  // ---- Calls without an enclave, and the end of the interrupt thread

  /** Not yet past the test of the enclave id. */
  predicate NotIn(e: Exec) {
    e.Outside? || e.ReadEid?
  }

  /** While there is no enclave, a call that has not passed its test never counts itself in. */
  lemma {:induction false} NoEnclaveNoEntry(trace: seq<State>, actors: seq<Actor>, i: nat, j: nat, t: Tid)
    requires Run(trace, actors) && i <= j < |trace|
    requires forall k :: i <= k <= j ==> !trace[k].enclave
    requires t in trace[i].execs && NotIn(trace[i].execs[t])
    ensures t in trace[j].execs && NotIn(trace[j].execs[t])
  {
    if i < j {
      NoEnclaveNoEntry(trace, actors, i, j - 1, t);
      assert StepAt(trace, actors, j - 1);
    }
  }

  /** The enclave exists exactly from its creation to its destruction. */
  lemma {:induction false} EnclaveExact(trace: seq<State>, actors: seq<Actor>, i: nat)
    requires Run(trace, actors) && i < |trace|
    ensures trace[i].enclave <==> !trace[i].ctl.Boot? && !trace[i].ctl.Down?
  {
    if i > 0 {
      EnclaveExact(trace, actors, i - 1);
      assert StepAt(trace, actors, i - 1);
    }
  }

  function LeaveIn(s: State): nat {
    match s.interrupt
    case Broadcast => 2
    case FirstGet => 1
    case FutexWait => 2
    case SecondGet => 1
    case _ => 0
  }

  /** Nobody is inside. */
  ghost predicate Deserted(execs: map<Tid, Exec>) {
    forall t :: t in execs ==> Weight(execs[t]) == 0
  }

  lemma LeavesSoon(s: State)
    requires Enabled(s, Int)
    ensures ActInt(s).interrupt == Exited ==> s.counter <= 0
    ensures s.counter == 0 ==> LeaveIn(ActInt(s)) < LeaveIn(s) && (LeaveIn(s) == 1 ==> ActInt(s).interrupt == Exited)
  {
  }

  lemma {:induction false} InterruptStarted(trace: seq<State>, actors: seq<Actor>, i: nat)
    requires Run(trace, actors) && i < |trace|
    ensures trace[i].ctl.Up? || trace[i].ctl.StopFlag? || trace[i].ctl.StopDec? || trace[i].ctl.StopJoin? ==>
      !trace[i].interrupt.NotStarted?
  {
    if i > 0 {
      InterruptStarted(trace, actors, i - 1);
      RunInv(trace, actors, i - 1);
      assert StepAt(trace, actors, i - 1);
    }
  }

  lemma {:induction false} InterruptLeaves(trace: seq<State>, actors: seq<Actor>)
    returns (trace': seq<State>, actors': seq<Actor>)
    requires Run(trace, actors) && trace[|trace| - 1].counter == 0 && !trace[|trace| - 1].interrupt.NotStarted?
    ensures Run(trace', actors') && trace <= trace' && |trace'| <= |trace| + LeaveIn(trace[|trace| - 1])
    ensures trace'[|trace'| - 1] == trace[|trace| - 1].(interrupt := Exited)
    decreases LeaveIn(trace[|trace| - 1])
  {
    var s := trace[|trace| - 1];
    if s.interrupt == Exited {
      trace', actors' := trace, actors;
    } else {
      LeavesSoon(s);
      trace', actors' := Extend(trace, actors, Int);
      trace', actors' := InterruptLeaves(trace', actors');
    }
  }

  /**
   The interrupt thread cannot outlive a zero counter: when destroy waits to join it and
   nobody is inside, at most two of its own steps let the join succeed.
   */
  lemma JoinCompletes(trace: seq<State>, actors: seq<Actor>) returns (trace': seq<State>, actors': seq<Actor>)
    requires Run(trace, actors) && trace[|trace| - 1].ctl == StopJoin
    requires Deserted(trace[|trace| - 1].execs)
    ensures Run(trace', actors') && trace <= trace' && |trace'| <= |trace| + 2
    ensures Enabled(trace'[|trace'| - 1], Ctl(true)) && trace'[|trace'| - 1].ctl == StopJoin
  {
    var s := trace[|trace| - 1];
    RunInv(trace, actors, |trace| - 1);
    InterruptStarted(trace, actors, |trace| - 1);
    SumOverZero(Weights(s.execs).Keys, Weights(s.execs));
    trace', actors' := InterruptLeaves(trace, actors);
  }
}
