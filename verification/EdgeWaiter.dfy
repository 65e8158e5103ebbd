/**
 The edge-triggered waiter of a poller (src/libos/src/events/waiter/edge.rs): a 32-bit
 state word shared by one waiting thread and any number of wakers, and the waiting
 thread's host eventfd.

 The eventfd belongs to the thread, so it may become readable for other reasons too.
 `wakes`, `reported`, `lost` and `pending` count the calls of `wake`: all of them, those
 a successful wait has reported, those a failed wait has swept away, and those since.
 */
module EdgeWaiter {

  type Tid = nat

  const INIT: nat := 0
  const NOTIFIED: nat := 1
  const WAIT: nat := 0xFFFF_FFFF

  /** `wait` (`once` is false) goes back to sleep after a spurious wake-up, `wait_mut` does not. */
  datatype PC =
    | Out
    | Polling(once: bool)
    | Reading(once: bool)
    | Deciding(once: bool)
    | Failing

  datatype Outcome = None | Success | Failure

  datatype State = State(
    word: nat,
    readable: bool,
    waiter: PC,
    writing: set<Tid>,
    last: Outcome,
    wakes: nat,
    reported: nat,
    lost: nat,
    pending: nat)

  /** `Fail(read)`: a signal or a timeout; on a timeout the host still reads the eventfd. */
  datatype Step = Start(once: bool) | Go | Fail(read: bool) | Wake(t: Tid) | Write(t: Tid) | Spurious

  ghost predicate Init(s: State) {
    s == State(INIT, s.readable, Out, {}, None, 0, 0, 0, 0)
  }

  predicate Enabled(s: State, e: Step) {
    match e
    case Start(_) => s.waiter.Out?
    case Go => !s.waiter.Out? && (s.waiter.Polling? ==> s.readable)
    case Fail(_) => s.waiter.Polling?
    case Wake(t) => t !in s.writing
    case Write(t) => t in s.writing
    case Spurious => true
  }

  function Report(s: State): State {
    s.(word := INIT, waiter := Out, last := Success, reported := s.reported + s.pending, pending := 0)
  }

  /** `fetch_sub(1)` wraps around. */
  function ActStart(s: State, once: bool): State {
    if s.word == NOTIFIED then Report(s)
    else s.(word := if s.word == 0 then WAIT else s.word - 1, waiter := Polling(once))
  }

  function ActGo(s: State): State
    requires !s.waiter.Out?
  {
    match s.waiter
    case Polling(once) => s.(waiter := Reading(once))
    case Reading(once) => s.(readable := false, waiter := Deciding(once))
    case Deciding(once) => if once || s.word == NOTIFIED then Report(s) else s.(waiter := Polling(once))
    case Failing => s.(word := INIT, waiter := Out, last := Failure, lost := s.lost + s.pending, pending := 0)
  }

  function Act(s: State, e: Step): State
    requires Enabled(s, e)
  {
    match e
    case Start(once) => ActStart(s, once)
    case Go => ActGo(s)
    case Fail(read) => s.(waiter := Failing, readable := s.readable && !read)
    case Wake(t) =>
      s.(word := NOTIFIED, writing := if s.word == WAIT then s.writing + {t} else s.writing,
         wakes := s.wakes + 1, pending := s.pending + 1)
    case Write(t) => s.(readable := true, writing := s.writing - {t})
    case Spurious => s.(readable := true)
  }

  ghost predicate StepAt(trace: seq<State>, steps: seq<Step>, i: int)
    requires 0 <= i < |steps| < |trace|
  {
    Enabled(trace[i], steps[i]) && trace[i + 1] == Act(trace[i], steps[i])
  }

  ghost predicate Run(trace: seq<State>, steps: seq<Step>) {
    && |trace| == |steps| + 1
    && Init(trace[0])
    && forall i :: 0 <= i < |steps| ==> StepAt(trace, steps, i)
  }

  ghost predicate Inv(s: State) {
    && s.word in {INIT, NOTIFIED, WAIT}
    && (s.word == INIT ==> s.waiter.Out?) && (s.word == WAIT ==> !s.waiter.Out?)
    && (s.word == NOTIFIED <==> s.pending > 0)
    && s.wakes == s.reported + s.lost + s.pending
    && (s.waiter.Polling? && s.word == NOTIFIED ==> s.readable || s.writing != {})
  }

  lemma StepInv(s: State, e: Step)
    requires Inv(s) && Enabled(s, e)
    ensures Inv(Act(s, e))
  {
    if e.Wake? && s.word == WAIT {
      assert e.t in Act(s, e).writing;
    }
  }

  lemma {:induction false} RunInv(trace: seq<State>, steps: seq<Step>, i: nat)
    requires Run(trace, steps) && i < |trace|
    ensures Inv(trace[i])
  {
    if i > 0 {
      RunInv(trace, steps, i - 1);
      assert StepAt(trace, steps, i - 1);
      StepInv(trace[i - 1], steps[i - 1]);
    }
  }

  // ---- Results

  /** Asleep in the host with its eventfd not readable. */
  predicate Asleep(s: State) {
    s.waiter.Polling? && !s.readable
  }

  /**
   In every run the state word is one of its three values and says whether a wake-up is
   pending; every wake-up is reported, lost or pending; and a sleeping waiter with a
   pending wake-up is about to have its eventfd written.
   */
  lemma NoWakeupForgotten(trace: seq<State>, steps: seq<Step>, i: nat)
    requires Run(trace, steps) && i < |trace|
    ensures var s := trace[i];
      && s.word in {INIT, NOTIFIED, WAIT} && (s.word == NOTIFIED <==> s.pending > 0)
      && s.wakes == s.reported + s.lost + s.pending
      && (Asleep(s) && s.pending > 0 ==> s.writing != {})
  {
    RunInv(trace, steps, i);
  }

  /** The wait entered in the step after `trace[a]` is still going on in `trace[b]`. */
  ghost predicate Waits(trace: seq<State>, steps: seq<Step>, a: nat, b: nat) {
    && a < b < |trace| && |trace| == |steps| + 1 && steps[a].Start?
    && forall k :: a < k <= b ==> !trace[k].waiter.Out?
  }

  /** While it goes on nothing is reported or lost, and it is the same kind of wait. */
  lemma {:induction false} DuringWait(trace: seq<State>, steps: seq<Step>, a: nat, b: nat)
    requires Run(trace, steps) && Waits(trace, steps, a, b)
    ensures trace[b].reported == trace[a].reported && trace[b].lost == trace[a].lost
    ensures trace[a].pending == 0
    ensures trace[b].waiter.Failing? || trace[b].waiter.once == steps[a].once
    decreases b
  {
    assert StepAt(trace, steps, b - 1);
    if b == a + 1 {
      RunInv(trace, steps, a);
    } else {
      DuringWait(trace, steps, a, b - 1);
      assert !trace[b - 1].waiter.Out? && !trace[b].waiter.Out?;
    }
  }

  /**
   A wait that fails loses exactly the wake-ups that came since it fell asleep: none if
   and only if none came. One that succeeds loses nothing, and if it is `wait`, not
   `wait_mut`, it reports at least one.
   */
  lemma WaitEnds(trace: seq<State>, steps: seq<Step>, a: nat, b: nat)
    requires Run(trace, steps) && Waits(trace, steps, a, b)
    requires b + 1 < |trace| && trace[b + 1].waiter.Out?
    ensures var since := trace[b].wakes - trace[a].wakes;
      if trace[b].waiter.Failing? then
        trace[b + 1].last == Failure && trace[b + 1].lost == trace[a].lost + since
        && trace[b + 1].reported == trace[a].reported
      else
        trace[b + 1].last == Success && trace[b + 1].reported == trace[a].reported + since
        && trace[b + 1].lost == trace[a].lost && (!steps[a].once ==> since > 0)
  {
    DuringWait(trace, steps, a, b);
    RunInv(trace, steps, a);
    RunInv(trace, steps, b);
    assert StepAt(trace, steps, b);
    assert !trace[b].waiter.Out?;
  }
}
