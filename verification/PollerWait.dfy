/**
 What a wait on a poller reports. A wait that ends with a signal or a timeout stores
 the initial state whatever arrived meanwhile (src/libos/src/events/waiter/edge.rs:24-68),
 so it takes wake-ups without reporting them.
 */
module PollerWait {
  import opened Util
  import opened Notifier
  import opened Poller
  import Safety = PollerSafety

  ghost predicate WaiterOK(sh: Shared, t: Tid, pc: PC) {
    forall p :: p in sh.pollers ==> (sh.pollers[p].waiter == Some(t) <==> pc == Waiting(p))
  }

  lemma WaiterSelf(sh: Shared, t: Tid, pc: PC, ch: Choice)
    requires WaiterOK(sh, t, pc) && Enabled(sh, pc, ch) && Named(sh, pc)
    ensures var (sh', pc') := Act(sh, t, pc, ch); WaiterOK(sh', t, pc')
  {
  }

  lemma WaiterOther(sh: Shared, t: Tid, pc: PC, ch: Choice, u: Tid, other: PC)
    requires WaiterOK(sh, t, pc) && Enabled(sh, pc, ch) && Named(sh, pc)
    requires u != t && WaiterOK(sh, u, other)
    requires other.Waiting? ==> other.p in sh.pollers
    ensures WaiterOK(Act(sh, t, pc, ch).0, u, other)
  {
  }

  /** The waiter of a poller is the thread inside its `wait`. */
  lemma {:induction false} OneWaiter(trace: seq<State>, i: nat)
    requires Run(trace) && i < |trace|
    ensures forall t :: t in trace[i].threads ==> WaiterOK(trace[i].sh, t, trace[i].threads[t])
  {
    if i > 0 {
      OneWaiter(trace, i - 1);
      Safety.RunInv(trace, i - 1);
      assert StepAt(trace, i);
      var t, ch :| StepBy(trace[i - 1], trace[i], t, ch);
      WaiterStep(trace[i - 1], trace[i], t, ch);
    }
  }

  lemma WaiterStep(st: State, st': State, t: Tid, ch: Choice)
    requires Safety.Inv(st) && StepBy(st, st', t, ch)
    requires forall u :: u in st.threads ==> WaiterOK(st.sh, u, st.threads[u])
    ensures forall u :: u in st'.threads ==> WaiterOK(st'.sh, u, st'.threads[u])
  {
    WaiterSelf(st.sh, t, st.threads[t], ch);
    forall u | u in st'.threads && u != t
      ensures WaiterOK(st'.sh, u, st'.threads[u])
    {
      assert Safety.LocalOK(st.sh, u, st.threads[u]);
      WaiterOther(st.sh, t, st.threads[t], ch, u, st.threads[u]);
    }
  }

  /** While a thread waits, no other step takes the poller's wake-ups. */
  lemma OthersTakeNothing(sh: Shared, t: Tid, pc: PC, ch: Choice, p: PollerId)
    requires Enabled(sh, pc, ch) && Named(sh, pc) && p in sh.pollers
    requires sh.pollers[p].waiter.Some? && pc != Waiting(p)
    ensures var r, sh' := sh.pollers[p], Act(sh, t, pc, ch).0;
      p in sh'.pollers && sh'.pollers[p].seen == r.seen && sh'.pollers[p].lost == r.lost
  {
  }

  /** Thread `t` falls asleep in `wait` in the step after `trace[a]` and sleeps up to `trace[b]`. */
  ghost predicate Sleeps(trace: seq<State>, a: nat, b: nat, t: Tid, p: PollerId) {
    && a < b < |trace| && StepBy(trace[a], trace[a + 1], t, Wait(p))
    && forall k :: a < k <= b ==> t in trace[k].threads && trace[k].threads[t] == Waiting(p)
  }

  lemma FallsAsleep(trace: seq<State>, a: nat, t: Tid, p: PollerId)
    requires Run(trace) && Sleeps(trace, a, a + 1, t, p)
    ensures p in trace[a].sh.pollers && p in trace[a + 1].sh.pollers
    ensures var r, r' := trace[a].sh.pollers[p], trace[a + 1].sh.pollers[p];
      r.seen == r.wokenBy == r'.seen && r'.lost == r.lost
  {
    Safety.RunInv(trace, a);
    assert Safety.LocalOK(trace[a].sh, t, trace[a].threads[t]);
    assert trace[a].threads[t] == Idle;
    assert p in trace[a].sh.pollers;
    assert Safety.PollerOK(trace[a].sh.pollers[p], |trace[a].sh.calls|, trace[a].sh.pollees.Keys);
  }

  lemma {:induction false} DuringWait(trace: seq<State>, a: nat, b: nat, t: Tid, p: PollerId)
    requires Run(trace) && Sleeps(trace, a, b, t, p)
    ensures p in trace[a].sh.pollers && p in trace[b].sh.pollers
    ensures var r, r' := trace[a].sh.pollers[p], trace[b].sh.pollers[p];
      r'.seen == r.wokenBy && r'.lost == r.lost
    decreases b
  {
    if b == a + 1 {
      FallsAsleep(trace, a, t, p);
    } else {
      DuringWait(trace, a, b - 1, t, p);
      OneWaiter(trace, b - 1);
      var st, st' := trace[b - 1], trace[b];
      assert StepAt(trace, b);
      var u, ch :| StepBy(st, st', u, ch);
      assert st.threads[t] == Waiting(p) && WaiterOK(st.sh, t, st.threads[t]);
      if u != t {
        assert WaiterOK(st.sh, u, st.threads[u]);
        OthersTakeNothing(st.sh, u, st.threads[u], ch, p);
      }
    }
  }

  /**
   A wait that fails loses exactly the wake-ups that reached the poller since it fell
   asleep. So it loses nothing if and only if no addition woke the poller meanwhile.
   */
  lemma FailedWaitLoses(trace: seq<State>, a: nat, b: nat, t: Tid, p: PollerId)
    requires Run(trace) && Sleeps(trace, a, b, t, p)
    requires b + 1 < |trace| && StepBy(trace[b], trace[b + 1], t, Fail)
    ensures p in trace[a].sh.pollers && p in trace[b].sh.pollers && p in trace[b + 1].sh.pollers
    ensures var r, asleep, r' := trace[a].sh.pollers[p], trace[b].sh.pollers[p], trace[b + 1].sh.pollers[p];
      && r'.lost == r.lost + (asleep.wokenBy - r.wokenBy) && !r'.notified
      && (r'.lost == r.lost <==> asleep.wokenBy == r.wokenBy)
  {
    DuringWait(trace, a, b, t, p);
    Safety.RunLater(trace, a, b);
    Safety.RunInv(trace, a);
    assert Safety.PollerOK(trace[a].sh.pollers[p], |trace[a].sh.calls|, trace[a].sh.pollees.Keys);
  }

  // ---- A lost wake-up

  function Do(st: State, t: Tid, ch: Choice): State
    requires t in st.threads && Enabled(st.sh, st.threads[t], ch) && Named(st.sh, st.threads[t])
  {
    var (sh', pc') := Act(st.sh, t, st.threads[t], ch);
    State(sh', st.threads[t := pc'])
  }

  lemma Extend(trace: seq<State>, t: Tid, ch: Choice) returns (trace': seq<State>)
    requires Run(trace)
    requires var st := trace[|trace| - 1];
      t in st.threads && Enabled(st.sh, st.threads[t], ch) && Named(st.sh, st.threads[t])
    ensures Run(trace') && trace' == trace + [Do(trace[|trace| - 1], t, ch)]
  {
    var st := trace[|trace| - 1];
    trace' := trace + [Do(st, t, ch)];
    assert StepBy(st, trace'[|trace|], t, ch);
    forall i | 0 < i < |trace'|
      ensures StepAt(trace', i)
    {
      assert i < |trace| ==> StepAt(trace, i);
    }
  }

  const MASK: set<IoEvent> := {In} + ALWAYS_POLL
  const PROMISE := Promise(0, 0, MASK)

  const ENTRY: Subscriber<PollerId, IoEvent> := Subscriber(0, Some(MASK))

  /** One pollee, one poller, two threads. */
  function Scene(
    e: Pollee, r: Poller, calls: seq<AddCall>, promises: set<Promise>, first: PC, second: PC): State
  {
    State(Shared(map[0 := e], map[0 := r], calls, promises), map[0 := first, 1 := second])
  }

  lemma Created() returns (trace: seq<State>)
    ensures Run(trace)
    ensures trace[|trace| - 1] ==
      Scene(Pollee({}, [], None, true, {}), Poller([], Live, {}, None, false, {}, {}, {}), [], {}, Idle, Idle)
  {
    trace := [State(Shared(map[], map[], [], {}), map[0 := Idle, 1 := Idle])];
    trace := Extend(trace, 0, NewPollee(0, {}));
    trace := Extend(trace, 0, NewPoller(0));
  }

  /** Thread 0 begins to poll an idle pollee for IN. */
  lemma PollBegun() returns (trace: seq<State>)
    ensures Run(trace)
    ensures trace[|trace| - 1] ==
      Scene(Pollee({}, [], None, true, {0}), Poller([], Live, {0}, None, false, {}, {}, {}), [], {},
            PollRegister(0, MASK, 0), Idle)
  {
    var nobody: set<Tid> := {};
    assert nobody + {0} == {0};
    trace := Created();
    trace := Extend(trace, 0, Poll(0, {In}, 0));
  }

  /** It has registered its poller and is about to look at the events. */
  lemma Registered() returns (trace: seq<State>)
    ensures Run(trace)
    ensures trace[|trace| - 1] ==
      Scene(Pollee({}, [ENTRY], None, true, {0}), Poller([0], Live, {0}, None, false, {}, {}, {}), [], {},
            PollCheck(0, MASK, 0), Idle)
  {
    var subs: Subs, pollees: seq<PolleeId> := [], [];
    assert subs + [ENTRY] == [ENTRY] && pollees + [0] == [0];
    trace := PollBegun();
    trace := Extend(trace, 0, Go);
    trace := Extend(trace, 0, Go);
  }

  /** It polls in vain and falls asleep. */
  lemma AsleepAfterPoll() returns (trace: seq<State>)
    ensures Run(trace)
    ensures trace[|trace| - 1] ==
      Scene(Pollee({}, [ENTRY], None, true, {}), Poller([0], Live, {0}, Some(0), false, {}, {}, {}), [], {PROMISE},
            Waiting(0), Idle)
  {
    var nobody: set<Tid> := {};
    assert nobody + {0} == {0} && {0} - {0} == nobody;
    var none: set<Promise> := {};
    assert none + {PROMISE} == {PROMISE};
    trace := Registered();
    trace := Extend(trace, 0, Go);
    trace := Extend(trace, 0, Wait(0));
  }

  /** Thread 1 sets the awaited event. */
  lemma EventSet() returns (trace: seq<State>)
    ensures Run(trace)
    ensures trace[|trace| - 1] ==
      Scene(Pollee({In}, [ENTRY], None, true, {1}), Poller([0], Live, {0}, Some(0), false, {}, {}, {}),
            [AddCall(0, {In}, {0})], {PROMISE}, Waiting(0), AddLock(0, {In}, 0))
  {
    var nobody: set<Tid>, quiet: set<IoEvent> := {}, {};
    assert nobody + {1} == {1} && quiet + {In} == {In};
    trace := AsleepAfterPoll();
    trace := Extend(trace, 1, Choice.Add(0, {In}));
    OwedThen(trace[|trace| - 1].sh);
    trace := Extend(trace, 1, Go);
  }

  lemma OwedThen(sh: Shared)
    requires sh.promises == {PROMISE} && HasPoller(sh, 0)
    ensures Owed(sh, 0, {In}) == {0}
  {
    assert In in MASK * {In};
    assert PROMISE in sh.promises;
  }

  /** It then broadcasts and wakes the poller. */
  lemma WokenMeanwhile() returns (trace: seq<State>)
    ensures Run(trace)
    ensures trace[|trace| - 1] ==
      Scene(Pollee({In}, [ENTRY], Some(1), true, {1}), Poller([0], Live, {0}, Some(0), true, {0}, {}, {}),
            [AddCall(0, {In}, {0})], {PROMISE}, Waiting(0), AddAt(0, {In}, 0, 1))
  {
    var none: set<nat> := {};
    assert none + {0} == {0};
    assert In in MASK * {In};
    trace := EventSet();
    trace := Extend(trace, 1, Go);
    trace := Extend(trace, 1, Go);
  }

  /**
   The wait then fails: the wake-up is gone, although the poll promised it and the
   event is still there, and the next wait would sleep.
   */
  lemma WakeupLost() returns (trace: seq<State>)
    ensures Run(trace)
    ensures var sh := trace[|trace| - 1].sh;
      && PROMISE in sh.promises && HasPollee(sh, 0) && sh.pollees[0].events == {In}
      && HasPoller(sh, 0) && sh.pollers[0].lost == {0} && !sh.pollers[0].notified
  {
    trace := WokenMeanwhile();
    trace := Extend(trace, 0, Fail);
  }
}
