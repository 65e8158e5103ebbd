/**
 Left alone, the channel comes to rest: without new calls, signals or changes of
 outside observers every run is finite, whatever the scheduler does, and it ends with
 each thread idle or asleep for a reason. So a wake-up owed or in flight is delivered.

 The measure is lexicographic: queues still to be drained, wakers drained but not yet
 looked at, eventfds still to be written, and steps left on each thread's own way.
 */
module ChannelProgress {
  import opened Util
  import opened Channel
  import Order = ChannelOrder
  import Wakeup = ChannelWakeup

  function One(b: bool): nat {
    if b then 1 else 0
  }

  /** Subscribers of side `q` from position `i` on. */
  function Gap(sh: Shared, q: Side, i: nat): nat {
    if i < |sh.At(q).subs| then |sh.At(q).subs| - i else 0
  }

  // ---- Queues still to be drained

  /** By the rest of the broadcast after a wake-all. */
  function DrainsAfter(sh: Shared, q: Side, ret: Return): nat {
    if ret.Direct? then 0 else Gap(sh, q, ret.i + 1) + One(ret.own)
  }

  /** At most this many wake-alls will be done by the call in progress. */
  function Drains(sh: Shared, pc: PC): nat {
    match pc
    case Idle => 0
    case BcastLock(q, _, own) => Gap(sh, q, 0) + One(own)
    case BcastAt(q, _, i, own) => Gap(sh, q, i) + One(own)
    case WakeCheck(q, ret) => 1 + DrainsAfter(sh, q, ret)
    case WakeDrain(q, ret) => 1 + DrainsAfter(sh, q, ret)
    case WakeCount(q, _, ret) => DrainsAfter(sh, q, ret)
    case WakeFlags(q, _, _, ret) => DrainsAfter(sh, q, ret)
    case WakeFds(q, _, ret) => DrainsAfter(sh, q, ret)
    case ShutEnter(s) => Gap(sh, s.Peer(), 0) + 1
    case ShutSet(s) => Gap(sh, s.Peer(), 0) + 1
    case StoreNonblock(_, _) => 1
    case _ => Gap(sh, pc.c.Side().Peer(), 0)
  }

  // ---- Steps left on a thread's own way

  function WorkAfter(sh: Shared, q: Side, ret: Return): nat {
    if ret.Direct? then 0 else 10 * Gap(sh, q, ret.i + 1) + 10 * One(ret.own) + 6
  }

  /** Outside the retry loop. */
  function WorkAside(sh: Shared, pc: PC): nat {
    match pc
    case BcastLock(q, _, own) => 10 * Gap(sh, q, 0) + 10 * One(own) + 7
    case BcastAt(q, _, i, own) => 10 * Gap(sh, q, i) + 10 * One(own) + 6
    case WakeCheck(q, ret) => 5 + WorkAfter(sh, q, ret)
    case WakeDrain(q, ret) => 4 + WorkAfter(sh, q, ret)
    case WakeCount(q, _, ret) => 3 + WorkAfter(sh, q, ret)
    case WakeFlags(q, _, _, ret) => 2 + WorkAfter(sh, q, ret)
    case WakeFds(q, _, ret) => 1 + WorkAfter(sh, q, ret)
    case ShutEnter(s) => 10 * Gap(sh, s.Peer(), 0) + 19
    case ShutSet(s) => 10 * Gap(sh, s.Peer(), 0) + 18
    case StoreNonblock(_, _) => 7
    case _ => 0
  }

  /** One round of the retry loop for a call of `n` slices, counted down to falling asleep. */
  function Round(pc: PC, n: nat): nat {
    match pc
    case CheckFlag(_) => 1
    case ReadFd(_) => 2
    case CheckNonblock(_, _) => 3
    case CheckEof(_, _, _, _) => 4
    case Transfer(_, _, i, _) => if i < n then 5 + n - i else 5
    case CheckPeer(_, _) => 6 + n
    case Enter(_, _) => 7 + n
    case EnqPush(_) => 8 + n
    case EnqCount(_) => 9 + n
    case Reset(_) => 10 + n
    case _ => 0
  }

  predicate FirstTry(pc: PC) {
    (pc.Enter? || pc.CheckPeer? || pc.Transfer? || pc.CheckEof? || pc.CheckNonblock?) && !pc.armed
  }

  /** A set flag allows one more round, a readable eventfd one more look at the flag. */
  function Bonus(pc: PC, n: nat, flag: bool, fd: bool): nat {
    (if flag && !pc.Reset? then 10 + n else 0) + (if fd && !pc.ReadFd? then 3 else 0)
  }

  function WorkInCall(sh: Shared, pc: PC, flag: bool, fd: bool): nat
    requires Order.InCall(pc)
  {
    var n := pc.c.Slices();
    10 * Gap(sh, pc.c.Side().Peer(), 0) + 20
    + Round(pc, n) + (if FirstTry(pc) then 8 + n else 0) + Bonus(pc, n, flag, fd)
  }

  predicate FlagOf(sh: Shared, t: Tid, th: Thread) {
    Waker(t, th.serial) in sh.waiters && sh.waiters[Waker(t, th.serial)]
  }

  function Work(sh: Shared, t: Tid, th: Thread): nat {
    if Order.InCall(th.pc) then WorkInCall(sh, th.pc, FlagOf(sh, t, th), t in sh.eventfds)
    else WorkAside(sh, th.pc)
  }

  // ---- One step of a thread

  ghost predicate SameSubs(sh: Shared, sh': Shared) {
    sh'.producer.subs == sh.producer.subs && sh'.consumer.subs == sh.consumer.subs
  }

  /** The thread works through what it has drained: it sets a flag or writes an eventfd. */
  predicate Delivers(pc: PC) {
    (pc.WakeFlags? && pc.batch != []) || (pc.WakeFds? && pc.fds != [])
  }

  lemma BodyDrains(sh: Shared, t: Tid, th: Thread)
    requires Enabled(sh, t, th, Go) && Order.InCall(th.pc) && SameSubs(sh, Act(sh, t, th, Go).0)
    ensures var (sh', th') := Act(sh, t, th, Go); Drains(sh', th'.pc) <= Drains(sh, th.pc)
  {
  }

  lemma ControlDrains(sh: Shared, t: Tid, th: Thread)
    requires Controls(th.pc) && SameSubs(sh, ActControl(sh, t, th).0)
    ensures var (sh', th') := ActControl(sh, t, th); Drains(sh', th'.pc) <= Drains(sh, th.pc)
  {
  }

  lemma BcastDrains(sh: Shared, t: Tid, th: Thread)
    requires Broadcasts(th.pc) && SameSubs(sh, ActBcast(sh, t, th).0)
    ensures var (sh', th') := ActBcast(sh, t, th); Drains(sh', th'.pc) <= Drains(sh, th.pc)
  {
  }

  lemma WakeDrains(sh: Shared, t: Tid, th: Thread)
    requires Wakes(th.pc) && SameSubs(sh, ActWake(sh, t, th).0)
    ensures var (sh', th') := ActWake(sh, t, th);
      Drains(sh', th'.pc) <= Drains(sh, th.pc) - One(th.pc.WakeDrain?)
  {
  }

  lemma ActDrains(sh: Shared, t: Tid, th: Thread)
    requires Enabled(sh, t, th, Go) && SameSubs(sh, Act(sh, t, th, Go).0)
    ensures var (sh', th') := Act(sh, t, th, Go);
      Drains(sh', th'.pc) <= Drains(sh, th.pc) - One(th.pc.WakeDrain?)
  {
    if Order.InCall(th.pc) {
      BodyDrains(sh, t, th);
    } else if Controls(th.pc) {
      ControlDrains(sh, t, th);
    } else if Broadcasts(th.pc) {
      BcastDrains(sh, t, th);
    } else {
      WakeDrains(sh, t, th);
    }
  }

  predicate SetsFlag(pc: PC) {
    pc.WakeFlags? && pc.batch != []
  }

  predicate WritesFd(pc: PC) {
    pc.WakeFds? && pc.fds != []
  }

  /** Batches grow by draining only, and eventfds to write by setting flags only. */
  lemma BatchSteps(sh: Shared, t: Tid, th: Thread)
    requires Enabled(sh, t, th, Go) && !th.pc.WakeDrain?
    ensures var (sh', th') := Act(sh, t, th, Go);
      && |Wakeup.Batch(th'.pc)| <= |Wakeup.Batch(th.pc)| - One(SetsFlag(th.pc))
      && (!SetsFlag(th.pc) ==> |Wakeup.Fds(th'.pc)| <= |Wakeup.Fds(th.pc)| - One(WritesFd(th.pc)))
  {
  }

  lemma ChecksWork(sh: Shared, t: Tid, th: Thread)
    requires Enabled(sh, t, th, Go) && Order.CallOK(sh.flow, th.pc) && SameSubs(sh, Body(sh, t, th, Go).0)
    requires th.pc.Enter? || th.pc.CheckPeer? || th.pc.CheckEof?
    ensures var (sh', th') := Body(sh, t, th, Go); Work(sh', t, th') < Work(sh, t, th)
  {
  }

  lemma NonblockWork(sh: Shared, t: Tid, th: Thread)
    requires th.pc.CheckNonblock? && SameSubs(sh, ActCheckNonblock(sh, t, th).0)
    ensures var (sh', th') := ActCheckNonblock(sh, t, th); Work(sh', t, th') < Work(sh, t, th)
  {
  }

  lemma TransferWork(sh: Shared, t: Tid, th: Thread)
    requires Order.CallOK(sh.flow, th.pc) && th.pc.Transfer? && SameSubs(sh, ActTransfer(sh, th).0)
    ensures var (sh', th') := ActTransfer(sh, th); Work(sh', t, th') < Work(sh, t, th)
  {
    assert Order.TransferOK(th.pc);
  }

  lemma ParkWork(sh: Shared, t: Tid, th: Thread)
    requires Parks(th.pc) && (th.pc.Poll? ==> t in sh.eventfds) && SameSubs(sh, ActPark(sh, t, th, Go).0)
    ensures var (sh', th') := ActPark(sh, t, th, Go); Work(sh', t, th') < Work(sh, t, th)
  {
  }

  lemma ControlWork(sh: Shared, t: Tid, th: Thread)
    requires Controls(th.pc) && SameSubs(sh, ActControl(sh, t, th).0)
    ensures var (sh', th') := ActControl(sh, t, th); WorkAside(sh', th'.pc) < WorkAside(sh, th.pc)
  {
  }

  lemma BcastWork(sh: Shared, t: Tid, th: Thread)
    requires Broadcasts(th.pc) && SameSubs(sh, ActBcast(sh, t, th).0)
    ensures var (sh', th') := ActBcast(sh, t, th); WorkAside(sh', th'.pc) < WorkAside(sh, th.pc)
  {
  }

  lemma WakeWork(sh: Shared, t: Tid, th: Thread)
    requires Wakes(th.pc) && !SetsFlag(th.pc) && !WritesFd(th.pc) && SameSubs(sh, ActWake(sh, t, th).0)
    ensures var (sh', th') := ActWake(sh, t, th); WorkAside(sh', th'.pc) < WorkAside(sh, th.pc)
  {
  }

  /** Outside a call, only the subscriber lists matter. */
  lemma AsideStays(sh: Shared, t: Tid, th: Thread)
    requires Enabled(sh, t, th, Go) && !Order.InCall(th.pc)
    ensures var (sh', th') := Act(sh, t, th, Go);
      && !Order.InCall(th'.pc)
      && SameSubs(Body(sh, t, th, Go).0, sh')
  {
  }

  lemma ActWork(sh: Shared, t: Tid, th: Thread)
    requires Enabled(sh, t, th, Go) && Order.CallOK(sh.flow, th.pc) && SameSubs(sh, Act(sh, t, th, Go).0)
    requires !SetsFlag(th.pc) && !WritesFd(th.pc)
    ensures var (sh', th') := Act(sh, t, th, Go); Work(sh', t, th') < Work(sh, t, th)
  {
    if th.pc.Transfer? {
      TransferWork(sh, t, th);
    } else if Parks(th.pc) {
      ParkWork(sh, t, th);
    } else if th.pc.CheckNonblock? {
      NonblockWork(sh, t, th);
    } else if Order.InCall(th.pc) {
      ChecksWork(sh, t, th);
    } else {
      AsideStays(sh, t, th);
      if Controls(th.pc) {
        ControlWork(sh, t, th);
      } else if Broadcasts(th.pc) {
        BcastWork(sh, t, th);
      } else {
        WakeWork(sh, t, th);
      }
    }
  }

  lemma AsideSame(sh: Shared, sh': Shared, pc: PC)
    requires SameSubs(sh, sh')
    ensures WorkAside(sh', pc) == WorkAside(sh, pc)
  {
  }

  lemma InCallSame(sh: Shared, sh': Shared, pc: PC, flag: bool, fd: bool)
    requires SameSubs(sh, sh') && Order.InCall(pc)
    ensures WorkInCall(sh', pc, flag, fd) == WorkInCall(sh, pc, flag, fd)
  {
  }

  lemma WorkSame(sh: Shared, sh': Shared, u: Tid, other: Thread)
    requires SameSubs(sh, sh') && FlagOf(sh', u, other) == FlagOf(sh, u, other)
    requires u in sh'.eventfds <==> u in sh.eventfds
    ensures Work(sh', u, other) == Work(sh, u, other)
  {
    if Order.InCall(other.pc) {
      InCallSame(sh, sh', other.pc, FlagOf(sh, u, other), u in sh.eventfds);
    } else {
      AsideSame(sh, sh', other.pc);
    }
  }

  /** Only setting a flag or writing an eventfd gives another thread more to do. */
  lemma OthersWaiter(sh: Shared, t: Tid, th: Thread, w: Waker)
    requires Enabled(sh, t, th, Go) && w.tid != t && !SetsFlag(th.pc) && !WritesFd(th.pc)
    ensures var sh' := Act(sh, t, th, Go).0;
      && (w in sh'.waiters <==> w in sh.waiters) && (w in sh.waiters ==> sh'.waiters[w] == sh.waiters[w])
      && (w.tid in sh'.eventfds <==> w.tid in sh.eventfds)
  {
    if Parks(th.pc) {
      Wakeup.WaiterParking(sh, t, th, Go, w);
    } else if Wakes(th.pc) {
      WakeTouchesNothing(sh, t, th);
    }
  }

  lemma WakeTouchesNothing(sh: Shared, t: Tid, th: Thread)
    requires Wakes(th.pc) && !SetsFlag(th.pc) && !WritesFd(th.pc)
    ensures var sh' := ActWake(sh, t, th).0; sh'.waiters == sh.waiters && sh'.eventfds == sh.eventfds
  {
  }

  // ---- The measure of a state

  ghost function DrainMap(st: State): map<Tid, nat> {
    map t | t in st.threads :: Drains(st.sh, st.threads[t].pc)
  }

  ghost function AllDrains(st: State): nat {
    Total(DrainMap(st))
  }

  ghost function BatchMap(st: State): map<Tid, nat> {
    map t | t in st.threads :: |Wakeup.Batch(st.threads[t].pc)|
  }

  ghost function AllBatches(st: State): nat {
    Total(BatchMap(st))
  }

  ghost function FdMap(st: State): map<Tid, nat> {
    map t | t in st.threads :: |Wakeup.Fds(st.threads[t].pc)|
  }

  ghost function AllFds(st: State): nat {
    Total(FdMap(st))
  }

  ghost function WorkMap(st: State): map<Tid, nat> {
    map t | t in st.threads :: Work(st.sh, t, st.threads[t])
  }

  ghost function AllWork(st: State): nat {
    Total(WorkMap(st))
  }

  ghost predicate Smaller(st: State, st': State) {
    || AllDrains(st') < AllDrains(st)
    || (AllDrains(st') == AllDrains(st) &&
        (|| AllBatches(st') < AllBatches(st)
         || (AllBatches(st') == AllBatches(st) &&
             (AllFds(st') < AllFds(st) || (AllFds(st') == AllFds(st) && AllWork(st') < AllWork(st))))))
  }

  lemma TotalStep(m: map<Tid, nat>, m': map<Tid, nat>, t: Tid)
    requires m'.Keys == m.Keys && t in m && forall u :: u in m && u != t ==> m'[u] == m[u]
    ensures Total(m') == Total(m) + m'[t] - m[t]
  {
    TotalUpdate(m, t, m'[t]);
    assert m' == m[t := m'[t]];
  }

  lemma DrainsSame(sh: Shared, sh': Shared, pc: PC)
    requires SameSubs(sh, sh')
    ensures Drains(sh', pc) == Drains(sh, pc)
  {
  }

  lemma DrainsStep(st: State, st': State, t: Tid)
    requires StepBy(st, st', t, Go) && SameSubs(st.sh, st'.sh)
    ensures AllDrains(st') <= AllDrains(st) - One(st.threads[t].pc.WakeDrain?)
  {
    ActDrains(st.sh, t, st.threads[t]);
    forall u | u in st.threads
      ensures Drains(st'.sh, st.threads[u].pc) == Drains(st.sh, st.threads[u].pc)
    {
      DrainsSame(st.sh, st'.sh, st.threads[u].pc);
    }
    TotalStep(DrainMap(st), DrainMap(st'), t);
  }

  lemma BatchesStep(st: State, st': State, t: Tid)
    requires StepBy(st, st', t, Go) && !st.threads[t].pc.WakeDrain?
    ensures AllBatches(st') <= AllBatches(st) - One(SetsFlag(st.threads[t].pc))
  {
    BatchSteps(st.sh, t, st.threads[t]);
    TotalStep(BatchMap(st), BatchMap(st'), t);
  }

  lemma FdsStep(st: State, st': State, t: Tid)
    requires StepBy(st, st', t, Go) && !st.threads[t].pc.WakeDrain? && !SetsFlag(st.threads[t].pc)
    ensures AllFds(st') <= AllFds(st) - One(WritesFd(st.threads[t].pc))
  {
    BatchSteps(st.sh, t, st.threads[t]);
    TotalStep(FdMap(st), FdMap(st'), t);
  }

  lemma WorkStep(st: State, st': State, t: Tid)
    requires StepBy(st, st', t, Go) && SameSubs(st.sh, st'.sh) && Order.CallOK(st.sh.flow, st.threads[t].pc)
    requires !SetsFlag(st.threads[t].pc) && !WritesFd(st.threads[t].pc)
    ensures AllWork(st') < AllWork(st)
  {
    ActWork(st.sh, t, st.threads[t]);
    forall u | u in st.threads && u != t
      ensures Work(st'.sh, u, st.threads[u]) == Work(st.sh, u, st.threads[u])
    {
      OthersWaiter(st.sh, t, st.threads[t], Waker(u, st.threads[u].serial));
      WorkSame(st.sh, st'.sh, u, st.threads[u]);
    }
    TotalStep(WorkMap(st), WorkMap(st'), t);
  }

  /** Every step a thread takes on its own makes the measure smaller. */
  lemma StepShrinks(st: State, st': State, t: Tid)
    requires Order.Inv(st) && StepBy(st, st', t, Go)
    ensures Smaller(st, st')
  {
    Order.StepInv(st, st', t, Go);
    assert Order.CallOK(st.sh.flow, st.threads[t].pc);
    DrainsStep(st, st', t);
    if !st.threads[t].pc.WakeDrain? {
      BatchesStep(st, st', t);
      if !SetsFlag(st.threads[t].pc) {
        FdsStep(st, st', t);
        if !WritesFd(st.threads[t].pc) {
          WorkStep(st, st', t);
        }
      }
    }
  }

  // ---- Results

  /** Some thread takes a step of its own: no new call, no signal, no outside change. */
  ghost predicate GoStep(st: State, st': State) {
    exists t :: StepBy(st, st', t, Go)
  }

  ghost predicate GoesOn(run: nat -> State, i: nat) {
    GoStep(run(i), run(i + 1))
  }

  lemma {:induction false} NoEndlessRun(run: nat -> State, i: nat)
    requires Order.Inv(run(i)) && forall k: nat :: GoesOn(run, k)
    ensures false
    decreases AllDrains(run(i)), AllBatches(run(i)), AllFds(run(i)), AllWork(run(i))
  {
    assert GoesOn(run, i);
    var t :| StepBy(run(i), run(i + 1), t, Go);
    StepShrinks(run(i), run(i + 1), t);
    Order.StepInv(run(i), run(i + 1), t, Go);
    NoEndlessRun(run, i + 1);
  }

  /**
   Left alone, the channel stops: no infinite sequence of states that begins in a
   reachable one consists of threads' own steps only, whatever the scheduler.
   */
  lemma RunsEnd(trace: seq<State>, i: nat, run: nat -> State)
    requires Run(trace) && i < |trace| && run(0) == trace[i]
    ensures exists k: nat :: !GoesOn(run, k)
  {
    if forall k: nat :: GoesOn(run, k) {
      Order.RunInv(trace, i);
      NoEndlessRun(run, 0);
    }
  }

  ghost predicate GoStepAt(trace: seq<State>, i: int)
    requires 0 < i < |trace|
  {
    GoStep(trace[i - 1], trace[i])
  }

  /** `trace'` goes on from the end of `trace` by threads' own steps only. */
  ghost predicate Continues(trace: seq<State>, trace': seq<State>) {
    Run(trace') && trace <= trace' && forall i :: 0 < |trace| <= i < |trace'| ==> GoStepAt(trace', i)
  }

  /** Nothing can move by itself any more. */
  ghost predicate Stuck(st: State) {
    forall u :: !Wakeup.Ready(st, u)
  }

  /** Nothing can move by itself any more, and everyone rests. */
  ghost predicate Settled(st: State) {
    Stuck(st) && (forall t :: t in st.threads ==> Wakeup.AtRest(st, t))
  }

  lemma GoOne(trace: seq<State>, u: Tid) returns (longer: seq<State>)
    requires Run(trace) && Wakeup.Ready(trace[|trace| - 1], u)
    ensures Continues(trace, longer) && |longer| == |trace| + 1
    ensures Smaller(trace[|trace| - 1], longer[|trace|])
  {
    longer := Order.Extend(trace, u, Go);
    Order.RunInv(trace, |trace| - 1);
    assert StepBy(trace[|trace| - 1], longer[|trace|], u, Go);
    StepShrinks(trace[|trace| - 1], longer[|trace|], u);
  }

  lemma ContinuesOn(a: seq<State>, b: seq<State>, c: seq<State>)
    requires |a| > 0 && Continues(a, b) && Continues(b, c)
    ensures Continues(a, c)
  {
    forall i | |a| <= i < |c|
      ensures GoStepAt(c, i)
    {
      if i < |b| {
        assert GoStepAt(b, i);
      }
    }
  }

  lemma EveryoneRests(trace: seq<State>)
    requires Run(trace) && Stuck(trace[|trace| - 1])
    ensures Continues(trace, trace) && Settled(trace[|trace| - 1])
  {
    var st := trace[|trace| - 1];
    forall t | t in st.threads
      ensures Wakeup.AtRest(st, t)
    {
      Wakeup.Quiescence(trace, |trace| - 1, t);
    }
  }

  /**
   From every reachable state threads' own steps lead to a state of rest: every owed or
   pending wake-up has been delivered, and whoever still sleeps is really blocked.
   */
  lemma {:induction false} Settles(trace: seq<State>) returns (trace': seq<State>)
    requires Run(trace)
    ensures Continues(trace, trace') && Settled(trace'[|trace'| - 1])
    decreases
      AllDrains(trace[|trace| - 1]), AllBatches(trace[|trace| - 1]),
      AllFds(trace[|trace| - 1]), AllWork(trace[|trace| - 1])
  {
    var st := trace[|trace| - 1];
    if !Stuck(st) {
      var u :| Wakeup.Ready(st, u);
      var longer := GoOne(trace, u);
      trace' := Settles(longer);
      ContinuesOn(trace, longer, trace');
    } else {
      EveryoneRests(trace);
      trace' := trace;
    }
  }
}
