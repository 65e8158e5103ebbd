/**
 The IPC channel (src/libos/src/fs/channel.rs) with its waiter queues, notifiers
 and level-triggered waiters, as a transition system over any number of threads.

 Each step is one atomic access: a load, store or read-modify-write of a flag, one
 ring-buffer operation, one waiter-queue action, one host eventfd operation. A lock
 acquisition is merged with the access after it and a release with the access
 before it. Memory is sequentially consistent.

 `push(item)` is `Send([[item]])` and `pop()` is `Recv([1])`: their bodies perform
 the same accesses as `push_slices` and `pop_slices` on one slice of length one.
 */
module Channel {
  import opened Util
  import opened Notifier
  import WaiterQueue

  type Tid = nat

  /** What is sent; the channel never looks inside. */
  type Item(!new)

  datatype Side = Producer | Consumer {
    function Peer(): Side {
      if this == Producer then Consumer else Producer
    }
  }

  datatype IoEvent = In | Out | Err | Hup

  /** A weak reference to the `serial`-th waiter created by thread `tid`. */
  datatype Waker = Waker(tid: Tid, serial: nat)

  datatype Observer = Own | Outside(id: nat)

  type Subs = seq<Subscriber<Observer, IoEvent>>

  /** `lock` and `subsLock` name the thread holding the endpoint's two mutexes. */
  datatype Endpoint = Endpoint(
    nonblocking: bool,
    lock: Option<Tid>,
    queue: WaiterQueue.Queue<Waker>,
    subs: Subs,
    subsLock: Option<Tid>)

  /** A call that moved `items`. */
  datatype Record = Record(call: Call, items: seq<Item>)

  /** The data path. `pushed`, `popped`, `sends` and `recvs` record history. */
  datatype Flow = Flow(
    cap: nat,
    ring: seq<Item>,
    producerShut: bool,
    consumerShut: bool,
    pushed: seq<Item>,
    popped: seq<Item>,
    sends: seq<Record>,
    recvs: seq<Record>)
  {
    predicate Shut(s: Side) {
      if s == Producer then producerShut else consumerShut
    }

    function SetShut(s: Side): Flow {
      if s == Producer then this.(producerShut := true) else this.(consumerShut := true)
    }
  }

  /**
   `waiters` maps every live waiter to its `is_woken` flag; `eventfds` are the
   threads whose host eventfd is readable; `freed` are the outside observers that
   no longer exist.
   */
  datatype Shared = Shared(
    flow: Flow,
    producer: Endpoint,
    consumer: Endpoint,
    waiters: map<Waker, bool>,
    eventfds: set<Tid>,
    freed: set<Observer>)
  {
    function At(s: Side): Endpoint {
      if s == Producer then producer else consumer
    }

    function With(s: Side, e: Endpoint): Shared {
      if s == Producer then this.(producer := e) else this.(consumer := e)
    }

    function Lock(s: Side, o: Option<Tid>): Shared {
      With(s, At(s).(lock := o))
    }

    function LockSubs(s: Side, o: Option<Tid>): Shared {
      With(s, At(s).(subsLock := o))
    }

    function WithQueue(s: Side, q: WaiterQueue.Queue<Waker>): Shared {
      With(s, At(s).(queue := q))
    }
  }

  datatype Call = Send(slices: seq<seq<Item>>) | Recv(lens: seq<nat>) {
    function Side(): Side {
      if Send? then Producer else Consumer
    }

    function Slices(): nat {
      if Send? then |slices| else |lens|
    }

    function Len(): nat {
      if Send? then |Flatten(slices)| else Sum(lens)
    }
  }

  /** Where a wake-all returns to: the caller, or the broadcast that notified observer `i`. */
  datatype Return = Direct | InBroadcast(event: set<IoEvent>, i: nat, own: bool)

  /** `armed` tells the retries of the main loop from the first, waiterless attempt. */
  datatype PC =
    | Idle
      // the loop body of push_slices and pop_slices
    | Enter(c: Call, armed: bool)
    | CheckPeer(c: Call, armed: bool)
    | Transfer(c: Call, armed: bool, i: nat, moved: seq<Item>)
    | CheckEof(c: Call, armed: bool, seen: nat, shut: bool)
    | CheckNonblock(c: Call, armed: bool)
      // reset_and_enqueue
    | Reset(c: Call)
    | EnqCount(c: Call)
    | EnqPush(c: Call)
      // Waiter::wait
    | CheckFlag(c: Call)
    | Poll(c: Call)
    | ReadFd(c: Call)
      // shutdown and set_nonblocking
    | ShutEnter(side: Side)
    | ShutSet(side: Side)
    | StoreNonblock(side: Side, on: bool)
      // Notifier::broadcast; `own`: then wake the caller's own queue too
    | BcastLock(q: Side, event: set<IoEvent>, own: bool)
    | BcastAt(q: Side, event: set<IoEvent>, i: nat, own: bool)
      // dequeue_and_wake_all
    | WakeCheck(q: Side, ret: Return)
    | WakeDrain(q: Side, ret: Return)
    | WakeCount(q: Side, batch: seq<Waker>, ret: Return)
    | WakeFlags(q: Side, batch: seq<Waker>, fds: seq<Tid>, ret: Return)
    | WakeFds(q: Side, fds: seq<Tid>, ret: Return)

  predicate Parks(pc: PC) {
    pc.Reset? || pc.EnqCount? || pc.EnqPush? || pc.CheckFlag? || pc.Poll? || pc.ReadFd?
  }

  predicate Controls(pc: PC) {
    pc.ShutEnter? || pc.ShutSet? || pc.StoreNonblock?
  }

  predicate Broadcasts(pc: PC) {
    pc.BcastLock? || pc.BcastAt?
  }

  predicate Wakes(pc: PC) {
    pc.WakeCheck? || pc.WakeDrain? || pc.WakeCount? || pc.WakeFlags? || pc.WakeFds?
  }

  datatype Outcome = Nothing | Moved(n: nat) | Eof | Epipe | Eagain | Eintr | Done

  datatype Thread = Thread(pc: PC, serial: nat, last: Outcome)

  datatype Choice =
    | Go
    | Interrupt
    | Start(c: Call)
    | Shutdown(side: Side)
    | SetNonblocking(side: Side, on: bool)

  datatype State = State(sh: Shared, threads: map<Tid, Thread>)

  function NewEndpoint(): Endpoint {
    Endpoint(false, None, WaiterQueue.New<Waker>(), [Subscriber(Own, None)], None)
  }

  ghost predicate Init(st: State) {
    && st.sh == Shared(Flow(st.sh.flow.cap, [], false, false, [], [], [], []), NewEndpoint(), NewEndpoint(), map[], {}, {})
    && forall t :: t in st.threads ==> st.threads[t] == Thread(Idle, 0, Nothing)
  }

  /** Locks are taken only when free; everything else is always possible. */
  predicate Unblocked(sh: Shared, pc: PC) {
    match pc
    case Enter(c, _) => sh.At(c.Side()).lock.None?
    case ShutEnter(s) => sh.At(s).lock.None?
    case EnqCount(c) => sh.At(c.Side()).queue.holder.None?
    case WakeDrain(q, _) => sh.At(q).queue.holder.None?
    case BcastLock(q, _, _) => sh.At(q).subsLock.None?
    case _ => true
  }

  predicate Enabled(sh: Shared, t: Tid, th: Thread, ch: Choice) {
    match th.pc
    case Idle => !ch.Go? && !ch.Interrupt?
    case Poll(_) => ch.Interrupt? || (ch.Go? && t in sh.eventfds)
    case _ => ch.Go? && Unblocked(sh, th.pc)
  }

  function Finish(th: Thread, o: Outcome): Thread {
    th.(pc := Idle, last := o)
  }

  function Begin(th: Thread, ch: Choice): Thread
    requires !ch.Go? && !ch.Interrupt?
  {
    match ch
    case Start(c) => if c.Len() == 0 then Finish(th, Moved(0)) else th.(pc := Enter(c, false))
    case Shutdown(s) => th.(pc := ShutEnter(s))
    case SetNonblocking(s, on) => th.(pc := StoreNonblock(s, on))
  }

  /** The call fails under the endpoint lock and returns. */
  function Fail(sh: Shared, th: Thread, o: Outcome): (Shared, Thread)
    requires th.pc.Enter? || th.pc.CheckPeer? || th.pc.CheckEof? || th.pc.CheckNonblock?
  {
    (sh.Lock(th.pc.c.Side(), None), Finish(th, o))
  }

  function ActEnter(sh: Shared, t: Tid, th: Thread): (Shared, Thread)
    requires th.pc.Enter?
  {
    var c, armed := th.pc.c, th.pc.armed;
    if sh.flow.Shut(c.Side()) then Fail(sh, th, Epipe)
    else
      (sh.Lock(c.Side(), Some(t)),
       th.(pc := if c.Send? then CheckPeer(c, armed) else Transfer(c, armed, 0, [])))
  }

  function ActCheckPeer(sh: Shared, th: Thread): (Shared, Thread)
    requires th.pc.CheckPeer?
  {
    if sh.flow.Shut(th.pc.c.Side().Peer()) then Fail(sh, th, Epipe)
    else (sh, th.(pc := Transfer(th.pc.c, th.pc.armed, 0, [])))
  }

  function SliceLen(c: Call, i: nat): nat
    requires i < c.Slices()
  {
    if c.Send? then |c.slices[i]| else c.lens[i]
  }

  /** How many items the ring operation for slice `i` moves. */
  function Portion(f: Flow, c: Call, i: nat): nat
    requires i < c.Slices()
  {
    if c.Recv? then Min(c.lens[i], |f.ring|)
    else if |f.ring| < f.cap then Min(|c.slices[i]|, f.cap - |f.ring|)
    else 0
  }

  function Items(f: Flow, c: Call, i: nat): seq<Item>
    requires i < c.Slices()
  {
    if c.Send? then c.slices[i][..Portion(f, c, i)] else f.ring[..Portion(f, c, i)]
  }

  /** One `push_slice` or `pop_slice` on the ring. */
  function Move(f: Flow, c: Call, i: nat): Flow
    requires i < c.Slices()
  {
    var items := Items(f, c, i);
    if c.Send? then f.(ring := f.ring + items, pushed := f.pushed + items)
    else f.(ring := f.ring[|items|..], popped := f.popped + items)
  }

  function Log(f: Flow, c: Call, moved: seq<Item>): Flow {
    if c.Send? then f.(sends := f.sends + [Record(c, moved)])
    else f.(recvs := f.recvs + [Record(c, moved)])
  }

  /** The slice was moved only in part, or it was the last. */
  predicate Finished(f: Flow, c: Call, i: nat)
    requires i < c.Slices()
  {
    Portion(f, c, i) < SliceLen(c, i) || i + 1 == c.Slices()
  }

  function ActTransfer(sh: Shared, th: Thread): (Shared, Thread)
    requires th.pc.Transfer?
  {
    var c, armed, i, f := th.pc.c, th.pc.armed, th.pc.i, sh.flow;
    if i >= c.Slices() then (sh, th) else
    var moved := th.pc.moved + Items(f, c, i);
    var f1 := Move(f, c, i);
    if !Finished(f, c, i) then (sh.(flow := f1), th.(pc := Transfer(c, armed, i + 1, moved)))
    else if moved != [] then
      (sh.(flow := Log(f1, c, moved)).Lock(c.Side(), None),
       th.(pc := BcastLock(c.Side().Peer(), if c.Send? then {In} else {Out}, false), last := Moved(|moved|)))
    else if c.Send? then (sh.(flow := f1), th.(pc := CheckNonblock(c, armed)))
    else (sh.(flow := f1), th.(pc := CheckEof(c, armed, |f.pushed|, f.producerShut)))
  }

  function ActCheckEof(sh: Shared, th: Thread): (Shared, Thread)
    requires th.pc.CheckEof?
  {
    if sh.flow.Shut(th.pc.c.Side().Peer()) then Fail(sh, th, Eof)
    else (sh, th.(pc := CheckNonblock(th.pc.c, th.pc.armed)))
  }

  /** The last check of the body; then the first attempt makes a waiter, a retry waits. */
  function ActCheckNonblock(sh: Shared, t: Tid, th: Thread): (Shared, Thread)
    requires th.pc.CheckNonblock?
  {
    var c := th.pc.c;
    if sh.At(c.Side()).nonblocking then Fail(sh, th, Eagain)
    else if th.pc.armed then (sh.Lock(c.Side(), None), th.(pc := CheckFlag(c)))
    else
      (sh.Lock(c.Side(), None).(waiters := sh.waiters[Waker(t, th.serial + 1) := false]),
       th.(pc := Reset(c), serial := th.serial + 1))
  }

  function ActPark(sh: Shared, t: Tid, th: Thread, ch: Choice): (Shared, Thread)
    requires Parks(th.pc)
  {
    var w := Waker(t, th.serial);
    match th.pc
    case Reset(c) =>
      (if w in sh.waiters then sh.(waiters := sh.waiters[w := false]) else sh, th.(pc := EnqCount(c)))
    case EnqCount(c) =>
      (sh.WithQueue(c.Side(), sh.At(c.Side()).queue.CountUp(t)), th.(pc := EnqPush(c)))
    case EnqPush(c) =>
      (sh.WithQueue(c.Side(), sh.At(c.Side()).queue.PushBack(w)), th.(pc := Enter(c, true)))
    case CheckFlag(c) =>
      (sh, th.(pc := if w in sh.waiters && sh.waiters[w] then Reset(c) else Poll(c)))
    case Poll(c) =>
      if ch.Interrupt? then (sh, Finish(th, Eintr))
      else (sh, th.(pc := ReadFd(c)))
    case ReadFd(c) =>
      (sh.(eventfds := sh.eventfds - {t}), th.(pc := CheckFlag(c)))
  }

  function ActControl(sh: Shared, t: Tid, th: Thread): (Shared, Thread)
    requires Controls(th.pc)
  {
    match th.pc
    case ShutEnter(s) =>
      if sh.flow.Shut(s) then (sh.Lock(s, None), Finish(th, Done))
      else (sh.Lock(s, Some(t)), th.(pc := ShutSet(s)))
    case ShutSet(s) =>
      (sh.(flow := sh.flow.SetShut(s)).Lock(s, None),
       th.(pc := BcastLock(s.Peer(), if s == Producer then {Hup} else {Err}, true), last := Done))
    case StoreNonblock(s, on) =>
      (sh.With(s, sh.At(s).(nonblocking := on)),
       if on then th.(pc := WakeCheck(s, Direct), last := Done) else Finish(th, Done))
  }

  /** The end of a broadcast: unlock the subscribers, then wake the own queue if asked to. */
  function EndBcast(sh: Shared, th: Thread, q: Side, own: bool): (Shared, Thread) {
    (sh.LockSubs(q, None), th.(pc := if own then WakeCheck(q.Peer(), Direct) else Idle))
  }

  function ActBcast(sh: Shared, t: Tid, th: Thread): (Shared, Thread)
    requires Broadcasts(th.pc)
  {
    match th.pc
    case BcastLock(q, ev, own) =>
      (sh.LockSubs(q, Some(t)), th.(pc := BcastAt(q, ev, 0, own)))
    case BcastAt(q, ev, i, own) =>
      var subs := sh.At(q).subs;
      if i >= |subs| then EndBcast(sh, th, q, own)
      else if !Passes(subs[i], ev) then (sh, th.(pc := BcastAt(q, ev, i + 1, own)))
      else if subs[i].observer in sh.freed then EndBcast(sh, th, q, own)
      else if subs[i].observer == Own then (sh, th.(pc := WakeCheck(q, InBroadcast(ev, i, own))))
      else (sh, th.(pc := BcastAt(q, ev, i + 1, own)))
  }

  function Resume(q: Side, ret: Return): PC {
    if ret.Direct? then Idle else BcastAt(q, ret.event, ret.i + 1, ret.own)
  }

  function ActWake(sh: Shared, t: Tid, th: Thread): (Shared, Thread)
    requires Wakes(th.pc)
  {
    match th.pc
    case WakeCheck(q, ret) =>
      (sh, th.(pc := if sh.At(q).queue.count == 0 then Resume(q, ret) else WakeDrain(q, ret)))
    case WakeDrain(q, ret) =>
      var queue := sh.At(q).queue;
      (sh.WithQueue(q, queue.Drain(t, |queue.wakers|)), th.(pc := WakeCount(q, queue.wakers, ret)))
    case WakeCount(q, b, ret) =>
      (sh.WithQueue(q, sh.At(q).queue.CountDown(|b|)), th.(pc := WakeFlags(q, b, [], ret)))
    case WakeFlags(q, b, fds, ret) =>
      if b == [] then (sh, th.(pc := WakeFds(q, fds, ret)))
      else if b[0] in sh.waiters && !sh.waiters[b[0]] then
        (sh.(waiters := sh.waiters[b[0] := true]), th.(pc := WakeFlags(q, b[1..], fds + [b[0].tid], ret)))
      else (sh, th.(pc := WakeFlags(q, b[1..], fds, ret)))
    case WakeFds(q, fds, ret) =>
      if fds == [] then (sh, th.(pc := Resume(q, ret)))
      else (sh.(eventfds := sh.eventfds + {fds[0]}), th.(pc := WakeFds(q, fds[1..], ret)))
  }

  function Body(sh: Shared, t: Tid, th: Thread, ch: Choice): (Shared, Thread)
    requires Enabled(sh, t, th, ch)
  {
    if th.pc.Idle? then (sh, Begin(th, ch))
    else if th.pc.Enter? then ActEnter(sh, t, th)
    else if th.pc.CheckPeer? then ActCheckPeer(sh, th)
    else if th.pc.Transfer? then ActTransfer(sh, th)
    else if th.pc.CheckEof? then ActCheckEof(sh, th)
    else if th.pc.CheckNonblock? then ActCheckNonblock(sh, t, th)
    else if Parks(th.pc) then ActPark(sh, t, th, ch)
    else if Controls(th.pc) then ActControl(sh, t, th)
    else if Broadcasts(th.pc) then ActBcast(sh, t, th)
    else ActWake(sh, t, th)
  }

  /** One step of thread `t`. A call that returns drops its waiter, if it made one. */
  function Act(sh: Shared, t: Tid, th: Thread, ch: Choice): (Shared, Thread)
    requires Enabled(sh, t, th, ch)
  {
    var (sh', th') := Body(sh, t, th, ch);
    (if th'.pc.Idle? then sh'.(waiters := sh'.waiters - {Waker(t, th'.serial)}) else sh', th')
  }

  /** Outside observers come, go and are freed whenever the subscriber lock allows. */
  datatype Outer = Subscription(side: Side, change: Change<Observer, IoEvent>) | Free(id: nat)

  predicate OuterEnabled(sh: Shared, e: Outer) {
    e.Subscription? ==> sh.At(e.side).subsLock.None? && e.change.observer != Own
  }

  function ActOuter(sh: Shared, e: Outer): Shared {
    match e
    case Subscription(s, c) => sh.With(s, sh.At(s).(subs := Apply(sh.At(s).subs, c)))
    case Free(id) => sh.(freed := sh.freed + {Outside(id)})
  }

  ghost predicate StepBy(st: State, st': State, t: Tid, ch: Choice) {
    && t in st.threads
    && Enabled(st.sh, t, st.threads[t], ch)
    && var (sh', th') := Act(st.sh, t, st.threads[t], ch);
       st' == State(sh', st.threads[t := th'])
  }

  ghost predicate OuterStep(st: State, st': State, e: Outer) {
    OuterEnabled(st.sh, e) && st' == st.(sh := ActOuter(st.sh, e))
  }

  ghost predicate Next(st: State, st': State) {
    (exists t, ch :: StepBy(st, st', t, ch)) || (exists e :: OuterStep(st, st', e))
  }

  ghost predicate StepAt(trace: seq<State>, i: int)
    requires 0 < i < |trace|
  {
    Next(trace[i - 1], trace[i])
  }

  ghost predicate Run(trace: seq<State>) {
    && |trace| > 0
    && Init(trace[0])
    && forall i :: 0 < i < |trace| ==> StepAt(trace, i)
  }
}
