/**
 The waiter queue: an atomic counter beside a mutex-protected deque of wakers
 (src/libos/src/events/waiter_queue.rs), as interleaved atomic actions.

 A lock acquisition is merged with the access that follows it and a release with
 the access that precedes it; every other access is an action of its own. The
 counter is read outside the lock, so it is visible between the two halves of
 both lock sections.
 */
module WaiterQueue {
  import opened Util

  type Tid = nat

  /** `holder` is the thread inside a lock section; the last two fields record history. */
  datatype Queue<W> = Queue(
    count: int,
    wakers: seq<W>,
    holder: Option<Tid>,
    enqueued: seq<W>,
    dequeued: seq<W>)
  {
    /** `lock; count.fetch_add(1)` */
    function CountUp(t: Tid): Queue<W> {
      this.(count := count + 1, holder := Some(t))
    }

    /** `push_back(waker); unlock` */
    function PushBack(w: W): Queue<W> {
      this.(wakers := wakers + [w], enqueued := enqueued + [w], holder := None)
    }

    function Batch(max: nat): seq<W> {
      wakers[..Min(max, |wakers|)]
    }

    /** `lock; drain(..max)` */
    function Drain(t: Tid, max: nat): Queue<W> {
      var b := Batch(max);
      this.(wakers := wakers[|b|..], dequeued := dequeued + b, holder := Some(t))
    }

    /** `count.fetch_sub(n); unlock` */
    function CountDown(n: nat): Queue<W> {
      this.(count := count - n, holder := None)
    }

    /** What holds between actions: nothing is lost, duplicated or reordered. */
    ghost predicate Conserves() {
      dequeued + wakers == enqueued
    }
  }

  function New<W>(): Queue<W> {
    Queue(0, [], None, [], [])
  }

  /** Program counter of a thread inside a queue operation. */
  datatype PC<W> =
    | Idle
    | EnqCount(w: W)
    | EnqPush(w: W)
    | DeqCheck(max: nat)
    | DeqDrain(max: nat)
    | DeqCount(batch: seq<W>)
    | DeqWake(batch: seq<W>)

  /** `batches` and `returned` record what dequeue calls drained and returned. */
  datatype State<W> = State(
    q: Queue<W>,
    threads: map<Tid, PC<W>>,
    batches: seq<seq<W>>,
    returned: nat)

  datatype Request<W> = Enqueue(w: W) | Dequeue(max: nat)

  ghost predicate Init<W>(st: State<W>) {
    && st.q == New<W>()
    && (forall t :: t in st.threads ==> st.threads[t] == Idle)
    && st.batches == [] && st.returned == 0
  }

  predicate Enabled<W>(st: State<W>, t: Tid) {
    && t in st.threads
    && (st.threads[t].EnqCount? || st.threads[t].DeqDrain? ==> st.q.holder.None?)
  }

  /** One atomic action of thread `t`; `req` is the call an idle thread makes. */
  function Act<W>(st: State<W>, t: Tid, req: Request<W>): State<W>
    requires Enabled(st, t)
  {
    match st.threads[t]
    case Idle =>
      st.(threads := st.threads[t := if req.Enqueue? then EnqCount(req.w) else DeqCheck(req.max)])
    case EnqCount(w) =>
      st.(q := st.q.CountUp(t), threads := st.threads[t := EnqPush(w)])
    case EnqPush(w) =>
      st.(q := st.q.PushBack(w), threads := st.threads[t := Idle])
    case DeqCheck(max) =>
      st.(threads := st.threads[t := if st.q.count == 0 then Idle else DeqDrain(max)])
    case DeqDrain(max) =>
      var b := st.q.Batch(max);
      st.(q := st.q.Drain(t, max), threads := st.threads[t := DeqCount(b)], batches := st.batches + [b])
    case DeqCount(b) =>
      st.(q := st.q.CountDown(|b|), threads := st.threads[t := DeqWake(b)])
    case DeqWake(b) =>
      st.(threads := st.threads[t := Idle], returned := st.returned + |b|)
  }

  ghost predicate StepAt<W(!new)>(trace: seq<State<W>>, i: int)
    requires 0 < i < |trace|
  {
    Next(trace[i - 1], trace[i])
  }

  ghost predicate Run<W(!new)>(trace: seq<State<W>>) {
    && |trace| > 0
    && Init(trace[0])
    && forall i :: 0 < i < |trace| ==> StepAt(trace, i)
  }

  ghost predicate Next<W(!new)>(st: State<W>, st': State<W>) {
    exists t, req :: Enabled(st, t) && st' == Act(st, t, req)
  }

  /** Which threads are in a lock section, and what the counter is off by meanwhile. */
  ghost predicate LocalInv<W>(q: Queue<W>, t: Tid, pc: PC<W>) {
    && (q.holder == Some(t) <==> pc.EnqPush? || pc.DeqCount?)
    && (pc.EnqPush? ==> q.count == |q.wakers| + 1)
    && (pc.DeqCount? ==> q.count == |q.wakers| + |pc.batch|)
  }

  function Drained<W>(pc: PC<W>): nat {
    if pc.DeqCount? || pc.DeqWake? then |pc.batch| else 0
  }

  /** The size of the batch each thread has drained but not yet reported. */
  function InFlight<W>(threads: map<Tid, PC<W>>): map<Tid, nat> {
    map t | t in threads :: Drained(threads[t])
  }

  ghost predicate Inv<W>(st: State<W>) {
    && st.q.Conserves()
    && (st.q.holder.None? ==> st.q.count == |st.q.wakers|)
    && (st.q.holder.Some? ==> st.q.holder.value in st.threads)
    && (forall t :: t in st.threads ==> LocalInv(st.q, t, st.threads[t]))
    && Flatten(st.batches) == st.q.dequeued
    && st.returned + Total(InFlight(st.threads)) == |st.q.dequeued|
  }

  lemma InitInv<W>(st: State<W>)
    requires Init(st)
    ensures Inv(st)
  {
    SumOverZero(InFlight(st.threads).Keys, InFlight(st.threads));
  }

  lemma ActQueue<W>(st: State<W>, t: Tid, req: Request<W>)
    requires Inv(st) && Enabled(st, t)
    ensures var st' := Act(st, t, req);
      && st'.q.Conserves()
      && (st'.q.holder.None? ==> st'.q.count == |st'.q.wakers|)
      && (forall u :: u in st'.threads ==> LocalInv(st'.q, u, st'.threads[u]))
  {
    assert LocalInv(st.q, t, st.threads[t]);
  }

  lemma ActCounts<W>(st: State<W>, t: Tid, req: Request<W>)
    requires Inv(st) && Enabled(st, t)
    ensures var st' := Act(st, t, req);
      && Flatten(st'.batches) == st'.q.dequeued
      && st'.returned + Total(InFlight(st'.threads)) == |st'.q.dequeued|
  {
    var st' := Act(st, t, req);
    TotalUpdate(InFlight(st.threads), t, Drained(st'.threads[t]));
    assert InFlight(st'.threads) == InFlight(st.threads)[t := Drained(st'.threads[t])];
    if st.threads[t].DeqDrain? {
      FlattenSnoc(st.batches, st.q.Batch(st.threads[t].max));
    }
  }

  lemma {:induction false} RunInv<W(!new)>(trace: seq<State<W>>, i: nat)
    requires Run(trace) && i < |trace|
    ensures Inv(trace[i])
  {
    if i == 0 {
      InitInv(trace[0]);
    } else {
      RunInv(trace, i - 1);
      assert StepAt(trace, i);
      var t, req :| Enabled(trace[i - 1], t) && trace[i] == Act(trace[i - 1], t, req);
      ActQueue(trace[i - 1], t, req);
      ActCounts(trace[i - 1], t, req);
    }
  }

  /**
   In every run: the drained batches, in order, followed by the queue are exactly
   the enqueue history; the counter is exact whenever the lock is free and never
   below the queue length; and once no dequeue is in progress the returned counts
   add up to the number of wakers taken out.
   */
  lemma QueueOrder<W(!new)>(trace: seq<State<W>>, i: nat)
    requires Run(trace) && i < |trace|
    ensures Flatten(trace[i].batches) + trace[i].q.wakers == trace[i].q.enqueued
    ensures trace[i].q.holder.None? ==> trace[i].q.count == |trace[i].q.wakers|
    ensures trace[i].q.count >= |trace[i].q.wakers|
    ensures (forall t :: t in trace[i].threads ==> Drained(trace[i].threads[t]) == 0)
            ==> trace[i].returned == |Flatten(trace[i].batches)|
  {
    RunInv(trace, i);
    var st := trace[i];
    if st.q.holder.Some? {
      assert LocalInv(st.q, st.q.holder.value, st.threads[st.q.holder.value]);
    }
    if forall t :: t in st.threads ==> Drained(st.threads[t]) == 0 {
      SumOverZero(InFlight(st.threads).Keys, InFlight(st.threads));
    }
  }

  /**
   The unlocked fast path is sound: a dequeue that gives up on a zero counter
   leaves no enqueued waker behind, because the counter is raised before a waker
   becomes visible and lowered after it is gone.
   */
  lemma FastPathSound<W(!new)>(trace: seq<State<W>>, i: nat, t: Tid, req: Request<W>)
    requires Run(trace) && i < |trace|
    requires Enabled(trace[i], t) && trace[i].threads[t].DeqCheck?
    requires Act(trace[i], t, req).threads[t] == Idle
    ensures trace[i].q.wakers == [] && trace[i].q.dequeued == trace[i].q.enqueued
  {
    QueueOrder(trace, i);
    RunInv(trace, i);
  }

  /**
   A dequeue takes the oldest wakers, as many as it asked for or all there are, and an
   enqueue adds exactly its own waker at the end.
   */
  lemma QueueMoves<W>(st: State<W>, t: Tid, req: Request<W>)
    requires Enabled(st, t)
    ensures var st' := Act(st, t, req);
      match st.threads[t]
      case DeqDrain(max) =>
        && |st'.batches| == |st.batches| + 1
        && (var b := st'.batches[|st.batches|];
            && st.q.wakers == b + st'.q.wakers
            && |b| <= max && (|b| == max || st'.q.wakers == [])
            && st'.threads[t] == DeqCount(b))
      case EnqPush(w) => st'.q.wakers == st.q.wakers + [w] && st'.q.enqueued == st.q.enqueued + [w]
      case _ => st'.q.wakers == st.q.wakers
  {
  }
}
