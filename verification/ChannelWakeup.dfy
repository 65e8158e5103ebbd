/** No wake-up of the channel is ever lost, and its locks cannot deadlock. */
module ChannelWakeup {
  import opened Channel
  import Order = ChannelOrder

  // ---- What a program counter has promised to do

  /** Wakers taken out of a queue whose flags are still to be set. */
  function Batch(pc: PC): seq<Waker> {
    if pc.WakeCount? || pc.WakeFlags? then pc.batch else []
  }

  /** Threads whose eventfd is still to be written. */
  function Fds(pc: PC): seq<Tid> {
    if pc.WakeFlags? || pc.WakeFds? then pc.fds else []
  }

  predicate ThenOwn(q: Side, ret: Return, s: Side) {
    ret.InBroadcast? && ret.own && q.Peer() == s
  }

  /** The thread is going to wake every waiter in the queue of side `s`. */
  predicate Owes(pc: PC, s: Side) {
    match pc
    case Transfer(c, _, _, moved) => moved != [] && c.Side().Peer() == s
    case BcastLock(q, _, own) => q == s || own
    case BcastAt(q, _, i, own) => (q == s && i == 0) || (own && q.Peer() == s)
    case WakeCheck(q, ret) => q == s || ThenOwn(q, ret, s)
    case WakeDrain(q, ret) => q == s || ThenOwn(q, ret, s)
    case WakeCount(q, _, ret) => ThenOwn(q, ret, s)
    case WakeFlags(q, _, _, ret) => ThenOwn(q, ret, s)
    case WakeFds(q, _, ret) => ThenOwn(q, ret, s)
    case _ => false
  }

  /** The thread has enqueued its waker and has not found a reason not to sleep yet. */
  predicate Waiting(pc: PC) {
    || ((pc.Enter? || pc.CheckPeer? || pc.CheckEof? || pc.CheckNonblock?) && pc.armed)
    || (pc.Transfer? && pc.armed && pc.moved == [])
    || pc.CheckFlag? || pc.Poll? || pc.ReadFd?
  }

  predicate Sleeping(pc: PC) {
    pc.CheckFlag? || pc.Poll? || pc.ReadFd?
  }

  /** A call of this kind cannot make progress and may not return. */
  predicate Blocked(f: Flow, nonblocking: bool, s: Side) {
    && !f.producerShut && !f.consumerShut && !nonblocking
    && if s == Producer then |f.ring| == f.cap else f.ring == []
  }

  /** The part of `Blocked` that the thread has already checked in this round. */
  predicate Checked(f: Flow, nonblocking: bool, pc: PC) {
    if Sleeping(pc) then Blocked(f, nonblocking, pc.c.Side())
    else if pc.CheckNonblock? then Blocked(f, false, pc.c.Side())
    else if pc.CheckEof? then !f.consumerShut && f.ring == []
    else if pc.Transfer? then !f.Shut(pc.c.Side()) && (pc.c.Send? ==> !f.consumerShut)
    else if pc.CheckPeer? then !f.producerShut
    else true
  }

  // ---- Effects of one step, seen from outside

  lemma BatchProgress(sh: Shared, t: Tid, th: Thread, ch: Choice, w: Waker)
    requires Enabled(sh, t, th, ch) && w in Batch(th.pc)
    ensures var (sh', th') := Act(sh, t, th, ch);
      w in Batch(th'.pc) || (w in sh'.waiters ==> sh'.waiters[w])
  {
  }

  lemma FdsProgress(sh: Shared, t: Tid, th: Thread, ch: Choice, u: Tid)
    requires Enabled(sh, t, th, ch) && u in Fds(th.pc)
    ensures var (sh', th') := Act(sh, t, th, ch);
      u in Fds(th'.pc) || u in sh'.eventfds
  {
  }

  lemma QueueParking(sh: Shared, t: Tid, th: Thread, ch: Choice, w: Waker, s: Side)
    requires Parks(th.pc) && w in sh.At(s).queue.wakers
    ensures w in ActPark(sh, t, th, ch).0.At(s).queue.wakers
  {
  }

  lemma QueueWaking(sh: Shared, t: Tid, th: Thread, w: Waker, s: Side)
    requires Wakes(th.pc) && w in sh.At(s).queue.wakers
    ensures var (sh', th') := ActWake(sh, t, th);
      w in sh'.At(s).queue.wakers || w in Batch(th'.pc)
  {
  }

  lemma QueueAside(sh: Shared, t: Tid, th: Thread, ch: Choice, s: Side)
    requires Enabled(sh, t, th, ch) && !Parks(th.pc) && !Wakes(th.pc)
    ensures Act(sh, t, th, ch).0.At(s).queue == sh.At(s).queue
  {
  }

  lemma QueueProgress(sh: Shared, t: Tid, th: Thread, ch: Choice, w: Waker, s: Side)
    requires Enabled(sh, t, th, ch) && w in sh.At(s).queue.wakers
    ensures var (sh', th') := Act(sh, t, th, ch);
      w in sh'.At(s).queue.wakers || w in Batch(th'.pc)
  {
    if Parks(th.pc) {
      QueueParking(sh, t, th, ch, w, s);
    } else if Wakes(th.pc) {
      QueueWaking(sh, t, th, w, s);
    } else {
      QueueAside(sh, t, th, ch, s);
    }
  }

  lemma OwesProgress(sh: Shared, t: Tid, th: Thread, ch: Choice, s: Side)
    requires Enabled(sh, t, th, ch) && Owes(th.pc, s)
    requires Order.EndsOK(sh) && Order.CallOK(sh.flow, th.pc)
    requires sh.At(s).queue.count >= |sh.At(s).queue.wakers|
    ensures var (sh', th') := Act(sh, t, th, ch);
      Owes(th'.pc, s) || sh.At(s).queue.wakers == [] || sh'.At(s).queue.wakers == []
  {
  }

  lemma CheckedTransfer(sh: Shared, th: Thread, nonblocking: bool, other: PC)
    requires th.pc.Transfer? && Waiting(other) && (other.CheckEof? ==> other.c.Recv?)
    requires Checked(sh.flow, nonblocking, other)
    ensures var (sh', th') := ActTransfer(sh, th);
      Checked(sh'.flow, nonblocking, other) || Owes(th'.pc, other.c.Side())
  {
  }

  lemma CheckedControl(sh: Shared, t: Tid, th: Thread, other: PC)
    requires Controls(th.pc) && Waiting(other)
    requires Checked(sh.flow, sh.At(other.c.Side()).nonblocking, other)
    ensures var (sh', th') := ActControl(sh, t, th);
      Checked(sh'.flow, sh'.At(other.c.Side()).nonblocking, other) || Owes(th'.pc, other.c.Side())
  {
  }

  lemma Untouched(sh: Shared, t: Tid, th: Thread, ch: Choice, s: Side)
    requires Enabled(sh, t, th, ch)
    ensures var sh' := Act(sh, t, th, ch).0;
      && (!Controls(th.pc) ==> sh'.At(s).nonblocking == sh.At(s).nonblocking)
      && (!Controls(th.pc) && !th.pc.Transfer? ==> sh'.flow == sh.flow)
  {
    if Parks(th.pc) || Broadcasts(th.pc) || Wakes(th.pc) {
      UntouchedAside(sh, t, th, ch, s);
    }
  }

  lemma UntouchedAside(sh: Shared, t: Tid, th: Thread, ch: Choice, s: Side)
    requires Parks(th.pc) || Broadcasts(th.pc) || Wakes(th.pc)
    ensures var sh' :=
        if Parks(th.pc) then ActPark(sh, t, th, ch).0
        else if Broadcasts(th.pc) then ActBcast(sh, t, th).0
        else ActWake(sh, t, th).0;
      sh'.At(s).nonblocking == sh.At(s).nonblocking && sh'.flow == sh.flow
  {
  }

  lemma CheckedProgress(sh: Shared, t: Tid, th: Thread, ch: Choice, other: PC)
    requires Enabled(sh, t, th, ch) && Waiting(other) && (other.CheckEof? ==> other.c.Recv?)
    requires Checked(sh.flow, sh.At(other.c.Side()).nonblocking, other)
    ensures var (sh', th') := Act(sh, t, th, ch);
      Checked(sh'.flow, sh'.At(other.c.Side()).nonblocking, other) || Owes(th'.pc, other.c.Side())
  {
    Untouched(sh, t, th, ch, other.c.Side());
    if th.pc.Transfer? {
      CheckedTransfer(sh, th, sh.At(other.c.Side()).nonblocking, other);
    } else if Controls(th.pc) {
      CheckedControl(sh, t, th, other);
    }
  }

  lemma WaiterParking(sh: Shared, t: Tid, th: Thread, ch: Choice, w: Waker)
    requires Parks(th.pc) && w.tid != t
    ensures var sh' := ActPark(sh, t, th, ch).0;
      && (w in sh'.waiters <==> w in sh.waiters)
      && (w in sh.waiters ==> sh'.waiters[w] == sh.waiters[w])
      && (w.tid in sh.eventfds <==> w.tid in sh'.eventfds)
  {
  }

  lemma WaiterWaking(sh: Shared, t: Tid, th: Thread, w: Waker)
    requires Wakes(th.pc)
    ensures var (sh', th') := ActWake(sh, t, th);
      && (w in sh'.waiters <==> w in sh.waiters)
      && (w in sh.waiters && sh.waiters[w] ==> sh'.waiters[w])
      && (w in sh.waiters && !sh.waiters[w] && sh'.waiters[w] ==> w.tid in Fds(th'.pc))
      && (w.tid in sh.eventfds ==> w.tid in sh'.eventfds)
  {
  }

  /** A step touches only its own waiter, except for setting flags it will follow up. */
  lemma WaiterProgress(sh: Shared, t: Tid, th: Thread, ch: Choice, w: Waker)
    requires Enabled(sh, t, th, ch) && w.tid != t
    ensures var (sh', th') := Act(sh, t, th, ch);
      && (w in sh'.waiters <==> w in sh.waiters)
      && (w in sh.waiters && sh.waiters[w] ==> sh'.waiters[w])
      && (w in sh.waiters && !sh.waiters[w] && sh'.waiters[w] ==> w.tid in Fds(th'.pc))
      && (w.tid in sh.eventfds ==> w.tid in sh'.eventfds)
  {
    if Parks(th.pc) {
      WaiterParking(sh, t, th, ch, w);
    } else if Wakes(th.pc) {
      WaiterWaking(sh, t, th, w);
    } else {
      WaiterAside(sh, t, th, ch);
    }
  }

  /** Other steps make or drop the thread's own waiter only. */
  lemma WaiterAside(sh: Shared, t: Tid, th: Thread, ch: Choice)
    requires Enabled(sh, t, th, ch) && !Parks(th.pc) && !Wakes(th.pc)
    ensures var sh' := Body(sh, t, th, ch).0;
      && sh'.eventfds == sh.eventfds
      && (sh'.waiters == sh.waiters || sh'.waiters == sh.waiters[Waker(t, th.serial + 1) := false])
  {
  }

  // ---- The waiting thread's own steps

  /** Nothing moved and no slice left: the ring was full, or empty for a receive. */
  lemma TransferBlocked(f: Flow, pc: PC)
    requires pc.Transfer? && Order.CallOK(f, pc) && |f.ring| <= f.cap
    requires pc.moved + Items(f, pc.c, pc.i) == [] && Finished(f, pc.c, pc.i)
    ensures if pc.c.Send? then |f.ring| == f.cap else f.ring == []
  {
  }

  /** A retry that stays on course to sleep has checked one thing more and changed nothing. */
  ghost predicate Retries(sh: Shared, th: Thread, sh': Shared, th': Thread)
    requires Waiting(th.pc) && Waiting(th'.pc)
  {
    && th'.serial == th.serial && th'.pc.c == th.pc.c
    && sh'.waiters == sh.waiters && sh'.At(th.pc.c.Side()).queue == sh.At(th.pc.c.Side()).queue
    && (var s := th.pc.c.Side();
        Checked(sh.flow, sh.At(s).nonblocking, th.pc) ==> Checked(sh'.flow, sh'.At(s).nonblocking, th'.pc))
  }

  lemma RetryBody(sh: Shared, t: Tid, th: Thread, ch: Choice)
    requires Enabled(sh, t, th, ch) && Waiting(th.pc) && !Parks(th.pc) && !th.pc.Transfer?
    requires Order.CallOK(sh.flow, th.pc)
    ensures var (sh', th') := Act(sh, t, th, ch);
      Waiting(th'.pc) ==> Retries(sh, th, sh', th')
  {
  }

  lemma RetryTransfer(sh: Shared, t: Tid, th: Thread, ch: Choice)
    requires Enabled(sh, t, th, ch) && Waiting(th.pc) && th.pc.Transfer?
    requires Order.CallOK(sh.flow, th.pc) && |sh.flow.ring| <= sh.flow.cap
    ensures var (sh', th') := Act(sh, t, th, ch);
      Waiting(th'.pc) ==> Retries(sh, th, sh', th')
  {
    var f, c, i := sh.flow, th.pc.c, th.pc.i;
    if Finished(f, c, i) && th.pc.moved + Items(f, c, i) == [] {
      TransferBlocked(f, th.pc);
    }
  }

  lemma RetryPark(sh: Shared, t: Tid, th: Thread, ch: Choice)
    requires Enabled(sh, t, th, ch) && Parks(th.pc) && Waker(t, th.serial) in sh.waiters
    ensures var (sh', th') := Act(sh, t, th, ch);
      && (Parks(th'.pc) || Waiting(th'.pc) ==> th'.serial == th.serial && Waker(t, th.serial) in sh'.waiters)
      && (Waiting(th'.pc) && Waiting(th.pc) ==> Retries(sh, th, sh', th'))
      && (Waiting(th'.pc) && !Waiting(th.pc) ==>
            th'.pc.Enter? && Waker(t, th.serial) in sh'.At(th'.pc.c.Side()).queue.wakers)
      && (th'.pc.Poll? ==> !sh'.waiters[Waker(t, th.serial)])
  {
  }

  /** A thread comes to park or retry only from its own call, with its waiter made. */
  lemma ArmedFrom(sh: Shared, t: Tid, th: Thread, ch: Choice)
    requires Enabled(sh, t, th, ch) && !Parks(th.pc) && !Waiting(th.pc)
    ensures var (sh', th') := Act(sh, t, th, ch);
      && !Waiting(th'.pc)
      && (Parks(th'.pc) ==> Waker(t, th'.serial) in sh'.waiters)
  {
  }

  // ---- The invariant

  ghost predicate InBatch(st: State, w: Waker) {
    exists u :: u in st.threads && w in Batch(st.threads[u].pc)
  }

  ghost predicate WritePending(st: State, t: Tid) {
    exists u :: u in st.threads && t in Fds(st.threads[u].pc)
  }

  ghost predicate Owed(st: State, s: Side) {
    exists u :: u in st.threads && Owes(st.threads[u].pc, s)
  }

  /** An unset flag is sure to be set if the checks so far no longer hold. */
  ghost predicate FlagOK(st: State, t: Tid)
    requires t in st.threads && Waiting(st.threads[t].pc)
  {
    var pc, w := st.threads[t].pc, Waker(t, st.threads[t].serial);
    var e := st.sh.At(pc.c.Side());
    InBatch(st, w) ||
    (w in e.queue.wakers && (Checked(st.sh.flow, e.nonblocking, pc) || Owed(st, pc.c.Side())))
  }

  ghost predicate WaiterOK(st: State, t: Tid)
    requires t in st.threads
  {
    var pc, w := st.threads[t].pc, Waker(t, st.threads[t].serial);
    && (Parks(pc) || Waiting(pc) ==> w in st.sh.waiters)
    && (Waiting(pc) && !st.sh.waiters[w] ==> FlagOK(st, t))
    && (pc.Poll? && st.sh.waiters[w] ==> t in st.sh.eventfds || WritePending(st, t))
  }

  ghost predicate Inv(st: State) {
    && Order.Inv(st)
    && forall t :: t in st.threads ==> WaiterOK(st, t)
  }

  lemma CountCovers(st: State, s: Side)
    requires Order.Inv(st)
    ensures st.sh.At(s).queue.count >= |st.sh.At(s).queue.wakers|
  {
    var q := st.sh.At(s).queue;
    if q.holder.Some? {
      assert Order.LocalOK(st.sh, q.holder.value, st.threads[q.holder.value].pc);
    }
  }

  lemma InBatchStep(st: State, st': State, v: Tid, ch: Choice, w: Waker)
    requires StepBy(st, st', v, ch) && InBatch(st, w)
    ensures InBatch(st', w) || (w in st'.sh.waiters ==> st'.sh.waiters[w])
  {
    var u :| u in st.threads && w in Batch(st.threads[u].pc);
    if u == v {
      BatchProgress(st.sh, v, st.threads[v], ch, w);
      assert v in st'.threads;
    } else {
      assert u in st'.threads;
    }
  }

  lemma WritePendingStep(st: State, st': State, v: Tid, ch: Choice, t: Tid)
    requires StepBy(st, st', v, ch) && WritePending(st, t)
    ensures WritePending(st', t) || t in st'.sh.eventfds
  {
    var u :| u in st.threads && t in Fds(st.threads[u].pc);
    if u == v {
      FdsProgress(st.sh, v, st.threads[v], ch, t);
      assert v in st'.threads;
    } else {
      assert u in st'.threads;
    }
  }

  lemma OwedStep(st: State, st': State, v: Tid, ch: Choice, s: Side)
    requires Order.Inv(st) && StepBy(st, st', v, ch) && Owed(st, s)
    ensures Owed(st', s) || st.sh.At(s).queue.wakers == [] || st'.sh.At(s).queue.wakers == []
  {
    var u :| u in st.threads && Owes(st.threads[u].pc, s);
    if u == v {
      CountCovers(st, s);
      OwesProgress(st.sh, v, st.threads[v], ch, s);
      assert v in st'.threads;
    } else {
      assert u in st'.threads;
    }
  }

  /** Someone else's step: the waker moves on, or the reason to sleep stays or is owed. */
  lemma FlagStep(st: State, st': State, v: Tid, ch: Choice, t: Tid)
    requires Order.Inv(st) && StepBy(st, st', v, ch) && t in st.threads && t != v
    requires Waiting(st.threads[t].pc) && FlagOK(st, t)
    requires var w := Waker(t, st.threads[t].serial); w in st'.sh.waiters && !st'.sh.waiters[w]
    ensures FlagOK(st', t)
  {
    var pc, w := st.threads[t].pc, Waker(t, st.threads[t].serial);
    var s := pc.c.Side();
    if InBatch(st, w) {
      InBatchStep(st, st', v, ch, w);
    } else {
      QueueProgress(st.sh, v, st.threads[v], ch, w, s);
      if w in st'.sh.At(s).queue.wakers {
        if Owed(st, s) {
          OwedStep(st, st', v, ch, s);
        } else {
          assert Order.CallOK(st.sh.flow, pc);
          CheckedProgress(st.sh, v, st.threads[v], ch, pc);
          assert v in st'.threads;
        }
      } else {
        assert v in st'.threads;
      }
    }
  }

  lemma OtherWaiter(st: State, st': State, v: Tid, ch: Choice, t: Tid)
    requires Inv(st) && StepBy(st, st', v, ch) && t in st.threads && t != v
    ensures WaiterOK(st', t)
  {
    var pc, w := st.threads[t].pc, Waker(t, st.threads[t].serial);
    assert WaiterOK(st, t);
    WaiterProgress(st.sh, v, st.threads[v], ch, w);
    if Waiting(pc) && !st'.sh.waiters[w] {
      FlagStep(st, st', v, ch, t);
    }
    if pc.Poll? && st'.sh.waiters[w] && t !in st'.sh.eventfds {
      if st.sh.waiters[w] {
        WritePendingStep(st, st', v, ch, t);
      } else {
        assert v in st'.threads && t in Fds(st'.threads[v].pc);
      }
    }
  }

  /** A thread on course to sleep is not itself the one that will wake it. */
  lemma SelfFlag(st: State, st': State, t: Tid)
    requires t in st.threads && t in st'.threads && st'.threads == st.threads[t := st'.threads[t]]
    requires Waiting(st.threads[t].pc) && Waiting(st'.threads[t].pc) && FlagOK(st, t)
    requires Retries(st.sh, st.threads[t], st'.sh, st'.threads[t])
    ensures FlagOK(st', t)
  {
    var pc, w := st.threads[t].pc, Waker(t, st.threads[t].serial);
    var s := pc.c.Side();
    assert Batch(pc) == [] && !Owes(pc, s);
    if InBatch(st, w) {
      var u :| u in st.threads && w in Batch(st.threads[u].pc);
      assert u in st'.threads && w in Batch(st'.threads[u].pc);
    } else if Owed(st, s) {
      var u :| u in st.threads && Owes(st.threads[u].pc, s);
      assert u in st'.threads && Owes(st'.threads[u].pc, s);
    }
  }

  lemma SelfParked(st: State, st': State, t: Tid, ch: Choice)
    requires Inv(st) && StepBy(st, st', t, ch) && Parks(st.threads[t].pc)
    ensures WaiterOK(st', t)
  {
    var th := st.threads[t];
    assert WaiterOK(st, t);
    RetryPark(st.sh, t, th, ch);
    if Waiting(th.pc) && Waiting(st'.threads[t].pc) && !st.sh.waiters[Waker(t, th.serial)] {
      SelfFlag(st, st', t);
    }
  }

  /** A retry parks only by way of looking at its flag. */
  lemma RetryLeads(sh: Shared, t: Tid, th: Thread, ch: Choice)
    requires Enabled(sh, t, th, ch) && Waiting(th.pc) && !Parks(th.pc)
    ensures var pc' := Act(sh, t, th, ch).1.pc; (Parks(pc') ==> Waiting(pc')) && !pc'.Poll?
  {
  }

  lemma RetryKeeps(st: State, st': State, t: Tid)
    requires t in st.threads && t in st'.threads && st'.threads == st.threads[t := st'.threads[t]]
    requires WaiterOK(st, t) && Waiting(st.threads[t].pc)
    requires var pc' := st'.threads[t].pc; (Parks(pc') ==> Waiting(pc')) && !pc'.Poll?
    requires Waiting(st'.threads[t].pc) ==> Retries(st.sh, st.threads[t], st'.sh, st'.threads[t])
    ensures WaiterOK(st', t)
  {
    if Waiting(st'.threads[t].pc) && !st.sh.waiters[Waker(t, st.threads[t].serial)] {
      SelfFlag(st, st', t);
    }
  }

  lemma SelfRetrying(st: State, st': State, t: Tid, ch: Choice)
    requires Inv(st) && StepBy(st, st', t, ch) && !Parks(st.threads[t].pc) && Waiting(st.threads[t].pc)
    ensures WaiterOK(st', t)
  {
    var th := st.threads[t];
    assert WaiterOK(st, t) && Order.CallOK(st.sh.flow, th.pc);
    RetryLeads(st.sh, t, th, ch);
    if th.pc.Transfer? {
      RetryTransfer(st.sh, t, th, ch);
    } else {
      RetryBody(st.sh, t, th, ch);
    }
    RetryKeeps(st, st', t);
  }

  lemma StepInv(st: State, st': State, t: Tid, ch: Choice)
    requires Inv(st) && StepBy(st, st', t, ch)
    ensures Inv(st')
  {
    Order.StepInv(st, st', t, ch);
    if Parks(st.threads[t].pc) {
      SelfParked(st, st', t, ch);
    } else if Waiting(st.threads[t].pc) {
      SelfRetrying(st, st', t, ch);
    } else {
      ArmedFrom(st.sh, t, st.threads[t], ch);
      assert WaiterOK(st', t);
    }
    forall u | u in st'.threads && u != t
      ensures WaiterOK(st', u)
    {
      OtherWaiter(st, st', t, ch, u);
    }
  }

  lemma OuterWaiter(st: State, st': State, e: Outer, t: Tid)
    requires Inv(st) && OuterStep(st, st', e) && t in st.threads
    ensures WaiterOK(st', t)
  {
    assert WaiterOK(st, t);
    var w := Waker(t, st.threads[t].serial);
    assert InBatch(st, w) ==> InBatch(st', w);
    assert WritePending(st, t) ==> WritePending(st', t);
    assert Owed(st, Producer) ==> Owed(st', Producer);
    assert Owed(st, Consumer) ==> Owed(st', Consumer);
  }

  lemma OuterInv(st: State, st': State, e: Outer)
    requires Inv(st) && OuterStep(st, st', e)
    ensures Inv(st')
  {
    Order.OuterInv(st, st', e);
    forall t | t in st'.threads
      ensures WaiterOK(st', t)
    {
      OuterWaiter(st, st', e, t);
    }
  }

  lemma {:induction false} RunInv(trace: seq<State>, i: nat)
    requires Run(trace) && i < |trace|
    ensures Inv(trace[i])
  {
    if i == 0 {
      Order.InitInv(trace[0]);
    } else {
      RunInv(trace, i - 1);
      var st, st' := trace[i - 1], trace[i];
      assert StepAt(trace, i);
      if t, ch :| StepBy(st, st', t, ch) {
        StepInv(st, st', t, ch);
      } else {
        var e :| OuterStep(st, st', e);
        OuterInv(st, st', e);
      }
    }
  }

  // ---- Results

  /** The thread is asleep in the host and its eventfd is not readable. */
  predicate Parked(st: State, t: Tid) {
    t in st.threads && st.threads[t].pc.Poll? && t !in st.sh.eventfds
  }

  /** The side a parked thread waits on still blocks it. */
  predicate StillBlocked(st: State, s: Side) {
    Blocked(st.sh.flow, st.sh.At(s).nonblocking, s)
  }

  /**
   No lost wake-up. In every reachable state a thread asleep in a push or a pop
   whose flag is set has an eventfd write on its way; one whose flag is unset has
   its waker in a batch some thread is working through, or still in the queue while
   its blocking condition holds or some thread owes that queue a wake-all.
   */
  lemma NoLostWakeup(trace: seq<State>, i: nat, t: Tid)
    requires Run(trace) && i < |trace| && Parked(trace[i], t)
    ensures var st := trace[i];
      var s, w := st.threads[t].pc.c.Side(), Waker(t, st.threads[t].serial);
      && w in st.sh.waiters
      && if st.sh.waiters[w] then WritePending(st, t)
         else
           || InBatch(st, w)
           || (w in st.sh.At(s).queue.wakers && (StillBlocked(st, s) || Owed(st, s)))
  {
    RunInv(trace, i);
    assert WaiterOK(trace[i], t);
  }

  /** No thread is in the middle of waking anyone. */
  ghost predicate WakersIdle(st: State) {
    forall u :: u in st.threads ==>
      var pc := st.threads[u].pc;
      Batch(pc) == [] && Fds(pc) == [] && !Owes(pc, Producer) && !Owes(pc, Consumer)
  }

  lemma NoneInFlight(st: State, t: Tid, w: Waker, s: Side)
    requires WakersIdle(st)
    ensures !InBatch(st, w) && !WritePending(st, t) && !Owed(st, s)
  {
  }

  lemma ParkedForAReason(trace: seq<State>, i: nat, t: Tid)
    requires Run(trace) && i < |trace| && Parked(trace[i], t) && WakersIdle(trace[i])
    ensures StillBlocked(trace[i], trace[i].threads[t].pc.c.Side())
  {
    NoLostWakeup(trace, i, t);
    NoneInFlight(trace[i], t, Waker(t, trace[i].threads[t].serial), trace[i].threads[t].pc.c.Side());
  }

  /**
   No mutual sleep: with room for at least one item, a sender and a receiver of one
   channel are never both asleep with no wake-up owed or in flight.
   */
  lemma NoMutualSleep(trace: seq<State>, i: nat, t: Tid, u: Tid)
    requires Run(trace) && i < |trace| && trace[i].sh.flow.cap > 0
    requires Parked(trace[i], t) && trace[i].threads[t].pc.c.Send?
    requires Parked(trace[i], u) && trace[i].threads[u].pc.c.Recv?
    ensures !WakersIdle(trace[i])
  {
    if WakersIdle(trace[i]) {
      ParkedForAReason(trace, i, t);
      ParkedForAReason(trace, i, u);
    }
  }

  /** The thread can take a step on its own: no new call, no signal. */
  predicate Ready(st: State, t: Tid) {
    t in st.threads && Enabled(st.sh, t, st.threads[t], Go)
  }

  /** A thread inside a waiter-queue lock section never waits for anything. */
  lemma QueueHolderReady(st: State, s: Side)
    requires Order.Inv(st) && st.sh.At(s).queue.holder.Some?
    ensures Ready(st, st.sh.At(s).queue.holder.value)
  {
    var u := st.sh.At(s).queue.holder.value;
    assert Order.LocalOK(st.sh, u, st.threads[u].pc);
  }

  lemma LockHolderReady(st: State, s: Side)
    requires Order.Inv(st) && st.sh.At(s).lock.Some?
    ensures Ready(st, st.sh.At(s).lock.value)
  {
    var u := st.sh.At(s).lock.value;
    assert Order.LocalOK(st.sh, u, st.threads[u].pc);
  }

  /** A thread broadcasting under a subscriber lock waits at most for a queue lock. */
  lemma SubsHolderReady(st: State, s: Side) returns (u: Tid)
    requires Order.Inv(st) && st.sh.At(s).subsLock.Some?
    ensures Ready(st, u)
  {
    u := st.sh.At(s).subsLock.value;
    assert Order.LocalOK(st.sh, u, st.threads[u].pc);
    if !Ready(st, u) {
      QueueHolderReady(st, s);
      u := st.sh.At(s).queue.holder.value;
    }
  }

  /** No deadlock: while any thread is neither idle nor asleep, some thread can step. */
  lemma SomeoneReady(st: State, t: Tid) returns (u: Tid)
    requires Order.Inv(st) && t in st.threads && !st.threads[t].pc.Idle? && !Parked(st, t)
    ensures Ready(st, u)
  {
    u := t;
    var pc := st.threads[t].pc;
    if !Ready(st, t) {
      if pc.Enter? || pc.ShutEnter? {
        var s := if pc.Enter? then pc.c.Side() else pc.side;
        LockHolderReady(st, s);
        u := st.sh.At(s).lock.value;
      } else if pc.EnqCount? || pc.WakeDrain? {
        var s := if pc.EnqCount? then pc.c.Side() else pc.q;
        QueueHolderReady(st, s);
        u := st.sh.At(s).queue.holder.value;
      } else {
        u := SubsHolderReady(st, pc.q);
      }
    }
  }

  /** Idle, or asleep on a side that still blocks it, with its flag unset and its waker queued. */
  predicate AtRest(st: State, t: Tid)
    requires t in st.threads
  {
    var pc, w := st.threads[t].pc, Waker(t, st.threads[t].serial);
    || pc.Idle?
    || (&& Parked(st, t) && StillBlocked(st, pc.c.Side())
        && w in st.sh.At(pc.c.Side()).queue.wakers
        && w in st.sh.waiters && !st.sh.waiters[w])
  }

  /** Every reachable state in which nothing can move by itself is a legitimate rest. */
  lemma Quiescence(trace: seq<State>, i: nat, t: Tid)
    requires Run(trace) && i < |trace| && t in trace[i].threads
    requires forall u :: !Ready(trace[i], u)
    ensures AtRest(trace[i], t)
  {
    var st := trace[i];
    RunInv(trace, i);
    forall v | v in st.threads
      ensures st.threads[v].pc.Idle? || Parked(st, v)
    {
      if !st.threads[v].pc.Idle? && !Parked(st, v) {
        var u := SomeoneReady(st, v);
      }
    }
    assert WakersIdle(st);
    if Parked(st, t) {
      NoLostWakeup(trace, i, t);
      NoneInFlight(st, t, Waker(t, st.threads[t].serial), st.threads[t].pc.c.Side());
    }
  }
}
