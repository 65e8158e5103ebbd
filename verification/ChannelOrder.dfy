/** Mutual exclusion, FIFO conservation and the shutdown barrier of the channel. */
module ChannelOrder {
  import opened Util
  import opened Notifier
  import opened Channel

  // ---- Which locks a thread holds, by its program counter

  predicate HoldsLock(pc: PC, s: Side) {
    match pc
    case CheckPeer(c, _) => c.Side() == s
    case Transfer(c, _, _, _) => c.Side() == s
    case CheckEof(c, _, _, _) => c.Side() == s
    case CheckNonblock(c, _) => c.Side() == s
    case ShutSet(side) => side == s
    case _ => false
  }

  predicate HoldsQueue(pc: PC, s: Side) {
    match pc
    case EnqPush(c) => c.Side() == s
    case WakeCount(q, _, _) => q == s
    case _ => false
  }

  predicate HoldsSubs(pc: PC, s: Side) {
    match pc
    case BcastAt(q, _, _, _) => q == s
    case WakeCheck(q, ret) => q == s && ret.InBroadcast?
    case WakeDrain(q, ret) => q == s && ret.InBroadcast?
    case WakeCount(q, _, ret) => q == s && ret.InBroadcast?
    case WakeFlags(q, _, _, ret) => q == s && ret.InBroadcast?
    case WakeFds(q, _, ret) => q == s && ret.InBroadcast?
    case _ => false
  }

  predicate InCall(pc: PC) {
    pc.Enter? || pc.CheckPeer? || pc.Transfer? || pc.CheckEof? || pc.CheckNonblock? || Parks(pc)
  }

  ghost predicate LocksOK(e: Endpoint, t: Tid, pc: PC, s: Side) {
    && (e.lock == Some(t) <==> HoldsLock(pc, s))
    && (e.queue.holder == Some(t) <==> HoldsQueue(pc, s))
    && (e.subsLock == Some(t) <==> HoldsSubs(pc, s))
  }

  /** The counter is exact up to the holder's half-done update. */
  ghost predicate CountOK(e: Endpoint, pc: PC, s: Side) {
    HoldsQueue(pc, s) ==>
      e.queue.count == |e.queue.wakers| + (if pc.EnqPush? then 1 else |pc.batch|)
  }

  ghost predicate EndpointOK(e: Endpoint) {
    && LedBy(e.subs, Own)
    && e.queue.Conserves()
    && (e.queue.holder.None? ==> e.queue.count == |e.queue.wakers|)
  }

  ghost predicate EndsOK(sh: Shared) {
    EndpointOK(sh.producer) && EndpointOK(sh.consumer) && Own !in sh.freed
  }

  ghost predicate LocalOK(sh: Shared, t: Tid, pc: PC) {
    && LocksOK(sh.producer, t, pc, Producer) && CountOK(sh.producer, pc, Producer)
    && LocksOK(sh.consumer, t, pc, Consumer) && CountOK(sh.consumer, pc, Consumer)
  }

  // ---- The data path

  /** What has been moved so far by the call in progress, if it is at the ring. */
  function InFlight(pc: PC): seq<Item> {
    if pc.Transfer? then pc.moved else []
  }

  /** The items moved by finished calls, in order. */
  function Contributed(rs: seq<Record>): seq<Item> {
    if rs == [] then [] else Contributed(rs[..|rs| - 1]) + rs[|rs| - 1].items
  }

  /** The slices before `i` were moved whole. */
  ghost predicate TransferOK(pc: PC)
    requires pc.Transfer?
  {
    && pc.i < pc.c.Slices()
    && if pc.c.Send? then pc.moved == Flatten(pc.c.slices[..pc.i]) else |pc.moved| == Sum(pc.c.lens[..pc.i])
  }

  ghost predicate CallOK(f: Flow, pc: PC) {
    && (InCall(pc) ==> pc.c.Len() > 0)
    && (pc.Transfer? ==> TransferOK(pc))
    && (HoldsLock(pc, Producer) ==>
          !f.producerShut && f.pushed == Contributed(f.sends) + InFlight(pc))
    && (HoldsLock(pc, Consumer) ==>
          !f.consumerShut && f.popped == Contributed(f.recvs) + InFlight(pc))
    && (pc.CheckEof? ==>
          && pc.c.Recv? && f.popped <= f.pushed && pc.seen == |f.popped|
          && (pc.shut ==> f.producerShut && pc.seen == |f.pushed|))
  }

  ghost predicate SendRecordOK(r: Record) {
    r.call.Send? && r.items != [] && r.items <= Flatten(r.call.slices)
  }

  ghost predicate RecvRecordOK(r: Record) {
    r.call.Recv? && 0 < |r.items| <= Sum(r.call.lens)
  }

  ghost predicate FlowOK(f: Flow, producerFree: bool, consumerFree: bool) {
    && f.popped + f.ring == f.pushed && |f.ring| <= f.cap
    && (producerFree ==> f.pushed == Contributed(f.sends))
    && (consumerFree ==> f.popped == Contributed(f.recvs))
    && (forall r :: r in f.sends ==> SendRecordOK(r))
    && (forall r :: r in f.recvs ==> RecvRecordOK(r))
  }

  ghost predicate SharedFlowOK(sh: Shared) {
    FlowOK(sh.flow, sh.producer.lock.None?, sh.consumer.lock.None?)
  }

  // ---- What a step of thread `t` may change

  ghost predicate Mine(o: Option<Tid>, t: Tid) {
    o.None? || o == Some(t)
  }

  ghost predicate EndpointFrame(e: Endpoint, e': Endpoint, t: Tid) {
    && e'.subs == e.subs
    && (e'.lock != e.lock ==> Mine(e.lock, t) && Mine(e'.lock, t))
    && (e'.subsLock != e.subsLock ==> Mine(e.subsLock, t) && Mine(e'.subsLock, t))
    && (e'.queue != e.queue ==> Mine(e.queue.holder, t) && Mine(e'.queue.holder, t))
  }

  /** Histories only grow, flags stay set, and a shut endpoint moves nothing more. */
  ghost predicate Advances(f: Flow, f': Flow) {
    && f.pushed <= f'.pushed && f.popped <= f'.popped
    && (f.producerShut ==> f'.producerShut && f'.pushed == f.pushed)
    && (f.consumerShut ==> f'.consumerShut && f'.popped == f.popped)
  }

  ghost predicate FlowFrame(f: Flow, f': Flow, producer: bool, consumer: bool) {
    && f'.cap == f.cap
    && (!producer ==> f'.pushed == f.pushed && f'.sends == f.sends && f'.producerShut == f.producerShut)
    && (!consumer ==> f'.popped == f.popped && f'.recvs == f.recvs && f'.consumerShut == f.consumerShut)
    && Advances(f, f')
  }

  ghost predicate LocksStep(sh: Shared, t: Tid, sh': Shared, pc': PC) {
    && EndpointFrame(sh.producer, sh'.producer, t) && EndpointFrame(sh.consumer, sh'.consumer, t)
    && sh'.freed == sh.freed
    && EndsOK(sh') && LocalOK(sh', t, pc')
  }

  ghost predicate FlowStep(sh: Shared, pc: PC, sh': Shared, pc': PC) {
    && FlowFrame(sh.flow, sh'.flow, HoldsLock(pc, Producer), HoldsLock(pc, Consumer))
    && SharedFlowOK(sh') && CallOK(sh'.flow, pc')
  }

  lemma EnterLocks(sh: Shared, t: Tid, th: Thread)
    requires EndsOK(sh) && LocalOK(sh, t, th.pc) && th.pc.Enter? && Unblocked(sh, th.pc)
    ensures var (sh', th') := ActEnter(sh, t, th); LocksStep(sh, t, sh', th'.pc)
  {
  }

  lemma ChecksLocks(sh: Shared, t: Tid, th: Thread)
    requires EndsOK(sh) && LocalOK(sh, t, th.pc)
    ensures th.pc.CheckPeer? ==> var (sh', th') := ActCheckPeer(sh, th); LocksStep(sh, t, sh', th'.pc)
    ensures th.pc.CheckEof? ==> var (sh', th') := ActCheckEof(sh, th); LocksStep(sh, t, sh', th'.pc)
    ensures th.pc.CheckNonblock? ==> var (sh', th') := ActCheckNonblock(sh, t, th); LocksStep(sh, t, sh', th'.pc)
  {
  }

  lemma TransferLocks(sh: Shared, t: Tid, th: Thread)
    requires EndsOK(sh) && LocalOK(sh, t, th.pc) && th.pc.Transfer?
    ensures var (sh', th') := ActTransfer(sh, th); LocksStep(sh, t, sh', th'.pc)
  {
  }

  lemma ParkLocks(sh: Shared, t: Tid, th: Thread, ch: Choice)
    requires EndsOK(sh) && LocalOK(sh, t, th.pc) && Unblocked(sh, th.pc)
    requires Parks(th.pc)
    ensures var (sh', th') := ActPark(sh, t, th, ch); LocksStep(sh, t, sh', th'.pc)
  {
  }

  lemma ControlLocks(sh: Shared, t: Tid, th: Thread)
    requires EndsOK(sh) && LocalOK(sh, t, th.pc) && Unblocked(sh, th.pc)
    requires Controls(th.pc)
    ensures var (sh', th') := ActControl(sh, t, th); LocksStep(sh, t, sh', th'.pc)
  {
  }

  lemma BcastLocks(sh: Shared, t: Tid, th: Thread)
    requires EndsOK(sh) && LocalOK(sh, t, th.pc) && Unblocked(sh, th.pc)
    ensures th.pc.BcastLock? ==> var (sh', th') := ActBcast(sh, t, th); LocksStep(sh, t, sh', th'.pc)
  {
  }

  lemma BcastAtLocks(sh: Shared, t: Tid, th: Thread)
    requires EndsOK(sh) && LocalOK(sh, t, th.pc) && th.pc.BcastAt?
    ensures var (sh', th') := ActBcast(sh, t, th); LocksStep(sh, t, sh', th'.pc)
  {
  }

  lemma WakeDrainLocks(sh: Shared, t: Tid, th: Thread)
    requires EndsOK(sh) && LocalOK(sh, t, th.pc) && Unblocked(sh, th.pc) && th.pc.WakeDrain?
    ensures var (sh', th') := ActWake(sh, t, th); LocksStep(sh, t, sh', th'.pc)
  {
  }

  lemma WakeCountLocks(sh: Shared, t: Tid, th: Thread)
    requires EndsOK(sh) && LocalOK(sh, t, th.pc) && (th.pc.WakeCheck? || th.pc.WakeCount?)
    ensures var (sh', th') := ActWake(sh, t, th); LocksStep(sh, t, sh', th'.pc)
  {
  }

  lemma WakeBatchLocks(sh: Shared, t: Tid, th: Thread)
    requires EndsOK(sh) && LocalOK(sh, t, th.pc) && (th.pc.WakeFlags? || th.pc.WakeFds?)
    ensures var (sh', th') := ActWake(sh, t, th); LocksStep(sh, t, sh', th'.pc)
  {
  }

  lemma EnterFlow(sh: Shared, t: Tid, th: Thread)
    requires SharedFlowOK(sh) && CallOK(sh.flow, th.pc) && th.pc.Enter? && Unblocked(sh, th.pc)
    ensures var (sh', th') := ActEnter(sh, t, th); FlowStep(sh, th.pc, sh', th'.pc)
  {
  }

  lemma ChecksFlow(sh: Shared, t: Tid, th: Thread)
    requires SharedFlowOK(sh) && CallOK(sh.flow, th.pc) && LocalOK(sh, t, th.pc)
    ensures th.pc.CheckPeer? ==> var (sh', th') := ActCheckPeer(sh, th); FlowStep(sh, th.pc, sh', th'.pc)
    ensures th.pc.CheckEof? ==> var (sh', th') := ActCheckEof(sh, th); FlowStep(sh, th.pc, sh', th'.pc)
    ensures th.pc.CheckNonblock? ==> var (sh', th') := ActCheckNonblock(sh, t, th); FlowStep(sh, th.pc, sh', th'.pc)
  {
  }

  lemma ShutSetFlow(sh: Shared, t: Tid, th: Thread)
    requires SharedFlowOK(sh) && CallOK(sh.flow, th.pc) && LocalOK(sh, t, th.pc) && th.pc.ShutSet?
    ensures var (sh', th') := ActControl(sh, t, th); FlowStep(sh, th.pc, sh', th'.pc)
  {
  }

  lemma ControlFlow(sh: Shared, t: Tid, th: Thread)
    requires SharedFlowOK(sh) && CallOK(sh.flow, th.pc) && LocalOK(sh, t, th.pc) && Unblocked(sh, th.pc)
    requires Controls(th.pc)
    ensures var (sh', th') := ActControl(sh, t, th); FlowStep(sh, th.pc, sh', th'.pc)
  {
    if th.pc.ShutSet? {
      ShutSetFlow(sh, t, th);
    }
  }

  lemma ContributedSnoc(rs: seq<Record>, r: Record)
    ensures Contributed(rs + [r]) == Contributed(rs) + r.items
  {
    assert (rs + [r])[..|rs|] == rs;
  }

  /** Pushing slice `i` keeps what was moved a prefix of all slices, and whole slices so far. */
  lemma MoveSend(f: Flow, c: Call, i: nat, moved: seq<Item>)
    requires c.Send? && i < |c.slices| && moved == Flatten(c.slices[..i])
    ensures var m := moved + Items(f, c, i);
      m <= Flatten(c.slices) && (!Finished(f, c, i) ==> m == Flatten(c.slices[..i + 1]))
  {
    assert c.slices[..i + 1] == c.slices[..i] + [c.slices[i]];
    FlattenSnoc(c.slices[..i], c.slices[i]);
    FlattenPrefix(c.slices, i + 1);
    assert moved + Items(f, c, i) <= moved + c.slices[i];
  }

  lemma MoveRecv(f: Flow, c: Call, i: nat, moved: seq<Item>)
    requires c.Recv? && i < |c.lens| && |moved| == Sum(c.lens[..i])
    ensures var m := moved + Items(f, c, i);
      |m| <= Sum(c.lens) && (!Finished(f, c, i) ==> |m| == Sum(c.lens[..i + 1]))
  {
    assert c.lens[..i + 1] == c.lens[..i] + [c.lens[i]];
    SumSnoc(c.lens[..i], c.lens[i]);
    SumPrefix(c.lens, i + 1);
  }

  lemma MoveFifo(f: Flow, c: Call, i: nat)
    requires i < c.Slices() && f.popped + f.ring == f.pushed && |f.ring| <= f.cap
    ensures var f1 := Move(f, c, i);
      f1.popped + f1.ring == f1.pushed && |f1.ring| <= f1.cap && f.pushed <= f1.pushed && f.popped <= f1.popped
  {
  }

  lemma MoveFlow(f: Flow, pc: PC)
    requires pc.Transfer? && CallOK(f, pc) && FlowOK(f, false, false)
    ensures var f1, m := Move(f, pc.c, pc.i), pc.moved + Items(f, pc.c, pc.i);
      && f1.popped + f1.ring == f1.pushed && |f1.ring| <= f1.cap
      && FlowFrame(f, f1, pc.c.Send?, pc.c.Recv?)
      && if pc.c.Send? then f1.pushed == Contributed(f1.sends) + m else f1.popped == Contributed(f1.recvs) + m
  {
    MoveFifo(f, pc.c, pc.i);
  }

  /** Recording a finished call accounts for everything it moved. */
  lemma LogFlow(f: Flow, c: Call, m: seq<Item>, producerFree: bool, consumerFree: bool)
    requires m != [] && FlowOK(f, producerFree, consumerFree)
    requires if c.Send? then f.pushed == Contributed(f.sends) + m && m <= Flatten(c.slices)
             else f.popped == Contributed(f.recvs) + m && |m| <= Sum(c.lens)
    ensures FlowOK(Log(f, c, m), producerFree || c.Send?, consumerFree || c.Recv?)
  {
    ContributedSnoc(if c.Send? then f.sends else f.recvs, Record(c, m));
  }

  lemma SendFlow(sh: Shared, t: Tid, th: Thread)
    requires SharedFlowOK(sh) && CallOK(sh.flow, th.pc) && LocalOK(sh, t, th.pc) && th.pc.Transfer? && th.pc.c.Send?
    ensures var (sh', th') := ActTransfer(sh, th); FlowStep(sh, th.pc, sh', th'.pc)
  {
    var f, c, i, moved := sh.flow, th.pc.c, th.pc.i, th.pc.moved;
    var m := moved + Items(f, c, i);
    MoveFlow(f, th.pc);
    MoveSend(f, c, i, moved);
    if m != [] {
      LogFlow(Move(f, c, i), c, m, sh.producer.lock.None?, sh.consumer.lock.None?);
    }
  }

  lemma RecvFlow(sh: Shared, t: Tid, th: Thread)
    requires SharedFlowOK(sh) && CallOK(sh.flow, th.pc) && LocalOK(sh, t, th.pc) && th.pc.Transfer? && th.pc.c.Recv?
    ensures var (sh', th') := ActTransfer(sh, th); FlowStep(sh, th.pc, sh', th'.pc)
  {
    var f, c, i, moved := sh.flow, th.pc.c, th.pc.i, th.pc.moved;
    var m := moved + Items(f, c, i);
    MoveFlow(f, th.pc);
    MoveRecv(f, c, i, moved);
    if m != [] {
      LogFlow(Move(f, c, i), c, m, sh.producer.lock.None?, sh.consumer.lock.None?);
    }
  }

  /** Parking, broadcasting and waking leave the data path and the endpoint locks alone. */
  ghost predicate Quiet(sh: Shared, pc: PC, sh': Shared, pc': PC) {
    && sh'.flow == sh.flow
    && sh'.producer.lock == sh.producer.lock && sh'.consumer.lock == sh.consumer.lock
    && !HoldsLock(pc', Producer) && !HoldsLock(pc', Consumer)
    && (InCall(pc') ==> InCall(pc) && pc'.c == pc.c)
  }

  lemma QuietFlow(sh: Shared, pc: PC, sh': Shared, pc': PC)
    requires SharedFlowOK(sh) && CallOK(sh.flow, pc) && Quiet(sh, pc, sh', pc')
    ensures FlowStep(sh, pc, sh', pc')
  {
  }

  lemma ParkFlow(sh: Shared, t: Tid, th: Thread, ch: Choice)
    requires SharedFlowOK(sh) && CallOK(sh.flow, th.pc)
    requires Parks(th.pc)
    ensures var (sh', th') := ActPark(sh, t, th, ch); FlowStep(sh, th.pc, sh', th'.pc)
  {
    var (sh', th') := ActPark(sh, t, th, ch);
    QuietFlow(sh, th.pc, sh', th'.pc);
  }

  lemma BcastFlow(sh: Shared, t: Tid, th: Thread)
    requires SharedFlowOK(sh) && CallOK(sh.flow, th.pc) && Broadcasts(th.pc)
    ensures var (sh', th') := ActBcast(sh, t, th); FlowStep(sh, th.pc, sh', th'.pc)
  {
    var (sh', th') := ActBcast(sh, t, th);
    QuietFlow(sh, th.pc, sh', th'.pc);
  }

  lemma WakeFlow(sh: Shared, t: Tid, th: Thread)
    requires SharedFlowOK(sh) && CallOK(sh.flow, th.pc)
    requires Wakes(th.pc)
    ensures var (sh', th') := ActWake(sh, t, th); FlowStep(sh, th.pc, sh', th'.pc)
  {
    var (sh', th') := ActWake(sh, t, th);
    QuietFlow(sh, th.pc, sh', th'.pc);
  }

  // ---- Every step keeps the invariant

  lemma ActLocks(sh: Shared, t: Tid, th: Thread, ch: Choice)
    requires EndsOK(sh) && LocalOK(sh, t, th.pc) && Enabled(sh, t, th, ch)
    ensures var (sh', th') := Act(sh, t, th, ch); LocksStep(sh, t, sh', th'.pc)
  {
    if th.pc.Enter? {
      EnterLocks(sh, t, th);
    } else if th.pc.Transfer? {
      TransferLocks(sh, t, th);
    } else if Parks(th.pc) {
      ParkLocks(sh, t, th, ch);
    } else if Controls(th.pc) {
      ControlLocks(sh, t, th);
    } else if th.pc.BcastLock? {
      BcastLocks(sh, t, th);
    } else if th.pc.BcastAt? {
      BcastAtLocks(sh, t, th);
    } else if th.pc.WakeFlags? || th.pc.WakeFds? {
      WakeBatchLocks(sh, t, th);
    } else if th.pc.WakeDrain? {
      WakeDrainLocks(sh, t, th);
    } else if Wakes(th.pc) {
      WakeCountLocks(sh, t, th);
    } else {
      ChecksLocks(sh, t, th);
    }
  }

  lemma BodyFlow(sh: Shared, t: Tid, th: Thread, ch: Choice)
    requires SharedFlowOK(sh) && CallOK(sh.flow, th.pc) && LocalOK(sh, t, th.pc) && Enabled(sh, t, th, ch)
    requires InCall(th.pc)
    ensures var (sh', th') := Body(sh, t, th, ch); FlowStep(sh, th.pc, sh', th'.pc)
  {
    if th.pc.Enter? {
      EnterFlow(sh, t, th);
    } else if th.pc.Transfer? {
      if th.pc.c.Send? { SendFlow(sh, t, th); } else { RecvFlow(sh, t, th); }
    } else if Parks(th.pc) {
      ParkFlow(sh, t, th, ch);
    } else {
      ChecksFlow(sh, t, th);
    }
  }

  lemma AsideFlow(sh: Shared, t: Tid, th: Thread, ch: Choice)
    requires SharedFlowOK(sh) && CallOK(sh.flow, th.pc) && LocalOK(sh, t, th.pc) && Enabled(sh, t, th, ch)
    requires !InCall(th.pc)
    ensures var (sh', th') := Body(sh, t, th, ch); FlowStep(sh, th.pc, sh', th'.pc)
  {
    if Controls(th.pc) {
      ControlFlow(sh, t, th);
    } else if Broadcasts(th.pc) {
      BcastFlow(sh, t, th);
    } else if Wakes(th.pc) {
      WakeFlow(sh, t, th);
    }
  }

  lemma ActFlow(sh: Shared, t: Tid, th: Thread, ch: Choice)
    requires SharedFlowOK(sh) && CallOK(sh.flow, th.pc) && LocalOK(sh, t, th.pc) && Enabled(sh, t, th, ch)
    ensures var (sh', th') := Act(sh, t, th, ch); FlowStep(sh, th.pc, sh', th'.pc)
  {
    if InCall(th.pc) {
      BodyFlow(sh, t, th, ch);
    } else {
      AsideFlow(sh, t, th, ch);
    }
  }

  /** Owicki-Gries: a step of `t` does not disturb what another thread relies on. */
  lemma OtherThread(sh: Shared, t: Tid, pc: PC, sh': Shared, pc': PC, u: Tid, other: PC)
    requires u != t && LocalOK(sh, t, pc) && LocksStep(sh, t, sh', pc') && FlowStep(sh, pc, sh', pc')
    requires LocalOK(sh, u, other) && CallOK(sh.flow, other)
    ensures LocalOK(sh', u, other) && CallOK(sh'.flow, other)
  {
  }

  ghost predicate HeldBy(o: Option<Tid>, threads: map<Tid, Thread>) {
    o.Some? ==> o.value in threads
  }

  ghost predicate EndpointHeld(e: Endpoint, threads: map<Tid, Thread>) {
    HeldBy(e.lock, threads) && HeldBy(e.subsLock, threads) && HeldBy(e.queue.holder, threads)
  }

  ghost predicate ThreadsOK(sh: Shared, threads: map<Tid, Thread>) {
    forall t :: t in threads ==> LocalOK(sh, t, threads[t].pc) && CallOK(sh.flow, threads[t].pc)
  }

  ghost predicate Inv(st: State) {
    && EndsOK(st.sh) && SharedFlowOK(st.sh)
    && ThreadsOK(st.sh, st.threads)
    && EndpointHeld(st.sh.producer, st.threads) && EndpointHeld(st.sh.consumer, st.threads)
  }

  lemma InitInv(st: State)
    requires Init(st)
    ensures Inv(st)
  {
  }

  lemma StepInv(st: State, st': State, t: Tid, ch: Choice)
    requires Inv(st) && StepBy(st, st', t, ch)
    ensures Inv(st')
    ensures FlowStep(st.sh, st.threads[t].pc, st'.sh, st'.threads[t].pc)
    ensures LocksStep(st.sh, t, st'.sh, st'.threads[t].pc)
  {
    var th := st.threads[t];
    ActLocks(st.sh, t, th, ch);
    ActFlow(st.sh, t, th, ch);
    forall u | u in st'.threads && u != t
      ensures LocalOK(st'.sh, u, st'.threads[u].pc) && CallOK(st'.sh.flow, st'.threads[u].pc)
    {
      OtherThread(st.sh, t, th.pc, st'.sh, st'.threads[t].pc, u, st.threads[u].pc);
    }
  }

  lemma OuterInv(st: State, st': State, e: Outer)
    requires Inv(st) && OuterStep(st, st', e)
    ensures Inv(st')
  {
    SubsSteps(st.sh, e);
    forall t | t in st.threads
      ensures LocalOK(st'.sh, t, st.threads[t].pc) && CallOK(st'.sh.flow, st.threads[t].pc)
    {
      assert LocalOK(st.sh, t, st.threads[t].pc) && CallOK(st.sh.flow, st.threads[t].pc);
      SubsAside(st.sh, e, t, st.threads[t].pc);
    }
  }

  lemma SubsSteps(sh: Shared, e: Outer)
    requires EndsOK(sh) && OuterEnabled(sh, e)
    ensures EndsOK(ActOuter(sh, e))
  {
    if e.Subscription? {
      LedByApply(sh.At(e.side).subs, Own, e.change);
    }
  }

  lemma SubsAside(sh: Shared, e: Outer, t: Tid, pc: PC)
    requires LocalOK(sh, t, pc)
    ensures LocalOK(ActOuter(sh, e), t, pc) && ActOuter(sh, e).flow == sh.flow
  {
  }

  lemma {:induction false} RunInv(trace: seq<State>, i: nat)
    requires Run(trace) && i < |trace|
    ensures Inv(trace[i])
  {
    if i == 0 {
      InitInv(trace[0]);
    } else {
      RunInv(trace, i - 1);
      var st, st' := trace[i - 1], trace[i];
      assert StepAt(trace, i);
      if t, ch :| StepBy(st, st', t, ch) {
        StepInv(st, st', t, ch);
      } else {
        var e :| OuterStep(st, st', e);
        OuterInv(st, st', e);
      }
    }
  }

  // ---- Results

  /** What the thread at the ring of side `s` has moved but not yet reported. */
  ghost function Pending(st: State, s: Side): seq<Item>
    requires EndpointHeld(st.sh.At(s), st.threads)
  {
    var lock := st.sh.At(s).lock;
    if lock.Some? then InFlight(st.threads[lock.value].pc) else []
  }

  /**
   In every run the items popped so far followed by the ring are the items pushed
   so far, and the ring never overfills. The pushed history is the concatenation,
   in completion order, of one nonempty prefix of its concatenated slices for every
   successful send, followed by what the send in progress has moved; the popped
   history likewise splits into one segment for every successful receive, no longer
   than its buffers.
   */
  lemma FifoConservation(trace: seq<State>, i: nat)
    requires Run(trace) && i < |trace|
    ensures var f := trace[i].sh.flow;
      && f.popped + f.ring == f.pushed && |f.ring| <= f.cap
      && (forall r :: r in f.sends ==> SendRecordOK(r))
      && (forall r :: r in f.recvs ==> RecvRecordOK(r))
    ensures EndpointHeld(trace[i].sh.producer, trace[i].threads) && EndpointHeld(trace[i].sh.consumer, trace[i].threads)
    ensures trace[i].sh.flow.pushed == Contributed(trace[i].sh.flow.sends) + Pending(trace[i], Producer)
    ensures trace[i].sh.flow.popped == Contributed(trace[i].sh.flow.recvs) + Pending(trace[i], Consumer)
  {
    RunInv(trace, i);
    var st := trace[i];
    if st.sh.producer.lock.Some? {
      var t := st.sh.producer.lock.value;
      assert LocalOK(st.sh, t, st.threads[t].pc) && CallOK(st.sh.flow, st.threads[t].pc);
    }
    if st.sh.consumer.lock.Some? {
      var t := st.sh.consumer.lock.value;
      assert LocalOK(st.sh, t, st.threads[t].pc) && CallOK(st.sh.flow, st.threads[t].pc);
    }
  }

  lemma NextAdvances(st: State, st': State)
    requires Inv(st) && Next(st, st')
    ensures Advances(st.sh.flow, st'.sh.flow)
  {
    if t, ch :| StepBy(st, st', t, ch) {
      StepInv(st, st', t, ch);
    }
  }

  /**
   Shutdown is a barrier: once an endpoint is shut down it stays so, and nothing
   more is ever pushed through a shut producer or popped through a shut consumer.
   */
  lemma {:induction false} ShutdownBarrier(trace: seq<State>, i: nat, j: nat)
    requires Run(trace) && i <= j < |trace|
    ensures Advances(trace[i].sh.flow, trace[j].sh.flow)
  {
    if i < j {
      ShutdownBarrier(trace, i, j - 1);
      RunInv(trace, j - 1);
      assert StepAt(trace, j);
      NextAdvances(trace[j - 1], trace[j]);
      AdvancesFurther(trace[i].sh.flow, trace[j - 1].sh.flow, trace[j].sh.flow);
    }
  }

  lemma AdvancesFurther(f: Flow, g: Flow, h: Flow)
    requires Advances(f, g) && Advances(g, h)
    ensures Advances(f, h)
  {
  }

  /** Thread `t` reports end-of-stream in the step from `trace[i]` to `trace[i + 1]`. */
  ghost predicate ReportsEof(trace: seq<State>, i: nat, t: Tid) {
    && i + 1 < |trace| && t in trace[i].threads && t in trace[i + 1].threads
    && trace[i].threads[t].pc.CheckEof? && trace[i + 1].threads[t] == Finish(trace[i].threads[t], Eof)
  }

  /**
   A reported end-of-stream is the truth exactly when nothing was pushed between
   the receiver's emptiness check and its test of the producer's flag.
   */
  lemma EofExact(trace: seq<State>, i: nat, t: Tid)
    requires Run(trace) && ReportsEof(trace, i, t)
    ensures var f := trace[i].sh.flow;
      f.popped == f.pushed <==> |f.pushed| == trace[i].threads[t].pc.seen
  {
    RunInv(trace, i);
    assert CallOK(trace[i].sh.flow, trace[i].threads[t].pc);
  }

  /**
   If the emptiness check came after the producer was shut down, end-of-stream
   means every pushed item has been popped, now and forever.
   */
  lemma EofAfterShutdown(trace: seq<State>, i: nat, t: Tid, j: nat)
    requires Run(trace) && ReportsEof(trace, i, t) && trace[i].threads[t].pc.shut
    requires i <= j < |trace|
    ensures trace[j].sh.flow.popped == trace[j].sh.flow.pushed == trace[i].sh.flow.pushed
  {
    RunInv(trace, i);
    RunInv(trace, j);
    assert CallOK(trace[i].sh.flow, trace[i].threads[t].pc);
    ShutdownBarrier(trace, i, j);
  }

  // ---- What observers are told

  /** A finished call that moved `n > 0` items. */
  ghost predicate Reported(rs: seq<Record>, n: nat) {
    exists r :: r in rs && |r.items| == n > 0
  }

  /** The news given to the observers of side `q` are true: data or room, or the peer's shutdown. */
  ghost predicate TrueNews(f: Flow, last: Outcome, q: Side, event: set<IoEvent>) {
    if q == Consumer then
      (event == {In} && last.Moved? && Reported(f.sends, last.n)) || (event == {Hup} && f.producerShut)
    else
      (event == {Out} && last.Moved? && Reported(f.recvs, last.n)) || (event == {Err} && f.consumerShut)
  }

  ghost predicate TellsTruth(f: Flow, th: Thread) {
    && (Broadcasts(th.pc) ==> TrueNews(f, th.last, th.pc.q, th.pc.event))
    && (Wakes(th.pc) && th.pc.ret.InBroadcast? ==> TrueNews(f, th.last, th.pc.q, th.pc.ret.event))
  }

  /** Records and shutdown flags are never taken back. */
  ghost predicate Remembers(f: Flow, f': Flow) {
    && f.sends <= f'.sends && f.recvs <= f'.recvs
    && (f.producerShut ==> f'.producerShut) && (f.consumerShut ==> f'.consumerShut)
  }

  lemma TruthStays(f: Flow, f': Flow, th: Thread)
    requires TellsTruth(f, th) && Remembers(f, f')
    ensures TellsTruth(f', th)
  {
  }

  lemma TransferTells(sh: Shared, th: Thread)
    requires th.pc.Transfer?
    ensures var (sh', th') := ActTransfer(sh, th); TellsTruth(sh'.flow, th') && Remembers(sh.flow, sh'.flow)
  {
    var c, f := th.pc.c, sh.flow;
    if th.pc.i < c.Slices() {
      var moved := th.pc.moved + Items(f, c, th.pc.i);
      var rs := if c.Send? then f.sends else f.recvs;
      assert Record(c, moved) in rs + [Record(c, moved)];
    }
  }

  lemma ControlTells(sh: Shared, t: Tid, th: Thread)
    requires Controls(th.pc)
    ensures var (sh', th') := ActControl(sh, t, th); TellsTruth(sh'.flow, th') && Remembers(sh.flow, sh'.flow)
  {
  }

  lemma WakeTells(sh: Shared, t: Tid, th: Thread)
    requires Wakes(th.pc) && TellsTruth(sh.flow, th)
    ensures var (sh', th') := ActWake(sh, t, th); TellsTruth(sh'.flow, th') && sh'.flow == sh.flow
  {
  }

  lemma BcastTells(sh: Shared, t: Tid, th: Thread)
    requires Broadcasts(th.pc) && TellsTruth(sh.flow, th)
    ensures var (sh', th') := ActBcast(sh, t, th); TellsTruth(sh'.flow, th') && sh'.flow == sh.flow
  {
  }

  lemma ParkTells(sh: Shared, t: Tid, th: Thread, ch: Choice)
    requires Parks(th.pc)
    ensures var (sh', th') := ActPark(sh, t, th, ch); TellsTruth(sh'.flow, th') && sh'.flow == sh.flow
  {
  }

  lemma ActTells(sh: Shared, t: Tid, th: Thread, ch: Choice)
    requires Enabled(sh, t, th, ch) && TellsTruth(sh.flow, th)
    ensures var (sh', th') := Act(sh, t, th, ch); TellsTruth(sh'.flow, th') && Remembers(sh.flow, sh'.flow)
  {
    if th.pc.Transfer? {
      TransferTells(sh, th);
    } else if Parks(th.pc) {
      ParkTells(sh, t, th, ch);
    } else if Controls(th.pc) {
      ControlTells(sh, t, th);
    } else if Broadcasts(th.pc) {
      BcastTells(sh, t, th);
    } else if Wakes(th.pc) {
      WakeTells(sh, t, th);
    }
  }

  lemma StepTells(st: State, st': State)
    requires Next(st, st') && forall t :: t in st.threads ==> TellsTruth(st.sh.flow, st.threads[t])
    ensures forall t :: t in st'.threads ==> TellsTruth(st'.sh.flow, st'.threads[t])
  {
    if t, ch :| StepBy(st, st', t, ch) {
      ActTells(st.sh, t, st.threads[t], ch);
      forall u | u in st'.threads && u != t
        ensures TellsTruth(st'.sh.flow, st'.threads[u])
      {
        TruthStays(st.sh.flow, st'.sh.flow, st.threads[u]);
      }
    }
  }

  /**
   In every run a broadcast tells the truth: the observers of the consumer hear IN only
   from a send that moved items and HUP only once the producer is shut down, those of
   the producer OUT only from a receive that moved items and ERR only once the consumer
   is shut down, and nothing else.
   */
  lemma {:induction false} RightEvents(trace: seq<State>, i: nat)
    requires Run(trace) && i < |trace|
    ensures forall t :: t in trace[i].threads ==> TellsTruth(trace[i].sh.flow, trace[i].threads[t])
  {
    if i > 0 {
      RightEvents(trace, i - 1);
      assert StepAt(trace, i);
      StepTells(trace[i - 1], trace[i]);
    }
  }

  // ---- End-of-stream reported too early

  function Do(st: State, t: Tid, ch: Choice): State
    requires t in st.threads && Enabled(st.sh, t, st.threads[t], ch)
  {
    var (sh', th') := Act(st.sh, t, st.threads[t], ch);
    State(sh', st.threads[t := th'])
  }

  lemma Extend(trace: seq<State>, t: Tid, ch: Choice) returns (trace': seq<State>)
    requires Run(trace)
    requires var st := trace[|trace| - 1]; t in st.threads && Enabled(st.sh, t, st.threads[t], ch)
    ensures Run(trace') && trace' == trace + [Do(trace[|trace| - 1], t, ch)]
  {
    var st := trace[|trace| - 1];
    trace' := trace + [Do(st, t, ch)];
    assert StepBy(st, trace'[|trace|], t, ch);
    forall i | 0 < i < |trace'|
      ensures StepAt(trace', i)
    {
      assert i < |trace| ==> StepAt(trace, i);
    }
  }

  /** A channel of capacity one, its consumer lock taken by thread 0, and three threads. */
  function Scene(f: Flow, th0: Thread, th1: Thread, th2: Thread): State {
    State(
      Shared(f, NewEndpoint(), NewEndpoint().(lock := if th0.pc.Idle? then None else Some(0)), map[], {}, {}),
      map[0 := th0, 1 := th1, 2 := th2])
  }

  const RESTING := Thread(Idle, 0, Nothing)
  const SAW_EMPTY := Thread(CheckEof(Recv([1]), false, 0, false), 0, Nothing)
  const FRESH := Flow(1, [], false, false, [], [], [], [])

  /** Thread 0 has found the ring empty and is about to test the producer's flag. */
  lemma ReceiverSawEmpty() returns (trace: seq<State>)
    ensures Run(trace) && trace[|trace| - 1] == Scene(FRESH, SAW_EMPTY, RESTING, RESTING)
  {
    assert Sum([1]) == 1;
    trace := [Scene(FRESH, RESTING, RESTING, RESTING)];
    trace := Extend(trace, 0, Start(Recv([1])));
    trace := Extend(trace, 0, Go);
    trace := Extend(trace, 0, Go);
  }

  /** Meanwhile thread 1 pushes an item. */
  lemma SenderPushed(x: Item) returns (trace: seq<State>)
    ensures Run(trace)
    ensures trace[|trace| - 1] ==
      Scene(Flow(1, [x], false, false, [x], [], [Record(Send([[x]]), [x])], []),
            SAW_EMPTY, Thread(BcastLock(Consumer, {In}, false), 0, Moved(1)), RESTING)
  {
    assert Flatten([[x]]) == [x];
    trace := ReceiverSawEmpty();
    trace := Extend(trace, 1, Start(Send([[x]])));
    trace := Extend(trace, 1, Go);
    trace := Extend(trace, 1, Go);
    trace := Extend(trace, 1, Go);
  }

  /** Then thread 2 shuts the producer down. */
  lemma ShutAfterwards(x: Item) returns (trace: seq<State>)
    ensures Run(trace)
    ensures trace[|trace| - 1] ==
      Scene(Flow(1, [x], true, false, [x], [], [Record(Send([[x]]), [x])], []),
            SAW_EMPTY, Thread(BcastLock(Consumer, {In}, false), 0, Moved(1)),
            Thread(BcastLock(Consumer, {Hup}, true), 0, Done))
  {
    trace := SenderPushed(x);
    trace := Extend(trace, 2, Shutdown(Producer));
    trace := Extend(trace, 2, Go);
    trace := Extend(trace, 2, Go);
  }

  /**
   Without that condition the promise fails: a receiver can report end-of-stream
   while the item pushed just before the shutdown is still in the ring.
   */
  lemma EofWithItemLeft(x: Item) returns (trace: seq<State>, i: nat)
    ensures Run(trace) && ReportsEof(trace, i, 0)
    ensures trace[i + 1].sh.flow.ring == [x] && trace[i + 1].sh.flow.popped == []
  {
    trace := ShutAfterwards(x);
    i := |trace| - 1;
    trace := Extend(trace, 0, Go);
  }
}
