/** What the calls on a channel return, and what its flags are, in every run. */
module ChannelCalls {
  import opened Util
  import opened Notifier
  import opened Channel
  import Order = ChannelOrder
  import Wakeup = ChannelWakeup

  // ---- Why a call ends as it does

  /** The ring has no room for a send, or nothing for a receive. */
  predicate RingBlocks(f: Flow, s: Side) {
    if s == Producer then |f.ring| >= f.cap else f.ring == []
  }

  /** The items were moved by call `c`, all it asked for unless the ring then blocked it. */
  ghost predicate MovedAll(f: Flow, f': Flow, c: Call, n: nat) {
    && n > 0 && (n == c.Len() || RingBlocks(f', c.Side()))
    && exists items :: |items| == n &&
         if c.Send? then f'.sends == f.sends + [Record(c, items)] && f'.recvs == f.recvs
         else f'.recvs == f.recvs + [Record(c, items)] && f'.sends == f.sends
  }

  /** What must be so when call `c` ends with outcome `o` in the step from `sh` to `sh'`. */
  ghost predicate Justified(sh: Shared, sh': Shared, c: Call, o: Outcome, ch: Choice) {
    match o
    case Moved(n) => MovedAll(sh.flow, sh'.flow, c, n)
    case Epipe => sh'.flow == sh.flow && (sh.flow.Shut(c.Side()) || (c.Send? && sh.flow.consumerShut))
    case Eof => sh'.flow == sh.flow && c.Recv? && sh.flow.producerShut
    case Eagain => sh'.flow == sh.flow && sh.At(c.Side()).nonblocking
    case Eintr => sh'.flow == sh.flow && ch.Interrupt?
    case _ => false
  }

  lemma SendMovesAll(f: Flow, c: Call, i: nat, moved: seq<Item>)
    requires c.Send? && i < |c.slices| && moved == Flatten(c.slices[..i]) && Finished(f, c, i)
    requires |f.ring| <= f.cap
    ensures |moved + Items(f, c, i)| == c.Len() || RingBlocks(Move(f, c, i), Producer)
  {
    if Portion(f, c, i) == SliceLen(c, i) {
      assert c.slices[..i] + [c.slices[i]] == c.slices;
      FlattenSnoc(c.slices[..i], c.slices[i]);
    }
  }

  lemma RecvMovesAll(f: Flow, c: Call, i: nat, moved: seq<Item>)
    requires c.Recv? && i < |c.lens| && |moved| == Sum(c.lens[..i]) && Finished(f, c, i)
    ensures |moved + Items(f, c, i)| == c.Len() || RingBlocks(Move(f, c, i), Consumer)
  {
    if Portion(f, c, i) == SliceLen(c, i) {
      assert c.lens[..i] + [c.lens[i]] == c.lens;
      SumSnoc(c.lens[..i], c.lens[i]);
    }
  }

  lemma TransferEnds(sh: Shared, th: Thread, ch: Choice)
    requires th.pc.Transfer? && Order.TransferOK(th.pc) && |sh.flow.ring| <= sh.flow.cap
    ensures var (sh', th') := ActTransfer(sh, th);
      !Order.InCall(th'.pc) ==> Justified(sh, sh', th.pc.c, th'.last, ch)
  {
    var f, c, i := sh.flow, th.pc.c, th.pc.i;
    var moved := th.pc.moved + Items(f, c, i);
    if Finished(f, c, i) && moved != [] {
      if c.Send? {
        SendMovesAll(f, c, i, th.pc.moved);
      } else {
        RecvMovesAll(f, c, i, th.pc.moved);
      }
      var f' := ActTransfer(sh, th).0.flow;
      assert if c.Send? then f'.sends == f.sends + [Record(c, moved)] && f'.recvs == f.recvs
             else f'.recvs == f.recvs + [Record(c, moved)] && f'.sends == f.sends;
      assert MovedAll(f, f', c, |moved|);
    }
  }

  lemma ChecksEnd(sh: Shared, t: Tid, th: Thread, ch: Choice)
    requires Enabled(sh, t, th, ch) && Order.CallOK(sh.flow, th.pc)
    requires th.pc.Enter? || th.pc.CheckPeer? || th.pc.CheckEof? || th.pc.CheckNonblock?
    requires th.pc.CheckPeer? ==> th.pc.c.Send?
    ensures var (sh', th') := Body(sh, t, th, ch);
      !Order.InCall(th'.pc) ==> Justified(sh, sh', th.pc.c, th'.last, ch)
  {
  }

  lemma ParkEnds(sh: Shared, t: Tid, th: Thread, ch: Choice)
    requires Parks(th.pc)
    ensures var (sh', th') := ActPark(sh, t, th, ch);
      !Order.InCall(th'.pc) ==> Justified(sh, sh', th.pc.c, th'.last, ch)
  {
  }

  // ---- Runs

  /** Only a send looks at its peer before the transfer. */
  lemma {:induction false} PeerCheckedBySend(trace: seq<State>, i: nat, t: Tid)
    requires Run(trace) && i < |trace| && t in trace[i].threads
    ensures trace[i].threads[t].pc.CheckPeer? ==> trace[i].threads[t].pc.c.Send?
  {
    if i > 0 && trace[i].threads[t].pc.CheckPeer? {
      assert StepAt(trace, i);
      PeerCheckStep(trace[i - 1], trace[i], t);
      if trace[i - 1].threads[t] == trace[i].threads[t] {
        PeerCheckedBySend(trace, i - 1, t);
      }
    }
  }

  lemma PeerCheckStep(st: State, st': State, t: Tid)
    requires Next(st, st') && t in st'.threads && st'.threads[t].pc.CheckPeer?
    ensures t in st.threads && (st.threads[t] == st'.threads[t] || st'.threads[t].pc.c.Send?)
  {
    if t in st.threads && st.threads[t] != st'.threads[t] {
      var ch :| StepBy(st, st', t, ch);
      PeerCheckFrom(st.sh, t, st.threads[t], ch);
    }
  }

  lemma PeerCheckFrom(sh: Shared, t: Tid, th: Thread, ch: Choice)
    requires Enabled(sh, t, th, ch) && Act(sh, t, th, ch).1.pc.CheckPeer?
    ensures th.pc.Enter? && Act(sh, t, th, ch).1.pc.c.Send?
  {
  }

  lemma EndJustified(sh: Shared, t: Tid, th: Thread, ch: Choice)
    requires Enabled(sh, t, th, ch) && Order.InCall(th.pc) && Order.CallOK(sh.flow, th.pc) && |sh.flow.ring| <= sh.flow.cap
    requires th.pc.CheckPeer? ==> th.pc.c.Send?
    ensures var (sh', th') := Body(sh, t, th, ch);
      !Order.InCall(th'.pc) ==> Justified(sh, sh', th.pc.c, th'.last, ch)
  {
    if th.pc.Transfer? {
      TransferEnds(sh, th, ch);
    } else if Parks(th.pc) {
      ParkEnds(sh, t, th, ch);
    } else {
      ChecksEnd(sh, t, th, ch);
    }
  }

  /**
   In every run a call that ends has a reason: it moved items, all it asked for unless
   the ring then blocked it; or its own side, or for a send the consumer, is shut down
   (EPIPE); or it is a receive and the producer is shut down (end of stream); or its
   endpoint is non-blocking (EAGAIN); or a signal came (EINTR). Only in the first case
   does it change the data path.
   */
  lemma CallsJustified(trace: seq<State>, i: nat, t: Tid, ch: Choice)
    requires Run(trace) && i + 1 < |trace| && StepBy(trace[i], trace[i + 1], t, ch)
    requires Order.InCall(trace[i].threads[t].pc) && !Order.InCall(trace[i + 1].threads[t].pc)
    ensures Justified(trace[i].sh, trace[i + 1].sh, trace[i].threads[t].pc.c, trace[i + 1].threads[t].last, ch)
  {
    CallKept(trace, i, t);
    PeerCheckedBySend(trace, i, t);
    EndJustified(trace[i].sh, t, trace[i].threads[t], ch);
  }

  /** In `trace[k]` call `c` of thread `t` found the ring blocking it, and has only looked at flags since. */
  ghost predicate FoundBlocked(trace: seq<State>, k: nat, i: nat, t: Tid, c: Call) {
    && k < i < |trace| && t in trace[k].threads
    && trace[k].threads[t].pc.Transfer? && trace[k].threads[t].pc.c == c && RingBlocks(trace[k].sh.flow, c.Side())
    && forall m :: k < m <= i ==> t in trace[m].threads && Testing(trace[m].threads[t].pc, c)
  }

  predicate Testing(pc: PC, c: Call) {
    (pc.CheckEof? || pc.CheckNonblock?) && pc.c == c
  }

  lemma TestingFrom(sh: Shared, t: Tid, th: Thread, ch: Choice, c: Call)
    requires Enabled(sh, t, th, ch) && Testing(Act(sh, t, th, ch).1.pc, c)
    requires Order.CallOK(sh.flow, th.pc) && |sh.flow.ring| <= sh.flow.cap
    ensures Testing(th.pc, c) || (th.pc.Transfer? && th.pc.c == c && RingBlocks(sh.flow, c.Side()))
  {
  }

  /** A call is refused for want of blocking only after it found the ring full, or empty for a receive. */
  lemma {:induction false} TestsOnlyIfBlocked(trace: seq<State>, i: nat, t: Tid, c: Call) returns (k: nat)
    requires Run(trace) && i < |trace| && t in trace[i].threads && Testing(trace[i].threads[t].pc, c)
    ensures FoundBlocked(trace, k, i, t, c)
  {
    TestingBack(trace, i, t, c);
    if Testing(trace[i - 1].threads[t].pc, c) {
      k := TestsOnlyIfBlocked(trace, i - 1, t, c);
    } else {
      k := i - 1;
    }
  }

  lemma TestingBack(trace: seq<State>, i: nat, t: Tid, c: Call)
    requires Run(trace) && i < |trace| && t in trace[i].threads && Testing(trace[i].threads[t].pc, c)
    ensures i > 0 && t in trace[i - 1].threads
    ensures var pc, f := trace[i - 1].threads[t].pc, trace[i - 1].sh.flow;
      Testing(pc, c) || (pc.Transfer? && pc.c == c && RingBlocks(f, c.Side()))
  {
    SameThreads(trace, i);
    if trace[i - 1].threads[t] != trace[i].threads[t] {
      var ch := Mover(trace, i, t);
      CallKept(trace, i - 1, t);
      TestingFrom(trace[i - 1].sh, t, trace[i - 1].threads[t], ch, c);
    }
  }

  lemma SameThreads(trace: seq<State>, i: nat)
    requires Run(trace) && 0 < i < |trace|
    ensures trace[i].threads.Keys == trace[i - 1].threads.Keys
  {
    assert StepAt(trace, i);
  }

  /** Whoever has moved has taken the step. */
  lemma Mover(trace: seq<State>, i: nat, t: Tid) returns (ch: Choice)
    requires Run(trace) && 0 < i < |trace| && t in trace[i - 1].threads && t in trace[i].threads
    requires trace[i - 1].threads[t] != trace[i].threads[t]
    ensures var sh, th := trace[i - 1].sh, trace[i - 1].threads[t];
      Enabled(sh, t, th, ch) && trace[i].threads[t] == Act(sh, t, th, ch).1
  {
    assert StepAt(trace, i);
    ch :| StepBy(trace[i - 1], trace[i], t, ch);
  }

  lemma CallKept(trace: seq<State>, i: nat, t: Tid)
    requires Run(trace) && i < |trace| && t in trace[i].threads
    ensures Order.CallOK(trace[i].sh.flow, trace[i].threads[t].pc) && |trace[i].sh.flow.ring| <= trace[i].sh.flow.cap
  {
    Order.RunInv(trace, i);
  }

  // ---- Calls after a shutdown

  /** Where a call that began with the flags of `f` can be. */
  ghost predicate Early(pc: PC, c: Call, f: Flow) {
    || pc == Enter(c, false)
    || (c.Send? && !f.producerShut && pc == CheckPeer(c, false))
    || (c.Recv? && !f.consumerShut && (pc.Transfer? || pc.CheckEof?) && pc.c == c && !pc.armed)
  }

  /** How it can end. */
  ghost predicate EndsEarly(c: Call, f: Flow, o: Outcome) {
    if c.Send? || f.consumerShut then o == Epipe else o.Moved? || o == Eof || o == Epipe
  }

  ghost predicate StaysShut(f: Flow, f': Flow) {
    (f.producerShut ==> f'.producerShut) && (f.consumerShut ==> f'.consumerShut)
  }

  lemma EarlyStep(sh: Shared, t: Tid, th: Thread, ch: Choice, c: Call, f: Flow)
    requires Enabled(sh, t, th, ch) && Early(th.pc, c, f) && (f.producerShut || f.consumerShut) && StaysShut(f, sh.flow)
    ensures var th' := Act(sh, t, th, ch).1;
      if Order.InCall(th'.pc) then Early(th'.pc, c, f) else EndsEarly(c, f, th'.last)
  {
  }

  /** Thread `t` begins call `c` in the step after `trace[a]` and is in it up to `trace[j]`. */
  ghost predicate InCallSince(trace: seq<State>, a: nat, j: nat, t: Tid, c: Call) {
    && a < j < |trace| && StepBy(trace[a], trace[a + 1], t, Start(c))
    && forall k :: a < k <= j ==> t in trace[k].threads && Order.InCall(trace[k].threads[t].pc)
  }

  lemma {:induction false} StaysEarly(trace: seq<State>, a: nat, j: nat, t: Tid, c: Call)
    requires Run(trace) && InCallSince(trace, a, j, t, c)
    requires trace[a].sh.flow.producerShut || trace[a].sh.flow.consumerShut
    ensures Early(trace[j].threads[t].pc, c, trace[a].sh.flow)
    decreases j
  {
    if j > a + 1 {
      StaysEarly(trace, a, j - 1, t, c);
      assert StepAt(trace, j);
      assert Order.InCall(trace[j].threads[t].pc);
      if trace[j - 1].threads[t] != trace[j].threads[t] {
        var ch :| StepBy(trace[j - 1], trace[j], t, ch);
        Order.ShutdownBarrier(trace, a, j - 1);
        EarlyStep(trace[j - 1].sh, t, trace[j - 1].threads[t], ch, c, trace[a].sh.flow);
      }
    }
  }

  /**
   A send that begins after either side was shut down never reaches the ring and ends
   with EPIPE; so does a receive that begins after the consumer's shutdown. A receive
   that begins after the producer's never sleeps: it gets items, or end-of-stream, or
   EPIPE if the consumer is shut down meanwhile.
   */
  lemma CallAfterShutdown(trace: seq<State>, a: nat, j: nat, t: Tid, c: Call, ch: Choice)
    requires Run(trace) && InCallSince(trace, a, j, t, c)
    requires trace[a].sh.flow.producerShut || trace[a].sh.flow.consumerShut
    ensures !Parks(trace[j].threads[t].pc) && (c.Send? ==> !trace[j].threads[t].pc.Transfer?)
    ensures j + 1 < |trace| && StepBy(trace[j], trace[j + 1], t, ch) && !Order.InCall(trace[j + 1].threads[t].pc) ==>
      var o := trace[j + 1].threads[t].last;
      if c.Send? || trace[a].sh.flow.consumerShut then o == Epipe else o.Moved? || o == Eof || o == Epipe
  {
    StaysEarly(trace, a, j, t, c);
    if j + 1 < |trace| && StepBy(trace[j], trace[j + 1], t, ch) {
      Order.ShutdownBarrier(trace, a, j);
      EarlyStep(trace[j].sh, t, trace[j].threads[t], ch, c, trace[a].sh.flow);
    }
  }

  /** In its first attempt: no waiter made yet. */
  predicate FirstAttempt(pc: PC) {
    (pc.Enter? || pc.CheckPeer? || pc.Transfer? || pc.CheckEof? || pc.CheckNonblock?) && !pc.armed
  }

  lemma FirstAttemptStep(sh: Shared, t: Tid, th: Thread, ch: Choice)
    requires Enabled(sh, t, th, ch) && FirstAttempt(th.pc) && sh.At(th.pc.c.Side()).nonblocking
    ensures var pc' := Act(sh, t, th, ch).1.pc; Order.InCall(pc') ==> FirstAttempt(pc') && pc'.c == th.pc.c
  {
  }

  /** A call on an endpoint that stays non-blocking never makes a waiter, enqueues or sleeps. */
  lemma {:induction false} NonblockingNeverParks(trace: seq<State>, a: nat, j: nat, t: Tid, c: Call)
    requires Run(trace) && InCallSince(trace, a, j, t, c)
    requires forall k :: a <= k <= j ==> trace[k].sh.At(c.Side()).nonblocking
    ensures FirstAttempt(trace[j].threads[t].pc) && trace[j].threads[t].pc.c == c
    decreases j
  {
    if j > a + 1 {
      NonblockingNeverParks(trace, a, j - 1, t, c);
      FirstAttemptAt(trace, j - 1, t);
    }
  }

  lemma FirstAttemptAt(trace: seq<State>, i: nat, t: Tid)
    requires Run(trace) && i + 1 < |trace| && t in trace[i].threads && t in trace[i + 1].threads
    requires FirstAttempt(trace[i].threads[t].pc) && trace[i].sh.At(trace[i].threads[t].pc.c.Side()).nonblocking
    ensures var pc' := trace[i + 1].threads[t].pc;
      Order.InCall(pc') ==> FirstAttempt(pc') && pc'.c == trace[i].threads[t].pc.c
  {
    assert StepAt(trace, i + 1);
    if trace[i].threads[t] != trace[i + 1].threads[t] {
      var ch :| StepBy(trace[i], trace[i + 1], t, ch);
      FirstAttemptStep(trace[i].sh, t, trace[i].threads[t], ch);
    }
  }

  /** Some send is at the ring. */
  ghost predicate Pushing(st: State) {
    exists t :: t in st.threads && SendsNow(st.threads[t].pc)
  }

  predicate SendsNow(pc: PC) {
    pc.Transfer? && pc.c.Send?
  }

  lemma NoNewPush(sh: Shared, t: Tid, th: Thread, ch: Choice)
    requires Enabled(sh, t, th, ch) && sh.flow.consumerShut && !SendsNow(th.pc)
    ensures var (sh', th') := Act(sh, t, th, ch);
      sh'.flow.pushed == sh.flow.pushed && sh'.flow.consumerShut && !SendsNow(th'.pc)
  {
  }

  /** After the consumer's shutdown nothing more is pushed, except by sends already at the ring. */
  lemma {:induction false} ConsumerBarrier(trace: seq<State>, i: nat, j: nat)
    requires Run(trace) && i <= j < |trace| && trace[i].sh.flow.consumerShut && !Pushing(trace[i])
    ensures trace[j].sh.flow.pushed == trace[i].sh.flow.pushed && trace[j].sh.flow.consumerShut && !Pushing(trace[j])
  {
    if i < j {
      ConsumerBarrier(trace, i, j - 1);
      assert StepAt(trace, j);
      var st, st' := trace[j - 1], trace[j];
      if t, ch :| StepBy(st, st', t, ch) {
        NoNewPush(st.sh, t, st.threads[t], ch);
        forall u | u in st'.threads
          ensures !SendsNow(st'.threads[u].pc)
        {
          assert u in st.threads && (u != t ==> st'.threads[u] == st.threads[u]);
        }
      } else {
        assert st'.threads == st.threads;
      }
    }
  }

  // ---- Flags

  /** A call starts on what it was asked for; one that moves nothing returns at once. */
  lemma CallBegins(st: State, st': State, t: Tid, ch: Choice)
    requires StepBy(st, st', t, ch) && st.threads[t].pc.Idle?
    ensures ch.SetNonblocking? ==> st'.threads[t].pc == StoreNonblock(ch.side, ch.on)
    ensures ch.Shutdown? ==> st'.threads[t].pc == ShutEnter(ch.side)
    ensures ch.Start? && ch.c.Len() > 0 ==> st'.threads[t].pc == Enter(ch.c, false)
    ensures ch.Start? && ch.c.Len() == 0 ==> st'.threads[t].pc == Idle && st'.threads[t].last == Moved(0)
    ensures st'.sh.flow == st.sh.flow
  {
  }

  /** Thread `t` stores `on` as the non-blocking flag of side `s`. */
  predicate Stores(st: State, st': State, t: Tid, s: Side, on: bool) {
    && t in st.threads && t in st'.threads
    && st.threads[t].pc == StoreNonblock(s, on) && st'.threads[t] != st.threads[t]
  }

  /** The step after `trace[i]` is such a store. */
  ghost predicate StoresAt(trace: seq<State>, i: nat, s: Side, on: bool) {
    i + 1 < |trace| && StoresIn(trace[i], trace[i + 1], s, on)
  }

  ghost predicate StoresIn(st: State, st': State, s: Side, on: bool) {
    exists t :: Stores(st, st', t, s, on)
  }

  lemma NonblockingStep(sh: Shared, t: Tid, th: Thread, ch: Choice, s: Side)
    requires Enabled(sh, t, th, ch)
    ensures var sh' := Act(sh, t, th, ch).0;
      if th.pc.StoreNonblock? && th.pc.side == s then sh'.At(s).nonblocking == th.pc.on && ch == Go
      else sh'.At(s).nonblocking == sh.At(s).nonblocking
  {
    if Controls(th.pc) {
      ControlNonblocking(sh, t, th, s);
    } else {
      Wakeup.Untouched(sh, t, th, ch, s);
    }
  }

  lemma ControlNonblocking(sh: Shared, t: Tid, th: Thread, s: Side)
    requires Controls(th.pc)
    ensures ActControl(sh, t, th).0.At(s).nonblocking ==
      if th.pc.StoreNonblock? && th.pc.side == s then th.pc.on else sh.At(s).nonblocking
  {
  }

  lemma NonblockingNext(st: State, st': State, s: Side)
    requires Next(st, st')
    ensures forall on :: StoresIn(st, st', s, on) ==> st'.sh.At(s).nonblocking == on
    ensures st'.sh.At(s).nonblocking != st.sh.At(s).nonblocking ==>
      StoresIn(st, st', s, st'.sh.At(s).nonblocking)
  {
    if t, ch :| StepBy(st, st', t, ch) {
      NonblockingStep(st.sh, t, st.threads[t], ch, s);
      if st.threads[t].pc.StoreNonblock? && st.threads[t].pc.side == s {
        assert Stores(st, st', t, s, st.threads[t].pc.on);
      }
    }
  }

  lemma NonblockingAt(trace: seq<State>, i: nat, s: Side)
    requires Run(trace) && i + 1 < |trace|
    ensures trace[i + 1].sh.At(s).nonblocking <==>
      StoresAt(trace, i, s, true) || (trace[i].sh.At(s).nonblocking && !StoresAt(trace, i, s, false))
  {
    assert StepAt(trace, i + 1);
    NonblockingNext(trace[i], trace[i + 1], s);
  }

  /** Set by the store after `trace[i]` and not cleared by a later one. */
  ghost predicate OnSince(trace: seq<State>, i: nat, j: nat, s: Side) {
    i < j && StoresAt(trace, i, s, true) && forall k: nat :: i < k < j ==> !StoresAt(trace, k, s, false)
  }

  /** The last store before `trace[j]` set the flag. */
  ghost predicate LastOn(trace: seq<State>, j: nat, s: Side) {
    exists i: nat :: OnSince(trace, i, j, s)
  }

  lemma LastOnStep(trace: seq<State>, j: nat, j': nat, s: Side)
    requires j' == j + 1
    ensures LastOn(trace, j', s) <==>
      StoresAt(trace, j, s, true) || (LastOn(trace, j, s) && !StoresAt(trace, j, s, false))
  {
    if StoresAt(trace, j, s, true) {
      assert OnSince(trace, j, j', s);
    }
    if LastOn(trace, j, s) && !StoresAt(trace, j, s, false) {
      var i: nat :| OnSince(trace, i, j, s);
      assert OnSince(trace, i, j', s);
    }
    if LastOn(trace, j', s) && !StoresAt(trace, j, s, true) {
      var i: nat :| OnSince(trace, i, j', s);
      assert OnSince(trace, i, j, s);
    }
  }

  /** In every run an endpoint is non-blocking exactly if the last store said so. */
  lemma {:induction false} NonblockingExact(trace: seq<State>, j: nat, s: Side)
    requires Run(trace) && j < |trace|
    ensures trace[j].sh.At(s).nonblocking <==> LastOn(trace, j, s)
  {
    if j > 0 {
      NonblockingExact(trace, j - 1, s);
      NonblockingAt(trace, j - 1, s);
      LastOnStep(trace, j - 1, j, s);
    }
  }

  /** A shutdown call is past its lock section only when the flag is set, and only it sets the flag. */
  lemma ShutdownSets(st: State, st': State, t: Tid, ch: Choice, s: Side)
    requires StepBy(st, st', t, ch)
    ensures (st.threads[t].pc == ShutEnter(s) || st.threads[t].pc == ShutSet(s)) && st'.threads[t].pc != ShutSet(s)
      ==> st'.sh.flow.Shut(s)
    ensures st'.sh.flow.Shut(s) && !st.sh.flow.Shut(s) ==> st.threads[t].pc == ShutSet(s)
  {
  }

  /**
   A broadcast goes through the subscribers as the notifier does: it ends at the end of
   the list or at the first freed observer that wants the event, wakes the queue at the
   endpoint's own observer, and otherwise goes on to the next entry.
   */
  lemma BroadcastWalk(sh: Shared, t: Tid, th: Thread)
    requires th.pc.BcastAt?
    ensures var subs, pc, i, pc' := sh.At(th.pc.q).subs, th.pc, th.pc.i, ActBcast(sh, t, th).1.pc;
      if i >= |subs| || (Wants(subs[i], pc.event) && subs[i].observer in sh.freed)
      then pc' == if pc.own then WakeCheck(pc.q.Peer(), Direct) else Idle
      else if Wants(subs[i], pc.event) && subs[i].observer == Own
      then pc' == WakeCheck(pc.q, InBroadcast(pc.event, i, pc.own))
      else pc' == BcastAt(pc.q, pc.event, i + 1, pc.own)
  {
    if th.pc.i < |sh.At(th.pc.q).subs| {
      WantsExact(sh.At(th.pc.q).subs[th.pc.i], th.pc.event);
    }
  }
}
