/** Poll atomicity and registration bookkeeping of pollees and pollers. */
module PollerSafety {
  import opened Util
  import opened Notifier
  import opened Poller

  /** Some entry of the list belongs to `p` and lets `ev` through. */
  ghost predicate Awaits(subs: Subs, p: PollerId, ev: set<IoEvent>) {
    exists s :: s in subs && s.observer == p && Passes(s, ev)
  }

  /** A poller owed a wake-up by this call is gone, or woken, or still ahead in the list. */
  ghost predicate OwedOK(sh: Shared, pc: PC, p: PollerId)
    requires (pc.AddLock? || pc.AddAt?) && pc.l in sh.pollees
  {
    && p in sh.pollers
    && (sh.pollers[p].status.Live? ==>
          if pc.AddLock? then Awaits(sh.pollees[pc.l].subs, p, pc.ev)
          else
            && pc.i <= |sh.pollees[pc.l].subs|
            && (pc.id in sh.pollers[p].wokenBy || Awaits(sh.pollees[pc.l].subs[pc.i..], p, pc.ev)))
  }

  /** A subscriber the broadcast has passed was woken, unless its filter kept the event out. */
  ghost predicate ReachedOK(sh: Shared, ev: set<IoEvent>, id: nat, s: Subscriber<PollerId, IoEvent>) {
    Passes(s, ev) ==> s.observer in sh.pollers && id in sh.pollers[s.observer].wokenBy
  }

  ghost predicate AddOK(sh: Shared, pc: PC)
    requires Adds(pc) && pc.l in sh.pollees
  {
    !pc.AddOr? ==>
      && pc.id < |sh.calls| && sh.calls[pc.id].l == pc.l && sh.calls[pc.id].ev == pc.ev
      && (pc.AddAt? ==>
            && pc.i <= |sh.pollees[pc.l].subs|
            && forall j :: 0 <= j < pc.i ==> ReachedOK(sh, pc.ev, pc.id, sh.pollees[pc.l].subs[j]))
      && forall p :: p in sh.calls[pc.id].owed ==> OwedOK(sh, pc, p)
  }

  ghost predicate BorrowsOK(sh: Shared, t: Tid, pc: PC) {
    && Named(sh, pc)
    && (Polls(pc) || Adds(pc) ==> sh.pollees[pc.l].live && t in sh.pollees[pc.l].users)
    && (Polls(pc) || pc.Waiting? ==> sh.pollers[pc.p].status.Live? && t in sh.pollers[pc.p].users)
    && (Drops(pc) ==> sh.pollers[pc.p].status == Dropping(t))
  }

  ghost predicate LocalOK(sh: Shared, t: Tid, pc: PC) {
    && BorrowsOK(sh, t, pc)
    && (forall l :: l in sh.pollees ==> (sh.pollees[l].lock == Some(t) <==> pc.AddAt? && pc.l == l))
    && (pc.PollList? || pc.PollCheck? ==> Subscriber(pc.p, Some(pc.mask)) in sh.pollees[pc.l].subs)
    && (Adds(pc) ==> AddOK(sh, pc))
  }

  /** A promise stays backed by its list entry while poller and pollee exist. */
  ghost predicate PromiseOK(sh: Shared, x: Promise) {
    && x.l in sh.pollees && x.p in sh.pollers
    && (HasPollee(sh, x.l) && HasPoller(sh, x.p) ==> Subscriber(x.p, Some(x.mask)) in sh.pollees[x.l].subs)
  }

  ghost predicate PollerOK(r: Poller, calls: nat, known: set<PolleeId>) {
    && (forall id :: id in r.wokenBy ==> id < calls)
    && r.lost <= r.seen <= r.wokenBy && (r.wokenBy != r.seen ==> r.notified)
    && (forall l :: l in r.pollees ==> l in known)
  }

  ghost predicate SharedOK(sh: Shared) {
    && (forall x :: x in sh.promises ==> PromiseOK(sh, x))
    && (forall l :: l in sh.pollees && !sh.pollees[l].live ==> sh.pollees[l].subs == [])
    && (forall p :: p in sh.pollers ==> PollerOK(sh.pollers[p], |sh.calls|, sh.pollees.Keys))
  }

  lemma AwaitsAppend(subs: Subs, s: Subscriber<PollerId, IoEvent>, p: PollerId, ev: set<IoEvent>)
    requires Awaits(subs, p, ev)
    ensures Awaits(subs + [s], p, ev)
  {
    var x :| x in subs && x.observer == p && Passes(x, ev);
    assert x in subs + [s];
  }

  lemma AwaitsWithout(subs: Subs, q: PollerId, p: PollerId, ev: set<IoEvent>)
    requires Awaits(subs, p, ev) && p != q
    ensures Awaits(Without(subs, q), p, ev)
  {
    var x :| x in subs && x.observer == p && Passes(x, ev);
    WithoutExact(subs, q);
    assert x in Without(subs, q);
  }

  lemma PollShared(sh: Shared, t: Tid, pc: PC)
    requires SharedOK(sh) && LocalOK(sh, t, pc) && Polls(pc)
    ensures SharedOK(ActPoll(sh, t, pc).0)
  {
  }

  lemma PollSelf(sh: Shared, t: Tid, pc: PC)
    requires LocalOK(sh, t, pc) && Polls(pc)
    ensures var (sh', pc') := ActPoll(sh, t, pc); LocalOK(sh', t, pc')
  {
  }

  lemma DropSelf(sh: Shared, t: Tid, pc: PC, ch: Choice)
    requires SharedOK(sh) && LocalOK(sh, t, pc) && Enabled(sh, pc, ch) && Drops(pc)
    ensures var (sh', pc') := ActDrop(sh, pc); SharedOK(sh') && LocalOK(sh', t, pc')
  {
    if pc.DropUnregister? {
      WithoutExact(sh.pollees[pc.l].subs, pc.p);
    }
  }

  lemma WaitSelf(sh: Shared, t: Tid, pc: PC, ch: Choice)
    requires SharedOK(sh) && LocalOK(sh, t, pc) && pc.Waiting?
    ensures var (sh', pc') := ActWait(sh, t, pc, ch); SharedOK(sh') && LocalOK(sh', t, pc')
  {
  }

  lemma BeginShared(sh: Shared, t: Tid, ch: Choice)
    requires SharedOK(sh) && Enabled(sh, Idle, ch)
    ensures SharedOK(Begin(sh, t, ch).0)
  {
  }

  lemma BeginSelf(sh: Shared, t: Tid, ch: Choice)
    requires LocalOK(sh, t, Idle) && Enabled(sh, Idle, ch)
    ensures var (sh', pc') := Begin(sh, t, ch); LocalOK(sh', t, pc')
  {
  }

  lemma AddShared(sh: Shared, t: Tid, pc: PC)
    requires SharedOK(sh) && LocalOK(sh, t, pc) && Adds(pc)
    ensures SharedOK(ActAdd(sh, t, pc).0)
  {
  }

  /** The pollers promised a wake-up are in the list when the bits are set. */
  lemma OwedAwait(sh: Shared, l: PolleeId, ev: set<IoEvent>, p: PollerId)
    requires SharedOK(sh) && HasPollee(sh, l) && p in Owed(sh, l, ev)
    ensures HasPoller(sh, p) && Awaits(sh.pollees[l].subs, p, ev)
  {
    var x :| x in sh.promises && x.l == l && x.mask * ev != {} && x.p == p && HasPoller(sh, p);
    assert PromiseOK(sh, x) && Subscriber(p, Some(x.mask)) in sh.pollees[l].subs;
  }

  lemma AddOrSelf(sh: Shared, t: Tid, pc: PC)
    requires SharedOK(sh) && LocalOK(sh, t, pc) && pc.AddOr?
    ensures var (sh', pc') := ActAdd(sh, t, pc); LocalOK(sh', t, pc')
  {
    forall p | p in Owed(sh, pc.l, pc.ev)
      ensures HasPoller(sh, p) && Awaits(sh.pollees[pc.l].subs, p, pc.ev)
    {
      OwedAwait(sh, pc.l, pc.ev, p);
    }
  }

  lemma AddSelf(sh: Shared, t: Tid, pc: PC, ch: Choice)
    requires LocalOK(sh, t, pc) && Enabled(sh, pc, ch) && (pc.AddLock? || pc.AddAt?)
    ensures var (sh', pc') := ActAdd(sh, t, pc); LocalOK(sh', t, pc')
  {
    var subs := sh.pollees[pc.l].subs;
    if pc.AddLock? {
      assert subs[0..] == subs;
    } else if pc.i < |subs| {
      assert subs[pc.i..] == [subs[pc.i]] + subs[pc.i + 1..];
    }
  }

  /** A step that leaves entries, lifetimes and `u`'s own borrows and locks alone, and forgets nothing. */
  ghost predicate Undisturbed(sh: Shared, sh': Shared, u: Tid) {
    && sh.calls <= sh'.calls
    && (forall l :: l in sh.pollees ==> l in sh'.pollees && PolleeKept(sh.pollees[l], sh'.pollees[l], u))
    && (forall l :: l in sh'.pollees && l !in sh.pollees ==> sh'.pollees[l].lock != Some(u))
    && (forall p :: p in sh.pollers ==> p in sh'.pollers && PollerKept(sh.pollers[p], sh'.pollers[p], u))
  }

  ghost predicate PolleeKept(e: Pollee, e': Pollee, u: Tid) {
    && e'.subs == e.subs && e'.live == e.live
    && (e'.lock == Some(u) <==> e.lock == Some(u)) && (u in e.users ==> u in e'.users)
  }

  ghost predicate PollerKept(r: Poller, r': Poller, u: Tid) {
    r'.status == r.status && r.wokenBy <= r'.wokenBy && (u in r.users ==> u in r'.users)
  }

  lemma UndisturbedOther(sh: Shared, sh': Shared, u: Tid, other: PC)
    requires LocalOK(sh, u, other) && Undisturbed(sh, sh', u)
    ensures LocalOK(sh', u, other)
  {
  }

  /** Steps that neither create nor destroy nor change a list. */
  predicate Calm(pc: PC, ch: Choice) {
    pc.PollList? || pc.PollCheck? || Adds(pc) || pc.Waiting? || (pc.Idle? && !Lifecycle(ch))
  }

  lemma BeginCalm(sh: Shared, t: Tid, ch: Choice, u: Tid)
    requires u != t && Enabled(sh, Idle, ch) && !Lifecycle(ch)
    ensures Undisturbed(sh, Begin(sh, t, ch).0, u)
  {
  }

  lemma AddAtCalm(sh: Shared, t: Tid, pc: PC, u: Tid)
    requires u != t && pc.AddAt? && pc.l in sh.pollees && sh.pollees[pc.l].lock == Some(t)
    ensures Undisturbed(sh, ActAdd(sh, t, pc).0, u)
  {
  }

  lemma AddCalm(sh: Shared, t: Tid, pc: PC, ch: Choice, u: Tid)
    requires u != t && Enabled(sh, pc, ch) && (pc.AddOr? || pc.AddLock?) && pc.l in sh.pollees
    ensures Undisturbed(sh, ActAdd(sh, t, pc).0, u)
  {
  }

  lemma PollCalm(sh: Shared, t: Tid, pc: PC, u: Tid)
    requires u != t && BorrowsOK(sh, t, pc) && (pc.PollList? || pc.PollCheck?)
    ensures Undisturbed(sh, ActPoll(sh, t, pc).0, u)
  {
  }

  lemma WaitCalm(sh: Shared, t: Tid, pc: PC, ch: Choice, u: Tid)
    requires u != t && BorrowsOK(sh, t, pc) && pc.Waiting?
    ensures Undisturbed(sh, ActWait(sh, t, pc, ch).0, u)
  {
  }

  lemma CalmStep(sh: Shared, t: Tid, pc: PC, ch: Choice, u: Tid)
    requires u != t && LocalOK(sh, t, pc) && Enabled(sh, pc, ch) && Calm(pc, ch)
    ensures Undisturbed(sh, Act(sh, t, pc, ch).0, u)
  {
    if pc.Idle? {
      BeginCalm(sh, t, ch, u);
    } else if pc.AddAt? {
      AddAtCalm(sh, t, pc, u);
    } else if Adds(pc) {
      AddCalm(sh, t, pc, ch, u);
    } else if Polls(pc) {
      PollCalm(sh, t, pc, u);
    } else {
      WaitCalm(sh, t, pc, ch, u);
    }
  }

  predicate Lifecycle(ch: Choice) {
    ch.NewPollee? || ch.FreePollee? || ch.NewPoller? || ch.DropPoller?
  }

  lemma LifecycleOther(sh: Shared, t: Tid, ch: Choice, u: Tid, other: PC)
    requires u != t && LocalOK(sh, t, Idle) && Enabled(sh, Idle, ch) && LocalOK(sh, u, other)
    requires Lifecycle(ch)
    ensures LocalOK(Begin(sh, t, ch).0, u, other)
  {
  }

  lemma RegisterOther(sh: Shared, t: Tid, pc: PC, ch: Choice, u: Tid, other: PC)
    requires u != t && LocalOK(sh, t, pc) && Enabled(sh, pc, ch) && pc.PollRegister? && LocalOK(sh, u, other)
    ensures LocalOK(ActPoll(sh, t, pc).0, u, other)
  {
    if other.AddLock? && other.l == pc.l {
      forall p | Awaits(sh.pollees[pc.l].subs, p, other.ev)
        ensures Awaits(sh.pollees[pc.l].subs + [Subscriber(pc.p, Some(pc.mask))], p, other.ev)
      {
        AwaitsAppend(sh.pollees[pc.l].subs, Subscriber(pc.p, Some(pc.mask)), p, other.ev);
      }
    }
  }

  lemma DropOther(sh: Shared, t: Tid, pc: PC, ch: Choice, u: Tid, other: PC)
    requires u != t && LocalOK(sh, t, pc) && Enabled(sh, pc, ch) && Drops(pc) && LocalOK(sh, u, other)
    ensures LocalOK(ActDrop(sh, pc).0, u, other)
  {
    if pc.DropUnregister? {
      WithoutExact(sh.pollees[pc.l].subs, pc.p);
      if other.AddLock? && other.l == pc.l {
        forall p | Awaits(sh.pollees[pc.l].subs, p, other.ev) && p != pc.p
          ensures Awaits(Without(sh.pollees[pc.l].subs, pc.p), p, other.ev)
        {
          AwaitsWithout(sh.pollees[pc.l].subs, pc.p, p, other.ev);
        }
      }
    }
  }

  // ---- Registration bookkeeping

  /** The pollee is in the poller's list, or a call is about to put it there or take it out. */
  ghost predicate Listed(st: State, p: PollerId, l: PolleeId)
    requires p in st.sh.pollers
  {
    || l in st.sh.pollers[p].pollees
    || exists u :: u in st.threads && Moving(st.threads[u], p, l)
  }

  predicate Moving(pc: PC, p: PollerId, l: PolleeId) {
    (pc.PollList? && pc.l == l && pc.p == p) || pc == DropUnregister(p, l)
  }

  ghost predicate EntryOK(st: State, l: PolleeId, s: Subscriber<PollerId, IoEvent>) {
    && s.observer in st.sh.pollers && !st.sh.pollers[s.observer].status.Freed?
    && Listed(st, s.observer, l)
  }

  ghost predicate Inv(st: State) {
    && SharedOK(st.sh)
    && (forall t :: t in st.threads ==> LocalOK(st.sh, t, st.threads[t]))
    && (forall l, s :: l in st.sh.pollees && s in st.sh.pollees[l].subs ==> EntryOK(st, l, s))
  }

  lemma StepThreads(st: State, st': State, t: Tid, ch: Choice)
    requires Inv(st) && StepBy(st, st', t, ch)
    ensures SharedOK(st'.sh) && forall u :: u in st'.threads ==> LocalOK(st'.sh, u, st'.threads[u])
  {
    var sh, pc := st.sh, st.threads[t];
    assert LocalOK(sh, t, pc);
    if Polls(pc) {
      PollShared(sh, t, pc);
      PollSelf(sh, t, pc);
    } else if Adds(pc) {
      AddShared(sh, t, pc);
      if pc.AddOr? { AddOrSelf(sh, t, pc); } else { AddSelf(sh, t, pc, ch); }
    } else if Drops(pc) {
      DropSelf(sh, t, pc, ch);
    } else if pc.Waiting? {
      WaitSelf(sh, t, pc, ch);
    } else {
      BeginShared(sh, t, ch);
      BeginSelf(sh, t, ch);
    }
    forall u | u in st'.threads && u != t
      ensures LocalOK(st'.sh, u, st'.threads[u])
    {
      var other := st.threads[u];
      if pc.PollRegister? {
        RegisterOther(sh, t, pc, ch, u, other);
      } else if Drops(pc) {
        DropOther(sh, t, pc, ch, u, other);
      } else if Calm(pc, ch) {
        CalmStep(sh, t, pc, ch, u);
        UndisturbedOther(sh, st'.sh, u, other);
      } else {
        LifecycleOther(sh, t, ch, u, other);
      }
    }
  }

  /** An entry that was there before is still listed, or its poller is being taken off the list. */
  lemma ListedStep(st: State, st': State, t: Tid, ch: Choice, p: PollerId, l: PolleeId)
    requires StepBy(st, st', t, ch) && p in st.sh.pollers && Listed(st, p, l)
    ensures p in st'.sh.pollers && (Listed(st', p, l) || st.threads[t] == DropUnregister(p, l))
  {
    if l in st.sh.pollers[p].pollees {
      assert t in st'.threads;
    } else {
      var u :| u in st.threads && Moving(st.threads[u], p, l);
      assert u in st'.threads;
    }
  }

  /** A poller is freed only when its list is empty and nobody is registering it. */
  lemma FreedStep(st: State, st': State, t: Tid, ch: Choice, p: PollerId, l: PolleeId)
    requires forall u :: u in st.threads ==> BorrowsOK(st.sh, u, st.threads[u])
    requires StepBy(st, st', t, ch) && p in st.sh.pollers && Listed(st, p, l)
    requires !st.sh.pollers[p].status.Freed? && p in st'.sh.pollers
    ensures !st'.sh.pollers[p].status.Freed?
  {
    assert BorrowsOK(st.sh, t, st.threads[t]);
    if l !in st.sh.pollers[p].pollees {
      var u :| u in st.threads && Moving(st.threads[u], p, l);
      assert BorrowsOK(st.sh, u, st.threads[u]);
    }
  }

  /** Entries are only ever put in by the registration of a poll. */
  lemma EntryFrom(sh: Shared, t: Tid, pc: PC, ch: Choice, l: PolleeId, s: Subscriber<PollerId, IoEvent>)
    requires SharedOK(sh) && BorrowsOK(sh, t, pc) && Enabled(sh, pc, ch)
    requires var sh' := Act(sh, t, pc, ch).0; l in sh'.pollees && s in sh'.pollees[l].subs
    ensures
      || (l in sh.pollees && s in sh.pollees[l].subs && pc != DropUnregister(s.observer, l))
      || (pc.PollRegister? && Act(sh, t, pc, ch).1 == PollList(l, pc.mask, s.observer) && pc.p == s.observer)
  {
    if pc.DropUnregister? {
      WithoutExact(sh.pollees[pc.l].subs, pc.p);
    }
  }

  lemma EntryStep(st: State, st': State, t: Tid, ch: Choice, l: PolleeId, s: Subscriber<PollerId, IoEvent>)
    requires Inv(st) && StepBy(st, st', t, ch)
    requires l in st'.sh.pollees && s in st'.sh.pollees[l].subs
    ensures EntryOK(st', l, s)
  {
    var pc := st.threads[t];
    assert forall u :: u in st.threads ==> LocalOK(st.sh, u, st.threads[u]) && BorrowsOK(st.sh, u, st.threads[u]);
    EntryFrom(st.sh, t, pc, ch, l, s);
    if l in st.sh.pollees && s in st.sh.pollees[l].subs && pc != DropUnregister(s.observer, l) {
      assert EntryOK(st, l, s);
      ListedStep(st, st', t, ch, s.observer, l);
      FreedStep(st, st', t, ch, s.observer, l);
    } else {
      assert Moving(st'.threads[t], s.observer, l);
    }
  }

  lemma {:induction false} RunInv(trace: seq<State>, i: nat)
    requires Run(trace) && i < |trace|
    ensures Inv(trace[i])
  {
    if i > 0 {
      RunInv(trace, i - 1);
      var st, st' := trace[i - 1], trace[i];
      assert StepAt(trace, i);
      var t, ch :| StepBy(st, st', t, ch);
      StepThreads(st, st', t, ch);
      forall l, s | l in st'.sh.pollees && s in st'.sh.pollees[l].subs
        ensures EntryOK(st', l, s)
      {
        EntryStep(st, st', t, ch, l, s);
      }
    }
  }

  // ---- What never goes back

  ghost predicate PollerLater(r: Poller, r': Poller) {
    r.wokenBy <= r'.wokenBy && (r'.status.Live? ==> r.status.Live?)
  }

  ghost predicate Later(sh: Shared, sh': Shared) {
    && sh.calls <= sh'.calls && sh.promises <= sh'.promises
    && forall p :: p in sh.pollers ==> p in sh'.pollers && PollerLater(sh.pollers[p], sh'.pollers[p])
  }

  lemma StepLater(st: State, st': State, t: Tid, ch: Choice)
    requires StepBy(st, st', t, ch) && BorrowsOK(st.sh, t, st.threads[t])
    ensures Later(st.sh, st'.sh)
  {
  }

  lemma {:induction false} RunLater(trace: seq<State>, i: nat, j: nat)
    requires Run(trace) && i <= j < |trace|
    ensures Later(trace[i].sh, trace[j].sh)
  {
    if i < j {
      RunLater(trace, i, j - 1);
      RunInv(trace, j - 1);
      assert StepAt(trace, j);
      var t, ch :| StepBy(trace[j - 1], trace[j], t, ch);
      assert LocalOK(trace[j - 1].sh, t, trace[j - 1].threads[t]);
      StepLater(trace[j - 1], trace[j], t, ch);
      LaterStill(trace[i].sh, trace[j - 1].sh, trace[j].sh);
    }
  }

  lemma LaterStill(a: Shared, b: Shared, c: Shared)
    requires Later(a, b) && Later(b, c)
    ensures Later(a, c)
  {
  }

  // ---- Results

  /**
   Every entry of a pollee's list belongs to an existing poller that will take it out
   again: the pollee is in that poller's own list, or a call in progress is just
   moving it there or removing it.
   */
  lemma Bookkeeping(trace: seq<State>, i: nat, l: PolleeId, s: Subscriber<PollerId, IoEvent>)
    requires Run(trace) && i < |trace|
    requires l in trace[i].sh.pollees && s in trace[i].sh.pollees[l].subs
    ensures s.observer in trace[i].sh.pollers && !trace[i].sh.pollers[s.observer].status.Freed?
    ensures trace[i].sh.pollees[l].live
    ensures trace[i].sh.pollers[s.observer].users == {} && trace[i].sh.pollers[s.observer].status.Live?
            ==> l in trace[i].sh.pollers[s.observer].pollees
  {
    RunInv(trace, i);
    var st := trace[i];
    assert EntryOK(st, l, s);
    if st.sh.pollers[s.observer].users == {} && l !in st.sh.pollers[s.observer].pollees {
      var u :| u in st.threads && Moving(st.threads[u], s.observer, l);
      assert LocalOK(st.sh, u, st.threads[u]);
    }
  }

  /** A dropped poller leaves no entry in any pollee, duplicates included. */
  lemma DroppedLeavesNothing(trace: seq<State>, i: nat, p: PollerId, l: PolleeId)
    requires Run(trace) && i < |trace|
    requires p in trace[i].sh.pollers && trace[i].sh.pollers[p].status.Freed? && l in trace[i].sh.pollees
    ensures forall s :: s in trace[i].sh.pollees[l].subs ==> s.observer != p
  {
    forall s | s in trace[i].sh.pollees[l].subs
      ensures s.observer != p
    {
      Bookkeeping(trace, i, l, s);
    }
  }

  /** The broadcast of addition `id` by thread `u` finishes in the step after `trace[k]`. */
  ghost predicate AddEnds(trace: seq<State>, k: nat, u: Tid, id: nat) {
    && k + 1 < |trace| && u in trace[k].threads
    && trace[k].threads[u].AddAt? && trace[k].threads[u].id == id
    && StepBy(trace[k], trace[k + 1], u, Go) && trace[k + 1].threads[u] == Idle
  }

  /**
   A broadcast never takes the early return, so when it finishes it has woken every
   subscriber whose filter lets the added events through.
   */
  lemma BroadcastReachesAll(trace: seq<State>, k: nat, u: Tid, id: nat)
    requires Run(trace) && AddEnds(trace, k, u, id)
    ensures var st, pc := trace[k], trace[k].threads[u];
      && pc.l in st.sh.pollees && pc.i == |st.sh.pollees[pc.l].subs|
      && forall s :: s in st.sh.pollees[pc.l].subs && Passes(s, pc.ev) ==>
           s.observer in st.sh.pollers && id in st.sh.pollers[s.observer].wokenBy
  {
    RunInv(trace, k);
    var st, pc := trace[k], trace[k].threads[u];
    assert LocalOK(st.sh, u, pc);
    var subs := st.sh.pollees[pc.l].subs;
    assert forall j :: 0 <= j < |subs| ==> EntryOK(st, pc.l, subs[j]);
    assert pc.i == |subs|;
    forall s | s in subs && Passes(s, pc.ev)
      ensures s.observer in st.sh.pollers && id in st.sh.pollers[s.observer].wokenBy
    {
      var j :| 0 <= j < |subs| && subs[j] == s;
      assert ReachedOK(st.sh, pc.ev, pc.id, subs[j]);
    }
  }

  /** Thread `t` polls and gets no events in the step after `trace[i]`. */
  ghost predicate PollReturnsNothing(trace: seq<State>, i: nat, t: Tid, x: Promise) {
    && i + 1 < |trace| && t in trace[i].threads
    && trace[i].threads[t] == PollCheck(x.l, x.mask, x.p)
    && StepBy(trace[i], trace[i + 1], t, Go)
    && trace[i].sh.pollees[x.l].events * x.mask == {}
  }

  /** Thread `u` sets the bits of addition `id` in the step after `trace[j]`. */
  ghost predicate AddStarts(trace: seq<State>, j: nat, u: Tid, l: PolleeId, ev: set<IoEvent>, id: nat) {
    && j + 1 < |trace| && u in trace[j].threads
    && trace[j].threads[u] == AddOr(l, ev)
    && StepBy(trace[j], trace[j + 1], u, Go) && trace[j + 1].threads[u] == AddLock(l, ev, id)
  }

  /** Until it is dropped, a poller promised a wake-up is owed one by every matching addition. */
  lemma PromiseIsOwed(trace: seq<State>, i: nat, t: Tid, x: Promise, j: nat, u: Tid, ev: set<IoEvent>, id: nat)
    requires Run(trace) && i < j && PollReturnsNothing(trace, i, t, x)
    requires AddStarts(trace, j, u, x.l, ev, id) && x.mask * ev != {}
    requires HasPoller(trace[j].sh, x.p)
    ensures id < |trace[j + 1].sh.calls| && x.p in trace[j + 1].sh.calls[id].owed
    ensures id !in trace[j].sh.pollers[x.p].wokenBy
  {
    RunInv(trace, j);
    RunLater(trace, i + 1, j);
    assert x in trace[j].sh.promises;
    assert PollerOK(trace[j].sh.pollers[x.p], |trace[j].sh.calls|, trace[j].sh.pollees.Keys);
  }

  /** Every poll asks for ERR and HUP too, whatever mask it was given. */
  lemma {:induction false} MaskHasErrors(trace: seq<State>, i: nat, t: Tid)
    requires Run(trace) && i < |trace| && t in trace[i].threads && Polls(trace[i].threads[t])
    ensures ALWAYS_POLL <= trace[i].threads[t].mask
  {
    if i > 0 {
      assert StepAt(trace, i);
      var u, ch :| StepBy(trace[i - 1], trace[i], u, ch);
      if u != t || Polls(trace[i - 1].threads[t]) {
        MaskHasErrors(trace, i - 1, t);
      }
    }
  }

  /**
   Poll atomicity. If a poll returns no events, then every later addition that meets
   its mask or contains ERR or HUP has woken the poller by the time the
   addition's broadcast finishes, unless the poller has begun to be dropped; and the
   wake-up is pending until a wait takes it.
   */
  lemma PollAtomicity(
    trace: seq<State>, i: nat, t: Tid, x: Promise, j: nat, u: Tid, ev: set<IoEvent>, id: nat, k: nat)
    requires Run(trace) && i < j < k && PollReturnsNothing(trace, i, t, x)
    requires AddStarts(trace, j, u, x.l, ev, id) && (x.mask + ALWAYS_POLL) * ev != {}
    requires AddEnds(trace, k, u, id) && HasPoller(trace[k].sh, x.p)
    ensures HasPoller(trace[j].sh, x.p) && id !in trace[j].sh.pollers[x.p].wokenBy
    ensures id in trace[k].sh.pollers[x.p].wokenBy
    ensures id !in trace[k].sh.pollers[x.p].seen ==> trace[k].sh.pollers[x.p].notified
  {
    MaskHasErrors(trace, i, t);
    assert x.mask + ALWAYS_POLL == x.mask;
    AdditionWakes(trace, i, t, x, j, u, ev, id, k);
  }

  lemma AdditionWakes(
    trace: seq<State>, i: nat, t: Tid, x: Promise, j: nat, u: Tid, ev: set<IoEvent>, id: nat, k: nat)
    requires Run(trace) && i < j < k && PollReturnsNothing(trace, i, t, x)
    requires AddStarts(trace, j, u, x.l, ev, id) && x.mask * ev != {}
    requires AddEnds(trace, k, u, id) && HasPoller(trace[k].sh, x.p)
    ensures HasPoller(trace[j].sh, x.p) && id !in trace[j].sh.pollers[x.p].wokenBy
    ensures id in trace[k].sh.pollers[x.p].wokenBy
    ensures id !in trace[k].sh.pollers[x.p].seen ==> trace[k].sh.pollers[x.p].notified
  {
    RunLater(trace, i + 1, j);
    RunInv(trace, j);
    assert PromiseOK(trace[j].sh, x);
    RunLater(trace, j, k);
    PromiseIsOwed(trace, i, t, x, j, u, ev, id);
    RunLater(trace, j + 1, k);
    OwedIsWoken(trace, k, u, id, x.p);
  }

  /** When the broadcast of an addition ends, the pollers it owed a wake-up have it. */
  lemma OwedIsWoken(trace: seq<State>, k: nat, u: Tid, id: nat, p: PollerId)
    requires Run(trace) && AddEnds(trace, k, u, id) && HasPoller(trace[k].sh, p)
    requires id < |trace[k].sh.calls| && p in trace[k].sh.calls[id].owed
    ensures id in trace[k].sh.pollers[p].wokenBy
    ensures id !in trace[k].sh.pollers[p].seen ==> trace[k].sh.pollers[p].notified
  {
    BroadcastReachesAll(trace, k, u, id);
    RunInv(trace, k);
    assert LocalOK(trace[k].sh, u, trace[k].threads[u]);
    assert OwedOK(trace[k].sh, trace[k].threads[u], p);
    assert PollerOK(trace[k].sh.pollers[p], |trace[k].sh.calls|, trace[k].sh.pollees.Keys);
  }
}
