/**
 What a pollee's events are and what a poll sees of them, over runs labelled with the
 calls that are made.
 */
module PollerEvents {
  import opened Util
  import opened Notifier
  import opened Poller
  import Safety = PollerSafety

  /** Who steps, and what it is asked to do. */
  datatype Label = Label(t: Tid, ch: Choice)

  ghost predicate LabelledStep(trace: seq<State>, labels: seq<Label>, i: int)
    requires 0 <= i < |labels| < |trace|
  {
    StepBy(trace[i], trace[i + 1], labels[i].t, labels[i].ch)
  }

  ghost predicate LabelledRun(trace: seq<State>, labels: seq<Label>) {
    && |trace| == |labels| + 1
    && Init(trace[0])
    && forall i :: 0 <= i < |labels| ==> LabelledStep(trace, labels, i)
  }

  lemma IsRun(trace: seq<State>, labels: seq<Label>)
    requires LabelledRun(trace, labels)
    ensures Run(trace)
  {
    forall i | 0 < i < |trace|
      ensures StepAt(trace, i)
    {
      assert LabelledStep(trace, labels, i - 1);
    }
  }

  /** Every run can be labelled. */
  lemma {:induction false} Labels(trace: seq<State>) returns (labels: seq<Label>)
    requires Run(trace)
    ensures LabelledRun(trace, labels)
  {
    if |trace| == 1 {
      labels := [];
    } else {
      var front := trace[..|trace| - 1];
      forall i | 0 < i < |front|
        ensures StepAt(front, i)
      {
        assert StepAt(trace, i);
      }
      labels := Labels(front);
      assert StepAt(trace, |front|);
      var t, ch :| StepBy(trace[|front| - 1], trace[|front|], t, ch);
      forall i | 0 <= i < |labels|
        ensures LabelledStep(trace, labels + [Label(t, ch)], i)
      {
        assert LabelledStep(front, labels, i);
      }
      labels := labels + [Label(t, ch)];
      assert LabelledStep(trace, labels, |front| - 1);
    }
  }

  /** The program counter of the thread that takes step `i`. */
  function Actor(trace: seq<State>, labels: seq<Label>, i: nat): PC
    requires i < |labels| < |trace|
  {
    PCOf(trace[i], labels[i].t)
  }

  function PCOf(st: State, t: Tid): PC {
    if t in st.threads then st.threads[t] else Idle
  }

  // ---- Calls

  /** A call starts on what it was asked for; a poll adds ERR and HUP to its mask. */
  lemma CallBegins(st: State, st': State, t: Tid, ch: Choice)
    requires StepBy(st, st', t, ch) && st.threads[t].Idle?
    ensures ch.Add? ==> st'.threads[t] == AddOr(ch.l, ch.ev)
    ensures ch.Poll? ==> st'.threads[t] == PollRegister(ch.l, ch.mask + {Err, Hup}, ch.p)
    ensures ch.DropPoller? ==> st'.threads[t] == DropNext(ch.p)
  {
  }

  // ---- Events

  /** Step `i` creates pollee `l` with event `e`, or is the atomic update of an addition of `e`. */
  ghost predicate SetsAt(trace: seq<State>, labels: seq<Label>, i: nat, l: PolleeId, e: IoEvent)
    requires i < |labels| < |trace|
  {
    var pc, ch := Actor(trace, labels, i), labels[i].ch;
    || (pc.AddOr? && pc.l == l && e in pc.ev)
    || (pc.Idle? && ch.NewPollee? && ch.l == l && e in ch.ev)
  }

  /** Step `i` deletes event `e` of pollee `l`. */
  ghost predicate ClearsAt(trace: seq<State>, labels: seq<Label>, i: nat, l: PolleeId, e: IoEvent)
    requires i < |labels| < |trace|
  {
    var ch := labels[i].ch;
    Actor(trace, labels, i).Idle? && ch.Del? && ch.l == l && e in ch.ev
  }

  /** Set by step `i` and not deleted by any later step before state `j`. */
  ghost predicate SetSince(trace: seq<State>, labels: seq<Label>, i: nat, j: nat, l: PolleeId, e: IoEvent)
    requires |trace| == |labels| + 1 && i < j < |trace|
  {
    SetsAt(trace, labels, i, l, e) && forall k :: i < k < j ==> !ClearsAt(trace, labels, k, l, e)
  }

  ghost predicate Stands(trace: seq<State>, labels: seq<Label>, j: nat, l: PolleeId, e: IoEvent)
    requires |trace| == |labels| + 1 && j < |trace|
  {
    exists i :: 0 <= i < j && SetSince(trace, labels, i, j, l, e)
  }

  lemma StandsStep(trace: seq<State>, labels: seq<Label>, j: nat, l: PolleeId, e: IoEvent)
    requires |trace| == |labels| + 1 && j + 1 < |trace|
    ensures Stands(trace, labels, j + 1, l, e) <==>
      SetsAt(trace, labels, j, l, e) || (Stands(trace, labels, j, l, e) && !ClearsAt(trace, labels, j, l, e))
  {
    if SetsAt(trace, labels, j, l, e) {
      assert SetSince(trace, labels, j, j + 1, l, e);
    }
    if Stands(trace, labels, j, l, e) && !ClearsAt(trace, labels, j, l, e) {
      var i :| 0 <= i < j && SetSince(trace, labels, i, j, l, e);
      assert SetSince(trace, labels, i, j + 1, l, e);
    }
    if Stands(trace, labels, j + 1, l, e) && !SetsAt(trace, labels, j, l, e) {
      var i :| 0 <= i < j + 1 && SetSince(trace, labels, i, j + 1, l, e);
      assert SetSince(trace, labels, i, j, l, e);
    }
  }

  /** What one step does to the events of a pollee. */
  lemma EventsStep(sh: Shared, t: Tid, pc: PC, ch: Choice, l: PolleeId, e: IoEvent)
    requires Enabled(sh, pc, ch) && Named(sh, pc) && l in Act(sh, t, pc, ch).0.pollees
    ensures e in Act(sh, t, pc, ch).0.pollees[l].events <==>
      || (pc.AddOr? && pc.l == l && e in pc.ev)
      || (pc.Idle? && ch.NewPollee? && ch.l == l && e in ch.ev)
      || (l in sh.pollees && e in sh.pollees[l].events && !(pc.Idle? && ch.Del? && ch.l == l && e in ch.ev))
  {
  }

  lemma KeysStay(sh: Shared, t: Tid, pc: PC, ch: Choice)
    requires Enabled(sh, pc, ch) && Named(sh, pc)
    ensures sh.pollees.Keys <= Act(sh, t, pc, ch).0.pollees.Keys
    ensures sh.pollers.Keys <= Act(sh, t, pc, ch).0.pollers.Keys
  {
  }

  /** Pollees and pollers stay known; a step that sets an event of a pollee knows it. */
  lemma NobodyVanishes(trace: seq<State>, labels: seq<Label>, i: nat)
    requires LabelledRun(trace, labels) && i < |labels|
    ensures trace[i].sh.pollees.Keys <= trace[i + 1].sh.pollees.Keys
    ensures trace[i].sh.pollers.Keys <= trace[i + 1].sh.pollers.Keys
    ensures forall l, e :: SetsAt(trace, labels, i, l, e) ==> l in trace[i + 1].sh.pollees
  {
    assert LabelledStep(trace, labels, i);
    KeysStay(trace[i].sh, labels[i].t, Actor(trace, labels, i), labels[i].ch);
  }

  lemma EventsAt(trace: seq<State>, labels: seq<Label>, i: nat, l: PolleeId, e: IoEvent)
    requires LabelledRun(trace, labels) && i < |labels| && l in trace[i + 1].sh.pollees
    ensures e in trace[i + 1].sh.pollees[l].events <==>
      || SetsAt(trace, labels, i, l, e)
      || (l in trace[i].sh.pollees && e in trace[i].sh.pollees[l].events && !ClearsAt(trace, labels, i, l, e))
  {
    assert LabelledStep(trace, labels, i);
    EventsStep(trace[i].sh, labels[i].t, Actor(trace, labels, i), labels[i].ch, l, e);
  }

  /** Nothing stands for a pollee that does not exist yet. */
  lemma {:induction false} StandsKnown(trace: seq<State>, labels: seq<Label>, j: nat, l: PolleeId, e: IoEvent)
    requires LabelledRun(trace, labels) && j < |trace| && Stands(trace, labels, j, l, e)
    ensures l in trace[j].sh.pollees
  {
    StandsStep(trace, labels, j - 1, l, e);
    NobodyVanishes(trace, labels, j - 1);
    if !SetsAt(trace, labels, j - 1, l, e) {
      StandsKnown(trace, labels, j - 1, l, e);
    }
  }

  /**
   In every run an event is set in a pollee exactly if it was there from the start or
   has been added, and has not been deleted since.
   */
  lemma {:induction false} EventsExact(trace: seq<State>, labels: seq<Label>, j: nat, l: PolleeId, e: IoEvent)
    requires LabelledRun(trace, labels) && j < |trace| && l in trace[j].sh.pollees
    ensures e in trace[j].sh.pollees[l].events <==> Stands(trace, labels, j, l, e)
  {
    if j > 0 {
      StandsStep(trace, labels, j - 1, l, e);
      EventsAt(trace, labels, j - 1, l, e);
      if l in trace[j - 1].sh.pollees {
        EventsExact(trace, labels, j - 1, l, e);
      } else if Stands(trace, labels, j - 1, l, e) {
        StandsKnown(trace, labels, j - 1, l, e);
      }
    }
  }

  // ---- Polls

  /** Thread `t` begins to poll in the step after `trace[a]` and is at its last check in `trace[i]`. */
  ghost predicate PollsBetween(
    trace: seq<State>, labels: seq<Label>, a: nat, i: nat, t: Tid, l: PolleeId, mask: set<IoEvent>, p: PollerId)
    requires LabelledRun(trace, labels)
  {
    && a < i < |labels| && labels[a] == Label(t, Poll(l, mask, p))
    && t in trace[a].threads && trace[a].threads[t].Idle?
    && (forall k :: a < k <= i ==> t in trace[k].threads && Polls(trace[k].threads[t]))
    && trace[i].threads[t].PollCheck? && labels[i].t == t
  }

  lemma {:induction false} PollKeeps(
    trace: seq<State>, labels: seq<Label>, a: nat, i: nat, t: Tid, l: PolleeId, mask: set<IoEvent>, p: PollerId)
    requires LabelledRun(trace, labels) && a < i < |trace| && labels[a] == Label(t, Poll(l, mask, p))
    requires t in trace[a].threads && trace[a].threads[t].Idle?
    requires forall k :: a < k <= i ==> t in trace[k].threads && Polls(trace[k].threads[t])
    ensures var pc := trace[i].threads[t]; Polls(pc) && pc.l == l && pc.p == p && pc.mask == mask + {Err, Hup}
  {
    assert LabelledStep(trace, labels, i - 1);
    if i == a + 1 {
      CallBegins(trace[a], trace[i], t, labels[a].ch);
    } else {
      PollKeeps(trace, labels, a, i - 1, t, l, mask, p);
      assert Polls(trace[i - 1].threads[t]);
    }
  }

  /**
   A poll returns nothing, and its poller is promised a wake-up, exactly if no event of
   its mask and neither ERR nor HUP was set and is not deleted since.
   */
  lemma PollExact(
    trace: seq<State>, labels: seq<Label>, a: nat, i: nat, t: Tid, l: PolleeId, mask: set<IoEvent>, p: PollerId)
    requires LabelledRun(trace, labels) && PollsBetween(trace, labels, a, i, t, l, mask, p)
    ensures var sh, sh' := trace[i].sh, trace[i + 1].sh;
      if exists e :: e in mask + {Err, Hup} && Stands(trace, labels, i, l, e)
      then sh'.promises == sh.promises
      else sh'.promises == sh.promises + {Promise(p, l, mask + {Err, Hup})}
  {
    PollKeeps(trace, labels, a, i, t, l, mask, p);
    assert LabelledStep(trace, labels, i);
    var met := trace[i].sh.pollees[l].events * (mask + {Err, Hup});
    if e :| e in mask + {Err, Hup} && Stands(trace, labels, i, l, e) {
      EventsExact(trace, labels, i, l, e);
      assert e in met;
    } else if met != {} {
      var e :| e in met;
      EventsExact(trace, labels, i, l, e);
    }
  }

  // ---- Wake-ups

  /** Some call before state `j` polled `l` for `p` with this mask, ERR and HUP included. */
  ghost predicate Asked(labels: seq<Label>, j: nat, l: PolleeId, p: PollerId, mask: set<IoEvent>)
    requires j <= |labels|
  {
    exists a :: 0 <= a < j && PollLabel(labels[a], l, p, mask)
  }

  ghost predicate PollLabel(x: Label, l: PolleeId, p: PollerId, mask: set<IoEvent>) {
    x.ch.Poll? && x.ch.l == l && x.ch.p == p && mask == x.ch.mask + {Err, Hup}
  }

  ghost predicate EntryAsked(labels: seq<Label>, j: nat, l: PolleeId, s: Subscriber<PollerId, IoEvent>)
    requires j <= |labels|
  {
    s.filter.Some? && Asked(labels, j, l, s.observer, s.filter.value)
  }

  ghost predicate EntriesAsked(labels: seq<Label>, j: nat, st: State)
    requires j <= |labels|
  {
    && (forall t :: t in st.threads && st.threads[t].PollRegister? ==>
          Asked(labels, j, st.threads[t].l, st.threads[t].p, st.threads[t].mask))
    && (forall l, s :: l in st.sh.pollees && s in st.sh.pollees[l].subs ==> EntryAsked(labels, j, l, s))
  }

  lemma AskedStays(labels: seq<Label>, j: nat, l: PolleeId, p: PollerId, mask: set<IoEvent>)
    requires j < |labels| && Asked(labels, j, l, p, mask)
    ensures Asked(labels, j + 1, l, p, mask)
  {
  }

  lemma RegisteringAsked(trace: seq<State>, labels: seq<Label>, j: nat, t: Tid)
    requires LabelledRun(trace, labels) && j < |labels| && LabelledStep(trace, labels, j)
    requires EntriesAsked(labels, j, trace[j])
    requires t in trace[j + 1].threads && trace[j + 1].threads[t].PollRegister?
    ensures var pc := trace[j + 1].threads[t]; Asked(labels, j + 1, pc.l, pc.p, pc.mask)
  {
    var pc := trace[j + 1].threads[t];
    if t == labels[j].t {
      assert PollLabel(labels[j], pc.l, pc.p, pc.mask);
    } else {
      AskedStays(labels, j, pc.l, pc.p, pc.mask);
    }
  }

  lemma EntryStillAsked(
    trace: seq<State>, labels: seq<Label>, j: nat, l: PolleeId, s: Subscriber<PollerId, IoEvent>)
    requires LabelledRun(trace, labels) && j < |labels| && LabelledStep(trace, labels, j)
    requires Safety.Inv(trace[j]) && EntriesAsked(labels, j, trace[j])
    requires l in trace[j + 1].sh.pollees && s in trace[j + 1].sh.pollees[l].subs
    ensures EntryAsked(labels, j + 1, l, s)
  {
    var pc := Actor(trace, labels, j);
    assert Safety.LocalOK(trace[j].sh, labels[j].t, pc);
    EntryOrigin(trace[j].sh, labels[j].t, pc, labels[j].ch, l, s);
    AskedStays(labels, j, l, s.observer, s.filter.value);
  }

  /** A new entry carries the mask of the poll that registers it. */
  lemma EntryOrigin(sh: Shared, t: Tid, pc: PC, ch: Choice, l: PolleeId, s: Subscriber<PollerId, IoEvent>)
    requires Safety.SharedOK(sh) && Safety.BorrowsOK(sh, t, pc) && Enabled(sh, pc, ch)
    requires var sh' := Act(sh, t, pc, ch).0; l in sh'.pollees && s in sh'.pollees[l].subs
    ensures (l in sh.pollees && s in sh.pollees[l].subs) || (s.filter.Some? && pc == PollRegister(l, s.filter.value, s.observer))
  {
    Safety.EntryFrom(sh, t, pc, ch, l, s);
  }

  lemma {:induction false} AllAsked(trace: seq<State>, labels: seq<Label>, j: nat)
    requires LabelledRun(trace, labels) && j < |trace|
    ensures EntriesAsked(labels, j, trace[j])
  {
    if j > 0 {
      AllAsked(trace, labels, j - 1);
      assert LabelledStep(trace, labels, j - 1);
      IsRun(trace, labels);
      Safety.RunInv(trace, j - 1);
      forall t | t in trace[j].threads && trace[j].threads[t].PollRegister?
        ensures Asked(labels, j, trace[j].threads[t].l, trace[j].threads[t].p, trace[j].threads[t].mask)
      {
        RegisteringAsked(trace, labels, j - 1, t);
      }
      forall l, s | l in trace[j].sh.pollees && s in trace[j].sh.pollees[l].subs
        ensures EntryAsked(labels, j, l, s)
      {
        EntryStillAsked(trace, labels, j - 1, l, s);
      }
    }
  }

  /** A step wakes a poller only through an entry whose mask meets the added events. */
  lemma WokenThrough(sh: Shared, t: Tid, pc: PC, ch: Choice, p: PollerId, id: nat)
    requires Enabled(sh, pc, ch) && Named(sh, pc) && p in sh.pollers && p in Act(sh, t, pc, ch).0.pollers
    requires id in Act(sh, t, pc, ch).0.pollers[p].wokenBy && id !in sh.pollers[p].wokenBy
    ensures pc.AddAt? && pc.id == id && pc.i < |sh.pollees[pc.l].subs|
    ensures var s := sh.pollees[pc.l].subs[pc.i];
      s.observer == p && (s.filter.Some? ==> exists e :: e in s.filter.value && e in pc.ev)
  {
    var s := sh.pollees[pc.l].subs[pc.i];
    if s.filter.Some? {
      var e :| e in s.filter.value * pc.ev;
    }
  }

  /**
   In every run a poller is woken by an addition only if it has polled that pollee with
   a mask that meets the added events, ERR and HUP included.
   */
  lemma WokenOnlyIfAsked(trace: seq<State>, labels: seq<Label>, j: nat, p: PollerId, id: nat)
    requires LabelledRun(trace, labels) && j < |labels| && LabelledStep(trace, labels, j)
    requires p in trace[j].sh.pollers && p in trace[j + 1].sh.pollers
    requires id in trace[j + 1].sh.pollers[p].wokenBy && id !in trace[j].sh.pollers[p].wokenBy
    ensures Actor(trace, labels, j).AddAt?
    ensures var pc := Actor(trace, labels, j);
      && pc.id == id < |trace[j].sh.calls| && trace[j].sh.calls[id].l == pc.l && trace[j].sh.calls[id].ev == pc.ev
      && exists mask :: Asked(labels, j, pc.l, p, mask) && mask * pc.ev != {}
  {
    var st, pc := trace[j], Actor(trace, labels, j);
    IsRun(trace, labels);
    Safety.RunInv(trace, j);
    assert Safety.LocalOK(st.sh, labels[j].t, pc);
    WokenThrough(st.sh, labels[j].t, pc, labels[j].ch, p, id);
    AllAsked(trace, labels, j);
    var s := st.sh.pollees[pc.l].subs[pc.i];
    assert s in st.sh.pollees[pc.l].subs && EntryAsked(labels, j, pc.l, s);
    var e :| e in s.filter.value && e in pc.ev;
    assert e in s.filter.value * pc.ev;
  }

  // ---- The flag of a poller

  /** Step `i` is an addition calling poller `p`. */
  ghost predicate CallsAt(trace: seq<State>, labels: seq<Label>, i: nat, p: PollerId)
    requires i < |labels| < |trace|
  {
    Calls(trace[i].sh, Actor(trace, labels, i), p)
  }

  ghost predicate Calls(sh: Shared, pc: PC, p: PollerId) {
    && pc.AddAt? && pc.l in sh.pollees && pc.i < |sh.pollees[pc.l].subs|
    && sh.pollees[pc.l].subs[pc.i].observer == p && Wants(sh.pollees[pc.l].subs[pc.i], pc.ev)
  }

  /** Step `i` ends a wait on poller `p`, at once or after sleeping. */
  ghost predicate WaitEndsAt(trace: seq<State>, labels: seq<Label>, i: nat, p: PollerId)
    requires i < |labels| < |trace|
  {
    WaitEnds(Actor(trace, labels, i), labels[i].ch, PCOf(trace[i + 1], labels[i].t), p)
  }

  predicate WaitEnds(pc: PC, ch: Choice, pc': PC, p: PollerId) {
    pc == Waiting(p) || (pc.Idle? && ch == Wait(p) && pc'.Idle?)
  }

  lemma FlagStep(sh: Shared, t: Tid, pc: PC, ch: Choice, p: PollerId)
    requires Enabled(sh, pc, ch) && Named(sh, pc) && p in Act(sh, t, pc, ch).0.pollers
    requires Calls(sh, pc, p) ==> p in sh.pollers && !sh.pollers[p].status.Freed?
    ensures var (sh', pc') := Act(sh, t, pc, ch);
      sh'.pollers[p].notified <==>
        Calls(sh, pc, p) || (p in sh.pollers && sh.pollers[p].notified && !WaitEnds(pc, ch, pc', p))
  {
    if pc.AddAt? && pc.i < |sh.pollees[pc.l].subs| {
      WantsExact(sh.pollees[pc.l].subs[pc.i], pc.ev);
    }
  }

  /** Called by step `i`, and no wait has ended in a later step before state `j`. */
  ghost predicate CalledSince(trace: seq<State>, labels: seq<Label>, i: nat, j: nat, p: PollerId)
    requires |trace| == |labels| + 1 && i < j < |trace|
  {
    CallsAt(trace, labels, i, p) && forall k :: i < k < j ==> !WaitEndsAt(trace, labels, k, p)
  }

  ghost predicate Due(trace: seq<State>, labels: seq<Label>, j: nat, p: PollerId)
    requires |trace| == |labels| + 1 && j < |trace|
  {
    exists i :: 0 <= i < j && CalledSince(trace, labels, i, j, p)
  }

  lemma DueStep(trace: seq<State>, labels: seq<Label>, j: nat, p: PollerId)
    requires |trace| == |labels| + 1 && j + 1 < |trace|
    ensures Due(trace, labels, j + 1, p) <==>
      CallsAt(trace, labels, j, p) || (Due(trace, labels, j, p) && !WaitEndsAt(trace, labels, j, p))
  {
    if CallsAt(trace, labels, j, p) {
      assert CalledSince(trace, labels, j, j + 1, p);
    }
    if Due(trace, labels, j, p) && !WaitEndsAt(trace, labels, j, p) {
      var i :| 0 <= i < j && CalledSince(trace, labels, i, j, p);
      assert CalledSince(trace, labels, i, j + 1, p);
    }
    if Due(trace, labels, j + 1, p) && !CallsAt(trace, labels, j, p) {
      var i :| 0 <= i < j + 1 && CalledSince(trace, labels, i, j + 1, p);
      assert CalledSince(trace, labels, i, j, p);
    }
  }

  /** A poller that is called exists. */
  lemma CalledExists(trace: seq<State>, labels: seq<Label>, i: nat, p: PollerId)
    requires LabelledRun(trace, labels) && i < |labels| && CallsAt(trace, labels, i, p)
    ensures p in trace[i].sh.pollers && !trace[i].sh.pollers[p].status.Freed?
  {
    var st, pc := trace[i], Actor(trace, labels, i);
    IsRun(trace, labels);
    Safety.RunInv(trace, i);
    var s := st.sh.pollees[pc.l].subs[pc.i];
    assert s in st.sh.pollees[pc.l].subs && Safety.EntryOK(st, pc.l, s);
  }

  lemma {:induction false} DueKnown(trace: seq<State>, labels: seq<Label>, j: nat, p: PollerId)
    requires LabelledRun(trace, labels) && j < |trace| && Due(trace, labels, j, p)
    ensures p in trace[j].sh.pollers
  {
    DueStep(trace, labels, j - 1, p);
    NobodyVanishes(trace, labels, j - 1);
    if CallsAt(trace, labels, j - 1, p) {
      CalledExists(trace, labels, j - 1, p);
    } else {
      DueKnown(trace, labels, j - 1, p);
    }
  }

  lemma FlagAt(trace: seq<State>, labels: seq<Label>, i: nat, p: PollerId)
    requires LabelledRun(trace, labels) && i < |labels| && p in trace[i + 1].sh.pollers
    ensures trace[i + 1].sh.pollers[p].notified <==>
      || CallsAt(trace, labels, i, p)
      || (p in trace[i].sh.pollers && trace[i].sh.pollers[p].notified && !WaitEndsAt(trace, labels, i, p))
  {
    assert LabelledStep(trace, labels, i);
    if CallsAt(trace, labels, i, p) {
      CalledExists(trace, labels, i, p);
    }
    FlagStep(trace[i].sh, labels[i].t, Actor(trace, labels, i), labels[i].ch, p);
  }

  /** In every run a poller's flag is set exactly if an addition has called it since the last wait on it ended. */
  lemma {:induction false} NotifiedExact(trace: seq<State>, labels: seq<Label>, j: nat, p: PollerId)
    requires LabelledRun(trace, labels) && j < |trace| && p in trace[j].sh.pollers
    ensures trace[j].sh.pollers[p].notified <==> Due(trace, labels, j, p)
  {
    if j > 0 {
      DueStep(trace, labels, j - 1, p);
      FlagAt(trace, labels, j - 1, p);
      if p in trace[j - 1].sh.pollers {
        NotifiedExact(trace, labels, j - 1, p);
      } else if Due(trace, labels, j - 1, p) {
        DueKnown(trace, labels, j - 1, p);
      }
    }
  }

  /** A wait returns at once exactly if the poller was called since the last wait, and otherwise sleeps. */
  lemma WaitExact(trace: seq<State>, labels: seq<Label>, i: nat, p: PollerId)
    requires LabelledRun(trace, labels) && i < |labels| && LabelledStep(trace, labels, i)
    requires Actor(trace, labels, i).Idle? && labels[i].ch == Wait(p)
    ensures trace[i + 1].threads[labels[i].t] == if Due(trace, labels, i, p) then Idle else Waiting(p)
  {
    NotifiedExact(trace, labels, i, p);
  }
}
