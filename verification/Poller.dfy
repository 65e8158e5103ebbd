/**
 Pollees and pollers (src/libos/src/events/poller.rs) as a transition system over
 any number of threads, pollees and pollers, with pollers as the only observers.

 Steps are single atomic accesses or lock sections, as in the channel model. A
 borrow (`&Poller`, `&Pollee`) held by a call in progress keeps its target from
 being dropped; `users` records these borrows.
 */
module Poller {
  import opened Util
  import opened Notifier

  type Tid = nat
  type PolleeId = nat
  type PollerId = nat

  datatype IoEvent = In | Pri | Out | Err | Hup | Nval | Rdhup

  const ALWAYS_POLL: set<IoEvent> := {Err, Hup}

  type Subs = seq<Subscriber<PollerId, IoEvent>>

  datatype Pollee = Pollee(events: set<IoEvent>, subs: Subs, lock: Option<Tid>, live: bool, users: set<Tid>)

  datatype Status = Live | Dropping(t: Tid) | Freed

  /**
   `pollees` is the list kept for unregistering on drop, `waiter` the thread inside
   `wait`. `notified` is the edge-triggered flag; `wokenBy`, `seen` and `lost` record
   the additions that set it, those a wait has taken, and those taken by a wait that
   then failed.
   */
  datatype Poller = Poller(
    pollees: seq<PolleeId>,
    status: Status,
    users: set<Tid>,
    waiter: Option<Tid>,
    notified: bool,
    wokenBy: set<nat>,
    seen: set<nat>,
    lost: set<nat>)

  /** One `add_events` call; `owed` are the pollers promised a wake-up when it set its bits. */
  datatype AddCall = AddCall(l: PolleeId, ev: set<IoEvent>, owed: set<PollerId>)

  /** A `poll` with this mask returned no events. */
  datatype Promise = Promise(p: PollerId, l: PolleeId, mask: set<IoEvent>)

  datatype Shared = Shared(
    pollees: map<PolleeId, Pollee>,
    pollers: map<PollerId, Poller>,
    calls: seq<AddCall>,
    promises: set<Promise>)

  datatype PC =
    | Idle
    | PollRegister(l: PolleeId, mask: set<IoEvent>, p: PollerId)
    | PollList(l: PolleeId, mask: set<IoEvent>, p: PollerId)
    | PollCheck(l: PolleeId, mask: set<IoEvent>, p: PollerId)
    | AddOr(l: PolleeId, ev: set<IoEvent>)
    | AddLock(l: PolleeId, ev: set<IoEvent>, id: nat)
    | AddAt(l: PolleeId, ev: set<IoEvent>, id: nat, i: nat)
    | DropNext(p: PollerId)
    | DropUnregister(p: PollerId, l: PolleeId)
    | Waiting(p: PollerId)

  /** `Fail` is a signal or a timeout that ends a wait. */
  datatype Choice =
    | Go
    | Fail
    | NewPollee(l: PolleeId, ev: set<IoEvent>)
    | FreePollee(l: PolleeId)
    | NewPoller(p: PollerId)
    | DropPoller(p: PollerId)
    | Poll(l: PolleeId, mask: set<IoEvent>, p: PollerId)
    | Add(l: PolleeId, ev: set<IoEvent>)
    | Del(l: PolleeId, ev: set<IoEvent>)
    | Wait(p: PollerId)

  datatype State = State(sh: Shared, threads: map<Tid, PC>)

  predicate HasPollee(sh: Shared, l: PolleeId) {
    l in sh.pollees && sh.pollees[l].live
  }

  predicate HasPoller(sh: Shared, p: PollerId) {
    p in sh.pollers && sh.pollers[p].status.Live?
  }

  predicate Enabled(sh: Shared, pc: PC, ch: Choice) {
    match pc
    case Idle => (
      match ch
      case Go => false
      case Fail => false
      case NewPollee(l, _) => l !in sh.pollees
      case FreePollee(l) => HasPollee(sh, l) && sh.pollees[l].users == {}
      case NewPoller(p) => p !in sh.pollers
      case DropPoller(p) => HasPoller(sh, p) && sh.pollers[p].users == {}
      case Poll(l, _, p) => HasPollee(sh, l) && HasPoller(sh, p)
      case Add(l, _) => HasPollee(sh, l)
      case Del(l, _) => HasPollee(sh, l)
      case Wait(p) => HasPoller(sh, p) && sh.pollers[p].waiter.None?
    )
    case Waiting(p) => ch.Fail? || (ch.Go? && p in sh.pollers && sh.pollers[p].notified)
    case PollRegister(l, _, _) => ch.Go? && l in sh.pollees && sh.pollees[l].lock.None?
    case AddLock(l, _, _) => ch.Go? && l in sh.pollees && sh.pollees[l].lock.None?
    case DropUnregister(_, l) => ch.Go? && l in sh.pollees && (sh.pollees[l].live ==> sh.pollees[l].lock.None?)
    case _ => ch.Go?
  }

  function SetPollee(sh: Shared, l: PolleeId, e: Pollee): Shared {
    sh.(pollees := sh.pollees[l := e])
  }

  function SetPoller(sh: Shared, p: PollerId, e: Poller): Shared {
    sh.(pollers := sh.pollers[p := e])
  }

  function Begin(sh: Shared, t: Tid, ch: Choice): (Shared, PC)
    requires Enabled(sh, Idle, ch)
  {
    match ch
    case NewPollee(l, ev) => (SetPollee(sh, l, Pollee(ev, [], None, true, {})), Idle)
    case FreePollee(l) => (SetPollee(sh, l, sh.pollees[l].(live := false, subs := [])), Idle)
    case NewPoller(p) => (SetPoller(sh, p, Poller([], Live, {}, None, false, {}, {}, {})), Idle)
    case DropPoller(p) => (SetPoller(sh, p, sh.pollers[p].(status := Dropping(t))), DropNext(p))
    case Poll(l, mask, p) =>
      var e, r := sh.pollees[l], sh.pollers[p];
      (SetPoller(SetPollee(sh, l, e.(users := e.users + {t})), p, r.(users := r.users + {t})),
       PollRegister(l, mask + ALWAYS_POLL, p))
    case Add(l, ev) =>
      var e := sh.pollees[l];
      (SetPollee(sh, l, e.(users := e.users + {t})), AddOr(l, ev))
    case Del(l, ev) =>
      var e := sh.pollees[l];
      (SetPollee(sh, l, e.(events := e.events - ev)), Idle)
    case Wait(p) =>
      var r := sh.pollers[p];
      if r.notified then (SetPoller(sh, p, r.(notified := false, seen := r.wokenBy)), Idle)
      else (SetPoller(sh, p, r.(waiter := Some(t), users := r.users + {t})), Waiting(p))
  }

  predicate Polls(pc: PC) {
    pc.PollRegister? || pc.PollList? || pc.PollCheck?
  }

  predicate Adds(pc: PC) {
    pc.AddOr? || pc.AddLock? || pc.AddAt?
  }

  predicate Drops(pc: PC) {
    pc.DropNext? || pc.DropUnregister?
  }

  function ActPoll(sh: Shared, t: Tid, pc: PC): (Shared, PC)
    requires Polls(pc) && pc.l in sh.pollees && pc.p in sh.pollers
  {
    var e, r := sh.pollees[pc.l], sh.pollers[pc.p];
    match pc
    case PollRegister(l, mask, p) =>
      (SetPollee(sh, l, e.(subs := e.subs + [Subscriber(p, Some(mask))])), PollList(l, mask, p))
    case PollList(l, mask, p) =>
      (SetPoller(sh, p, r.(pollees := r.pollees + [l])), PollCheck(l, mask, p))
    case PollCheck(l, mask, p) =>
      var sh1 := SetPoller(SetPollee(sh, l, e.(users := e.users - {t})), p, r.(users := r.users - {t}));
      (if e.events * mask == {} then sh1.(promises := sh1.promises + {Promise(p, l, mask)}) else sh1, Idle)
  }

  /** The pollers that were promised a wake-up for these events and still exist. */
  function Owed(sh: Shared, l: PolleeId, ev: set<IoEvent>): set<PollerId> {
    set x | x in sh.promises && x.l == l && x.mask * ev != {} && HasPoller(sh, x.p) :: x.p
  }

  function EndAdd(sh: Shared, t: Tid, l: PolleeId): (Shared, PC)
    requires l in sh.pollees
  {
    var e := sh.pollees[l];
    (SetPollee(sh, l, e.(lock := None, users := e.users - {t})), Idle)
  }

  function ActAdd(sh: Shared, t: Tid, pc: PC): (Shared, PC)
    requires Adds(pc) && pc.l in sh.pollees
  {
    var e := sh.pollees[pc.l];
    match pc
    case AddOr(l, ev) =>
      (SetPollee(sh, l, e.(events := e.events + ev)).(calls := sh.calls + [AddCall(l, ev, Owed(sh, l, ev))]),
       AddLock(l, ev, |sh.calls|))
    case AddLock(l, ev, id) =>
      (SetPollee(sh, l, e.(lock := Some(t))), AddAt(l, ev, id, 0))
    case AddAt(l, ev, id, i) =>
      if i >= |e.subs| then EndAdd(sh, t, l)
      else if !Passes(e.subs[i], ev) then (sh, AddAt(l, ev, id, i + 1))
      else
        var p := e.subs[i].observer;
        if p !in sh.pollers || sh.pollers[p].status.Freed? then EndAdd(sh, t, l)
        else
          var r := sh.pollers[p];
          (SetPoller(sh, p, r.(notified := true, wokenBy := r.wokenBy + {id})), AddAt(l, ev, id, i + 1))
  }

  function ActDrop(sh: Shared, pc: PC): (Shared, PC)
    requires Drops(pc) && pc.p in sh.pollers && (pc.DropUnregister? ==> pc.l in sh.pollees)
  {
    var r := sh.pollers[pc.p];
    match pc
    case DropNext(p) =>
      if r.pollees == [] then (SetPoller(sh, p, r.(status := Freed)), Idle)
      else (SetPoller(sh, p, r.(pollees := r.pollees[1..])), DropUnregister(p, r.pollees[0]))
    case DropUnregister(p, l) =>
      var e := sh.pollees[l];
      (if e.live then SetPollee(sh, l, e.(subs := Without(e.subs, p))) else sh, DropNext(p))
  }

  /** The end of a wait, whether notified or failed, clears the flag. */
  function ActWait(sh: Shared, t: Tid, pc: PC, ch: Choice): (Shared, PC)
    requires pc.Waiting? && pc.p in sh.pollers
  {
    var r := sh.pollers[pc.p];
    var done := r.(waiter := None, users := r.users - {t}, notified := false, seen := r.wokenBy);
    (SetPoller(sh, pc.p, if ch.Fail? then done.(lost := r.lost + (r.wokenBy - r.seen)) else done), Idle)
  }

  /** The pollee and poller a program counter names exist. */
  predicate Named(sh: Shared, pc: PC) {
    && (Polls(pc) || Adds(pc) || pc.DropUnregister? ==> pc.l in sh.pollees)
    && (Polls(pc) || Drops(pc) || pc.Waiting? ==> pc.p in sh.pollers)
  }

  function Act(sh: Shared, t: Tid, pc: PC, ch: Choice): (Shared, PC)
    requires Enabled(sh, pc, ch) && Named(sh, pc)
  {
    if Polls(pc) then ActPoll(sh, t, pc)
    else if Adds(pc) then ActAdd(sh, t, pc)
    else if Drops(pc) then ActDrop(sh, pc)
    else if pc.Waiting? then ActWait(sh, t, pc, ch)
    else Begin(sh, t, ch)
  }

  ghost predicate Init(st: State) {
    && st.sh == Shared(map[], map[], [], {})
    && forall t :: t in st.threads ==> st.threads[t] == Idle
  }

  ghost predicate StepBy(st: State, st': State, t: Tid, ch: Choice) {
    && t in st.threads
    && Enabled(st.sh, st.threads[t], ch) && Named(st.sh, st.threads[t])
    && var (sh', pc') := Act(st.sh, t, st.threads[t], ch);
       st' == State(sh', st.threads[t := pc'])
  }

  ghost predicate Next(st: State, st': State) {
    exists t, ch :: StepBy(st, st', t, ch)
  }

  ghost predicate StepAt(trace: seq<State>, i: int)
    requires 0 < i < |trace|
  {
    Next(trace[i - 1], trace[i])
  }

  ghost predicate Run(trace: seq<State>) {
    && |trace| > 0
    && Init(trace[0])
    && forall i :: 0 < i < |trace| ==> StepAt(trace, i)
  }
}
