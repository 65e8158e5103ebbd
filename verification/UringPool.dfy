/**
 The io_uring pool (src/libos/src/io_uring.rs): sockets are attached to rings,
 growing the pool up to a limit and then choosing a least-loaded ring.

 Every method runs under the pool's mutex, so a run is a sequence of method calls.
 A ring is named by the identity of its `Arc`. Building a ring is assumed to succeed.
 */
module UringPool {
  import opened Util

  type RingId = nat

  datatype UringState = UringState(registered: nat, polling: bool)

  type Rings = map<RingId, UringState>

  function Counts(rings: Rings): map<RingId, nat> {
    map r | r in rings :: rings[r].registered
  }

  ghost function Sockets(rings: Rings): nat {
    Total(Counts(rings))
  }

  ghost predicate IsMinimal(rings: Rings, r: RingId) {
    r in rings && forall k :: k in rings ==> rings[r].registered <= rings[k].registered
  }

  /** `out` are the attaches not yet detached, `peak` the most there ever were. */
  datatype Pool = Pool(limit: nat, rings: Rings, running: nat, out: multiset<RingId>, peak: nat)

  datatype Event = Prefill | Attach(r: RingId) | Detach(r: RingId)

  /** A new ring is built while the pool is below its limit and has no ring to spare. */
  ghost predicate ShouldBuild(s: Pool) {
    s.running < s.limit && s.running < Sockets(s.rings) + 1
  }

  /** `get_uring` fails its assertion, or finds no ring to choose from. */
  ghost predicate AttachPanics(s: Pool) {
    s.running > s.limit || (!ShouldBuild(s) && s.rings == map[])
  }

  ghost predicate AttachStep(s: Pool, r: RingId, s': Pool) {
    && !AttachPanics(s)
    && s'.limit == s.limit && s'.out == s.out + multiset{r}
    && s'.peak == (if s.peak < |s'.out| then |s'.out| else s.peak)
    && if ShouldBuild(s) then
         r !in s.rings && s'.rings == s.rings[r := UringState(1, true)] && s'.running == s.running + 1
       else
         && IsMinimal(s.rings, r) && s'.running == s.running
         && s'.rings == s.rings[r := s.rings[r].(registered := s.rings[r].registered + 1)]
  }

  /** The caller gives back a ring it was given. */
  ghost predicate DetachStep(s: Pool, r: RingId, s': Pool) {
    && r in s.out && r in s.rings && s.rings[r].registered > 0
    && s' == s.(
         out := s.out - multiset{r},
         rings := s.rings[r := s.rings[r].(registered := s.rings[r].registered - 1)])
  }

  ghost predicate PrefillStep(s: Pool, s': Pool) {
    && s'.limit == s.limit && s'.out == s.out && s'.peak == s.peak && s'.running == s.running + s.limit
    && s.rings.Keys <= s'.rings.Keys && |s'.rings| == |s.rings| + s.limit
    && forall r :: r in s'.rings ==> s'.rings[r] == if r in s.rings then s.rings[r] else UringState(0, true)
  }

  ghost predicate Step(s: Pool, e: Event, s': Pool) {
    match e
    case Prefill => PrefillStep(s, s')
    case Attach(r) => AttachStep(s, r, s')
    case Detach(r) => DetachStep(s, r, s')
  }

  /** The counters agree with the outstanding attaches, and every ring is being polled. */
  ghost predicate Consistent(s: Pool) {
    && s.running == |s.rings|
    && (forall r :: r in s.out ==> r in s.rings)
    && (forall r :: r in s.rings ==> s.rings[r] == UringState(s.out[r], true))
  }

  lemma AttachConsistent(s: Pool, r: RingId, s': Pool)
    requires Consistent(s) && AttachStep(s, r, s')
    ensures Consistent(s')
  {
    assert s'.rings.Keys == s.rings.Keys + {r};
    forall k | k in s'.rings
      ensures s'.rings[k] == UringState(s'.out[k], true)
    {
      assert s'.out[k] == s.out[k] + (if k == r then 1 else 0);
    }
  }

  lemma DetachConsistent(s: Pool, r: RingId, s': Pool)
    requires Consistent(s) && DetachStep(s, r, s')
    ensures Consistent(s')
  {
    assert s'.rings.Keys == s.rings.Keys;
  }

  lemma PrefillConsistent(s: Pool, s': Pool)
    requires Consistent(s) && PrefillStep(s, s')
    ensures Consistent(s')
  {
  }

  lemma OneMoreRing(rings: Rings, r: RingId)
    requires r !in rings
    ensures |rings[r := UringState(0, true)]| == |rings| + 1
  {
    assert rings[r := UringState(0, true)].Keys == rings.Keys + {r};
  }

  class UringSet {
    const limit: nat
    var urings: Rings
    var running: nat
    var built: nat
    ghost var out: multiset<RingId>
    ghost var peak: nat

    ghost function Abs(): Pool
      reads this
    {
      Pool(limit, urings, running, out, peak)
    }

    /** Ring identities are handed out in order, so the next one is new. */
    ghost predicate Valid()
      reads this
    {
      Consistent(Abs()) && forall r :: r in urings ==> r < built
    }

    constructor (limit: nat)
      ensures Valid() && Abs() == Pool(limit, map[], 0, multiset{}, 0)
    {
      this.limit := limit;
      urings, running, built := map[], 0, 0;
      out, peak := multiset{}, 0;
    }

    method PollCompletions()
      requires Valid()
      modifies this
      ensures Valid() && PrefillStep(old(Abs()), Abs())
    {
      var i := 0;
      while i < limit
        invariant 0 <= i <= limit && Valid()
        invariant out == old(out) && peak == old(peak) && running == old(running) + i
        invariant old(urings).Keys <= urings.Keys && |urings| == |old(urings)| + i
        invariant forall r :: r in urings ==> urings[r] == if r in old(urings) then old(urings)[r] else UringState(0, true)
      {
        OneMoreRing(urings, built);
        urings := urings[built := UringState(0, true)];
        built := built + 1;
        running := running + 1;
        i := i + 1;
      }
    }

    method TotalSockets() returns (total: nat)
      ensures total == Sockets(urings)
    {
      total := 0;
      var todo := urings.Keys;
      assert Counts(urings).Keys == todo;
      while todo != {}
        invariant todo <= urings.Keys
        invariant total + SumOver(todo, Counts(urings)) == Sockets(urings)
        decreases todo
      {
        var r :| r in todo;
        SumOverRemove(todo, Counts(urings), r);
        total := total + urings[r].registered;
        todo := todo - {r};
      }
    }

    /** `min_by_key` over the map, in whatever order it is iterated. */
    method LeastRegistered() returns (best: RingId)
      requires urings != map[]
      ensures IsMinimal(urings, best)
    {
      best :| best in urings;
      var todo := urings.Keys - {best};
      while todo != {}
        invariant todo <= urings.Keys && best in urings
        invariant forall r :: r in urings && r !in todo ==> urings[best].registered <= urings[r].registered
        decreases todo
      {
        var r :| r in todo;
        if urings[r].registered < urings[best].registered {
          best := r;
        }
        todo := todo - {r};
      }
    }

    /** Among the rings with as few sockets as `first`, one with the least load. */
    method LeastLoaded(first: RingId, load: RingId -> nat) returns (best: RingId)
      requires first in urings
      ensures best in urings && urings[best].registered == urings[first].registered
      ensures forall r :: r in urings && urings[r].registered == urings[first].registered ==> load(best) <= load(r)
    {
      best := first;
      var todo := urings.Keys;
      while todo != {}
        invariant todo <= urings.Keys && best in urings
        invariant urings[best].registered == urings[first].registered
        invariant forall r :: r in urings && r !in todo && urings[r].registered == urings[first].registered
                      ==> load(best) <= load(r)
        decreases todo
      {
        var r :| r in todo;
        if urings[r].registered == urings[first].registered && load(r) < load(best) {
          best := r;
        }
        todo := todo - {r};
      }
    }

    /** A fresh ring with one socket. */
    method Build() returns (r: RingId)
      requires Valid() && !AttachPanics(Abs()) && ShouldBuild(Abs())
      modifies this
      ensures Valid() && AttachStep(old(Abs()), r, Abs())
    {
      r := built;
      urings := urings[r := UringState(1, true)];
      built := built + 1;
      running := running + 1;
      out := out + multiset{r};
      peak := if peak < |out| then |out| else peak;
      AttachConsistent(old(Abs()), r, Abs());
    }

    /** One more socket on a ring that is being polled. */
    method Join(r: RingId)
      requires Valid() && !AttachPanics(Abs()) && !ShouldBuild(Abs()) && IsMinimal(urings, r)
      modifies this
      ensures Valid() && AttachStep(old(Abs()), r, Abs())
    {
      assert urings[r].polling;
      urings := urings[r := urings[r].(registered := urings[r].registered + 1)];
      out := out + multiset{r};
      peak := if peak < |out| then |out| else peak;
      AttachConsistent(old(Abs()), r, Abs());
    }

    /** Returns no ring exactly when the source would panic; then nothing has changed. */
    method GetUring(load: RingId -> nat) returns (ring: Option<RingId>)
      requires Valid()
      modifies this
      ensures Valid()
      ensures ring.None? <==> AttachPanics(old(Abs()))
      ensures ring.None? ==> Abs() == old(Abs())
      ensures ring.Some? ==> AttachStep(old(Abs()), ring.value, Abs())
      ensures ring.Some? && old(running) == limit ==>
                forall r :: r in old(urings) && old(urings)[r].registered == old(urings)[ring.value].registered
                  ==> load(ring.value) <= load(r)
    {
      if running > limit {
        return None;
      }
      var initStage := running < limit;
      var r;
      if initStage {
        var total := TotalSockets();
        if running < total + 1 {
          r := Build();
          return Some(r);
        }
      }
      if urings == map[] {
        return None;
      }
      r := LeastRegistered();
      if !initStage {
        r := LeastLoaded(r, load);
      }
      Join(r);
      ring := Some(r);
    }

    /** `ring` must have been returned by `GetUring` and not given back since. */
    method DisattachUring(ring: RingId)
      requires Valid()
      requires ring in out
      modifies this
      ensures Valid() && DetachStep(old(Abs()), ring, Abs())
    {
      urings := urings[ring := urings[ring].(registered := urings[ring].registered - 1)];
      out := out - multiset{ring};
      DetachConsistent(old(Abs()), ring, Abs());
    }
  }

  // ---- Runs

  ghost predicate Run(states: seq<Pool>, events: seq<Event>) {
    && |states| == |events| + 1
    && states[0] == Pool(states[0].limit, map[], 0, multiset{}, 0)
    && forall i :: 0 <= i < |events| ==> StepAt(states, events, i)
  }

  ghost predicate StepAt(states: seq<Pool>, events: seq<Event>, i: int)
    requires 0 <= i < |events| < |states|
  {
    Step(states[i], events[i], states[i + 1])
  }

  /** If every count is at least `m`, the sum is at least `m` per ring. */
  lemma {:induction false} SumAtLeast(ks: set<RingId>, counts: map<RingId, nat>, m: nat)
    requires ks <= counts.Keys && forall r :: r in ks ==> counts[r] >= m
    ensures SumOver(ks, counts) >= |ks| * m
  {
    if ks != {} {
      var r :| r in ks;
      SumOverRemove(ks, counts, r);
      SumAtLeast(ks - {r}, counts, m);
      OneMore(|ks - {r}|, m);
    }
  }

  lemma OneMore(n: nat, m: nat)
    ensures (n + 1) * m == n * m + m
  {
  }

  lemma MinimalTimesRings(s: Pool, r: RingId)
    requires IsMinimal(s.rings, r)
    ensures Sockets(s.rings) >= |s.rings| * s.rings[r].registered
  {
    var counts := Counts(s.rings);
    assert counts.Keys == s.rings.Keys;
    SumAtLeast(s.rings.Keys, counts, s.rings[r].registered);
  }

  lemma {:induction false} SumIsOut(ks: set<RingId>, counts: map<RingId, nat>, out: multiset<RingId>)
    requires ks <= counts.Keys && (forall r :: r in out ==> r in ks) && (forall r :: r in ks ==> counts[r] == out[r])
    ensures SumOver(ks, counts) == |out|
  {
    if ks == {} {
      assert out == multiset{};
    } else {
      var r :| r in ks;
      SumOverRemove(ks, counts, r);
      var rest := out[r := 0];
      SumIsOut(ks - {r}, counts, rest);
      assert |out| == |rest| + out[r];
    }
  }

  /** The registered sockets are the outstanding attaches. */
  lemma SocketsAreOut(s: Pool)
    requires Consistent(s)
    ensures Sockets(s.rings) == |s.out|
  {
    assert Counts(s.rings).Keys == s.rings.Keys;
    SumIsOut(s.rings.Keys, Counts(s.rings), s.out);
  }

  /** Ceiling of `n / d`. */
  function CeilDiv(n: nat, d: nat): nat
    requires d > 0
  {
    (n + d - 1) / d
  }

  /** The least number of rounds of `d` that hold `n`. */
  lemma CeilDivExact(n: nat, d: nat)
    requires d > 0
    ensures d * CeilDiv(n, d) >= n && (n > 0 ==> d * (CeilDiv(n, d) - 1) < n)
    ensures n == 0 ==> CeilDiv(n, d) == 0
  {
  }

  lemma TimesMonotone(d: nat, x: nat, y: nat)
    requires x <= y
    ensures d * x <= d * y
  {
  }

  lemma CeilDivLower(n: nat, d: nat, m: nat)
    requires d > 0 && n >= d * m + 1
    ensures CeilDiv(n, d) >= m + 1
  {
    if CeilDiv(n, d) <= m {
      TimesMonotone(d, CeilDiv(n, d), m);
    }
  }

  lemma CeilDivMonotone(n: nat, n': nat, d: nat)
    requires d > 0 && n <= n'
    ensures CeilDiv(n, d) <= CeilDiv(n', d)
  {
    if CeilDiv(n', d) + 1 <= CeilDiv(n, d) {
      TimesMonotone(d, CeilDiv(n', d) + 1, CeilDiv(n, d));
    }
  }

  /** No ring is loaded beyond its fair share of the peak; below the limit, beyond one. */
  ghost predicate Balanced(s: Pool) {
    && s.limit > 0 && s.running <= s.limit && |s.out| <= s.peak
    && forall r :: r in s.rings ==>
         && s.rings[r].registered <= CeilDiv(s.peak, s.limit)
         && (s.running < s.limit ==> s.rings[r].registered <= 1)
  }

  /**
   An attach takes a ring that had fewer sockets than the bound allows: an idle one,
   by pigeonhole, while the pool is below its limit, and otherwise one no busier than
   the average.
   */
  lemma AttachBalanced(s: Pool, r: RingId, s': Pool)
    requires Consistent(s) && Balanced(s) && AttachStep(s, r, s')
    ensures Balanced(s')
  {
    SocketsAreOut(s);
    assert |s'.out| == |s.out| + 1;
    CeilDivMonotone(s.peak, s'.peak, s.limit);
    var before := if ShouldBuild(s) then 0 else s.rings[r].registered;
    if !ShouldBuild(s) {
      MinimalTimesRings(s, r);
      if s.running < s.limit && before >= 1 {
        TimesMonotone(|s.rings|, 1, before);
      }
    }
    assert s.limit * before <= |s.out|;
    CeilDivLower(s'.peak, s.limit, before);
  }

  lemma DetachBalanced(s: Pool, r: RingId, s': Pool)
    requires Balanced(s) && DetachStep(s, r, s')
    ensures Balanced(s')
  {
  }

  lemma PrefillBalanced(s: Pool, s': Pool)
    requires Consistent(s) && Balanced(s) && PrefillStep(s, s') && s.running == 0
    ensures Balanced(s')
  {
  }

  /** The pool was prefilled before some earlier step although rings were already running. */
  ghost predicate Refilled(states: seq<Pool>, events: seq<Event>, i: nat)
    requires |states| == |events| + 1
  {
    exists j :: 0 <= j < i && j < |events| && events[j] == Prefill && states[j].running > 0
  }

  lemma {:induction false} RunInv(states: seq<Pool>, events: seq<Event>, i: nat)
    requires Run(states, events) && i < |states|
    ensures Consistent(states[i]) && states[i].limit == states[0].limit
  {
    if i > 0 {
      RunInv(states, events, i - 1);
      var s, e, s' := states[i - 1], events[i - 1], states[i];
      assert StepAt(states, events, i - 1);
      match e
      case Attach(r) => AttachConsistent(s, r, s');
      case Detach(r) => DetachConsistent(s, r, s');
      case Prefill => PrefillConsistent(s, s');
    }
  }

  lemma {:induction false} NoLimitNoRings(states: seq<Pool>, events: seq<Event>, i: nat)
    requires Run(states, events) && i < |states| && states[0].limit == 0
    ensures states[i].rings == map[] && states[i].running == 0
  {
    if i > 0 {
      NoLimitNoRings(states, events, i - 1);
      RunInv(states, events, i - 1);
      assert StepAt(states, events, i - 1);
    }
  }

  lemma StepBalanced(s: Pool, e: Event, s': Pool)
    requires Consistent(s) && Balanced(s) && Step(s, e, s') && (e.Prefill? ==> s.running == 0)
    ensures Balanced(s')
  {
    match e
    case Attach(r) => AttachBalanced(s, r, s');
    case Detach(r) => DetachBalanced(s, r, s');
    case Prefill => PrefillBalanced(s, s');
  }

  lemma RefilledStep(states: seq<Pool>, events: seq<Event>, i: nat)
    requires |states| == |events| + 1 && 0 < i < |states|
    ensures Refilled(states, events, i) <==>
      Refilled(states, events, i - 1) || (events[i - 1].Prefill? && states[i - 1].running > 0)
  {
  }

  /** Balanced until the pool is refilled, and over its limit from then on. */
  lemma {:induction false} RunBalanced(states: seq<Pool>, events: seq<Event>, i: nat)
    requires Run(states, events) && i < |states| && states[0].limit > 0
    ensures if Refilled(states, events, i) then states[i].running > states[i].limit else Balanced(states[i])
  {
    if i > 0 {
      RunBalanced(states, events, i - 1);
      RunInv(states, events, i - 1);
      assert StepAt(states, events, i - 1);
      RefilledStep(states, events, i);
      if !Refilled(states, events, i) {
        StepBalanced(states[i - 1], events[i - 1], states[i]);
      }
    }
  }

  /**
   Over any run of matched attaches and detaches, with any tie break, no ring's
   registered count exceeds the peak number of live sockets divided by the limit,
   rounded up; while below the limit every ring holds at most one socket. The counts
   are exactly the outstanding attaches and the running count is the pool's size.
   */
  lemma RingLoadBound(states: seq<Pool>, events: seq<Event>, i: nat, r: RingId)
    requires Run(states, events) && i < |states| && states[0].limit > 0
    requires !Refilled(states, events, i) && r in states[i].rings
    ensures var s := states[i];
      && s.running == |s.rings| <= s.limit
      && s.rings[r].registered == s.out[r] <= CeilDiv(s.peak, s.limit)
      && (s.running < s.limit ==> s.rings[r].registered <= 1)
  {
    RunInv(states, events, i);
    RunBalanced(states, events, i);
  }

  /**
   An attach fails exactly when the limit is zero or the pool was once prefilled after
   rings had been running; giving back a ring never fails.
   */
  lemma PanicExactly(states: seq<Pool>, events: seq<Event>, i: nat)
    requires Run(states, events) && i < |states|
    ensures AttachPanics(states[i]) <==> states[0].limit == 0 || Refilled(states, events, i)
    ensures forall r :: r in states[i].out ==> r in states[i].rings && states[i].rings[r].registered > 0
  {
    RunInv(states, events, i);
    if states[0].limit == 0 {
      NoLimitNoRings(states, events, i);
    } else {
      RunBalanced(states, events, i);
    }
    assert states[i].rings == map[] ==> |states[i].rings| == 0;
  }

  /** Prefilling twice leaves more rings than the limit: the next attach fails its assertion. */
  lemma PrefilledTwicePanics() returns (states: seq<Pool>, events: seq<Event>)
    ensures Run(states, events) && states[0].limit > 0 && AttachPanics(states[|events|])
  {
    var idle := UringState(0, true);
    events := [Prefill, Prefill];
    states := [Pool(1, map[], 0, multiset{}, 0),
               Pool(1, map[0 := idle], 1, multiset{}, 0),
               Pool(1, map[0 := idle, 1 := idle], 2, multiset{}, 0)];
    assert PrefillStep(states[0], states[1]) && PrefillStep(states[1], states[2]);
    assert StepAt(states, events, 0) && StepAt(states, events, 1);
  }

  // ---- What the histories are

  /** How often this event happened. */
  function Times(events: seq<Event>, e: Event): nat {
    if events == [] then 0 else Times(events[..|events| - 1], e) + (if events[|events| - 1] == e then 1 else 0)
  }

  lemma TimesStep(events: seq<Event>, i: nat, e: Event)
    requires i < |events|
    ensures Times(events[..i + 1], e) == Times(events[..i], e) + (if events[i] == e then 1 else 0)
  {
    assert events[..i + 1][..i] == events[..i];
  }

  /** A ring holds as many sockets as were attached to it and not detached again. */
  lemma {:induction false} CountsAreHistory(states: seq<Pool>, events: seq<Event>, i: nat, r: RingId)
    requires Run(states, events) && i < |states|
    ensures states[i].out[r] == Times(events[..i], Attach(r)) - Times(events[..i], Detach(r))
    ensures r in states[i].rings ==>
      states[i].rings[r].registered == Times(events[..i], Attach(r)) - Times(events[..i], Detach(r))
  {
    RunInv(states, events, i);
    if i > 0 {
      CountsAreHistory(states, events, i - 1, r);
      assert StepAt(states, events, i - 1);
      TimesStep(events, i - 1, Attach(r));
      TimesStep(events, i - 1, Detach(r));
    }
  }

  /** The peak is the greatest number of sockets attached at one time. */
  lemma {:induction false} PeakIsMax(states: seq<Pool>, events: seq<Event>, i: nat) returns (top: nat)
    requires Run(states, events) && i < |states|
    ensures top <= i && |states[top].out| == states[i].peak
    ensures forall j :: 0 <= j <= i ==> |states[j].out| <= states[i].peak
  {
    if i == 0 {
      top := 0;
    } else {
      top := PeakIsMax(states, events, i - 1);
      assert StepAt(states, events, i - 1);
      if states[i].peak != states[i - 1].peak {
        top := i;
      }
    }
  }

  /** Rings are built only for need: without a prefill there are never more than the peak of sockets. */
  lemma {:induction false} NoIdleBuild(states: seq<Pool>, events: seq<Event>, i: nat)
    requires Run(states, events) && i < |states| && forall j :: 0 <= j < i ==> events[j] != Prefill
    ensures |states[i].rings| <= states[i].peak
  {
    RunInv(states, events, i);
    if i > 0 {
      NoIdleBuild(states, events, i - 1);
      RunInv(states, events, i - 1);
      assert StepAt(states, events, i - 1);
      SocketsAreOut(states[i - 1]);
    }
  }
}
