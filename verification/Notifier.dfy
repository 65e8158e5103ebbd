/**
 The event notifier (src/libos/src/events/notifier.rs): a locked list of
 subscribers, each a weak reference to an observer with an optional filter.
 Events are sets of flags and a filter lets through what it intersects
 (src/libos/src/fs/events.rs:88-92).
 */
module Notifier {
  import opened Util

  datatype Subscriber<O, E> = Subscriber(observer: O, filter: Option<set<E>>)

  predicate Passes<O, E(==)>(s: Subscriber<O, E>, event: set<E>) {
    s.filter.None? || s.filter.value * event != {}
  }

  /** The observers called by a broadcast, in order; it stops at the first freed one. */
  function Delivered<O(==), E(==)>(subs: seq<Subscriber<O, E>>, event: set<E>, freed: set<O>): seq<O> {
    if subs == [] then []
    else if !Passes(subs[0], event) then Delivered(subs[1..], event, freed)
    else if subs[0].observer in freed then []
    else [subs[0].observer] + Delivered(subs[1..], event, freed)
  }

  /** The live observers a broadcast should reach, in order. */
  function Interested<O(==), E(==)>(subs: seq<Subscriber<O, E>>, event: set<E>, freed: set<O>): seq<O> {
    if subs == [] then []
    else if Passes(subs[0], event) && subs[0].observer !in freed
    then [subs[0].observer] + Interested(subs[1..], event, freed)
    else Interested(subs[1..], event, freed)
  }

  /** The list without the entries of `o`, duplicates included; the order is kept. */
  function Without<O(==), E>(subs: seq<Subscriber<O, E>>, o: O): seq<Subscriber<O, E>> {
    if subs == [] then []
    else if subs[0].observer == o then Without(subs[1..], o)
    else [subs[0]] + Without(subs[1..], o)
  }

  lemma WithoutFrom<O, E>(subs: seq<Subscriber<O, E>>, i: nat, o: O)
    requires i < |subs|
    ensures Without(subs[i..], o) == (if subs[i].observer == o then [] else [subs[i]]) + Without(subs[i + 1..], o)
  {
    assert subs[i..][1..] == subs[i + 1..];
  }

  class Notifier<O(==), E(==)> {
    var subscribers: seq<Subscriber<O, E>>

    constructor ()
      ensures subscribers == []
    {
      subscribers := [];
    }

    method Register(observer: O, filter: Option<set<E>>)
      modifies this
      ensures subscribers == old(subscribers) + [Subscriber(observer, filter)]
    {
      subscribers := subscribers + [Subscriber(observer, filter)];
    }

    method Unregister(observer: O)
      modifies this
      ensures subscribers == Without(old(subscribers), observer)
    {
      var kept: seq<Subscriber<O, E>> := [];
      var i := 0;
      while i < |subscribers|
        invariant 0 <= i <= |subscribers| && subscribers == old(subscribers)
        invariant kept + Without(subscribers[i..], observer) == Without(subscribers, observer)
      {
        WithoutFrom(subscribers, i, observer);
        if subscribers[i].observer != observer {
          kept := kept + [subscribers[i]];
        }
        i := i + 1;
      }
      subscribers := kept;
    }

    /** Returns the observers whose `on_event` was called, in call order. */
    method Broadcast(event: set<E>, freed: set<O>) returns (called: seq<O>)
      ensures called == Delivered(subscribers, event, freed)
    {
      called := [];
      var i := 0;
      while i < |subscribers|
        invariant 0 <= i <= |subscribers|
        invariant called + Delivered(subscribers[i..], event, freed) == Delivered(subscribers, event, freed)
      {
        if Passes(subscribers[i], event) {
          if subscribers[i].observer in freed {
            return;
          }
          called := called + [subscribers[i].observer];
        }
        i := i + 1;
      }
    }
  }

  /** `retain` removes exactly the entries of `o`. */
  lemma {:induction false} WithoutExact<O, E>(subs: seq<Subscriber<O, E>>, o: O)
    ensures forall s :: s in Without(subs, o) <==> s in subs && s.observer != o
  {
    if subs != [] {
      WithoutExact(subs[1..], o);
      assert subs == [subs[0]] + subs[1..];
    }
  }

  /** An interested freed observer sits before a live interested one. */
  ghost predicate CutOff<O(!new), E>(subs: seq<Subscriber<O, E>>, event: set<E>, freed: set<O>) {
    exists i, j :: 0 <= i < j < |subs|
      && Passes(subs[i], event) && subs[i].observer in freed
      && Passes(subs[j], event) && subs[j].observer !in freed
  }

  lemma {:induction false} InterestedNonempty<O, E>(subs: seq<Subscriber<O, E>>, event: set<E>, freed: set<O>)
    ensures Interested(subs, event, freed) != [] <==>
            exists j :: 0 <= j < |subs| && Passes(subs[j], event) && subs[j].observer !in freed
  {
    if subs != [] {
      InterestedNonempty(subs[1..], event, freed);
      if Interested(subs[1..], event, freed) != [] {
        var j :| 0 <= j < |subs[1..]| && Passes(subs[1..][j], event) && subs[1..][j].observer !in freed;
        assert subs[j + 1] == subs[1..][j];
      }
      if j :| 0 < j < |subs| && Passes(subs[j], event) && subs[j].observer !in freed {
        assert subs[1..][j - 1] == subs[j];
      }
    }
  }

  lemma CutOffTail<O(!new), E>(subs: seq<Subscriber<O, E>>, event: set<E>, freed: set<O>)
    requires subs != []
    requires !(Passes(subs[0], event) && subs[0].observer in freed)
    ensures CutOff(subs, event, freed) <==> CutOff(subs[1..], event, freed)
  {
    var tail := subs[1..];
    if CutOff(subs, event, freed) {
      var i, j :| 0 <= i < j < |subs|
        && Passes(subs[i], event) && subs[i].observer in freed
        && Passes(subs[j], event) && subs[j].observer !in freed;
      assert tail[i - 1] == subs[i] && tail[j - 1] == subs[j];
    }
    if CutOff(tail, event, freed) {
      var i, j :| 0 <= i < j < |tail|
        && Passes(tail[i], event) && tail[i].observer in freed
        && Passes(tail[j], event) && tail[j].observer !in freed;
      assert subs[i + 1] == tail[i] && subs[j + 1] == tail[j];
    }
  }

  /**
   The early return is harmless exactly when no interested freed observer was
   registered ahead of a live interested one.
   */
  lemma {:induction false} BroadcastComplete<O(!new), E>(subs: seq<Subscriber<O, E>>, event: set<E>, freed: set<O>)
    ensures Delivered(subs, event, freed) == Interested(subs, event, freed) <==> !CutOff(subs, event, freed)
  {
    if subs != [] {
      BroadcastComplete(subs[1..], event, freed);
      if Passes(subs[0], event) && subs[0].observer in freed {
        InterestedNonempty(subs[1..], event, freed);
        if Interested(subs[1..], event, freed) != [] {
          var j :| 0 <= j < |subs[1..]| && Passes(subs[1..][j], event) && subs[1..][j].observer !in freed;
          assert subs[j + 1] == subs[1..][j];
          assert CutOff(subs, event, freed);
        }
      } else {
        CutOffTail(subs, event, freed);
        var d, w := Delivered(subs[1..], event, freed), Interested(subs[1..], event, freed);
        assert ([subs[0].observer] + d)[1..] == d && ([subs[0].observer] + w)[1..] == w;
      }
    }
  }

  /** A freed observer registered first keeps a live one from hearing anything. */
  lemma BroadcastMisses<O(!new), E>(gone: O, live: O, event: set<E>)
    requires gone != live
    ensures var subs := [Subscriber(gone, None), Subscriber(live, None)];
      && CutOff(subs, event, {gone})
      && Delivered(subs, event, {gone}) == [] && Interested(subs, event, {gone}) == [live]
  {
    var subs := [Subscriber(gone, None), Subscriber(live, None)];
    assert Passes(subs[0], event) && Passes(subs[1], event);
    assert subs[1..] == [subs[1]];
    assert Interested([subs[1]], event, {gone}) == [live] + Interested([], event, {gone});
  }

  /** What outside code may do to an endpoint's notifier. */
  datatype Change<O, E> = Add(observer: O, filter: Option<set<E>>) | Remove(observer: O)

  function Apply<O(==), E>(subs: seq<Subscriber<O, E>>, c: Change<O, E>): seq<Subscriber<O, E>> {
    match c
    case Add(o, f) => subs + [Subscriber(o, f)]
    case Remove(o) => Without(subs, o)
  }

  function ApplyAll<O(==), E>(subs: seq<Subscriber<O, E>>, cs: seq<Change<O, E>>): seq<Subscriber<O, E>> {
    if cs == [] then subs else Apply(ApplyAll(subs, cs[..|cs| - 1]), cs[|cs| - 1])
  }

  /** The endpoint's own observer is registered first and without a filter. */
  predicate LedBy<O(==), E(==)>(subs: seq<Subscriber<O, E>>, own: O) {
    |subs| > 0 && subs[0] == Subscriber(own, None)
  }

  lemma LedByApply<O, E>(subs: seq<Subscriber<O, E>>, own: O, c: Change<O, E>)
    requires LedBy(subs, own) && c.observer != own
    ensures LedBy(Apply(subs, c), own)
  {
  }

  /**
   Through every history of other observers coming and going, the endpoint's own
   observer stays first, so every broadcast of any event calls it, whichever other
   observers have been freed.
   */
  lemma {:induction false} OwnObserverFirst<O, E>(
    own: O, history: seq<Change<O, E>>, event: set<E>, freed: set<O>)
    requires forall c :: c in history ==> c.observer != own
    requires own !in freed
    ensures var subs := ApplyAll([Subscriber(own, None)], history);
      && LedBy(subs, own)
      && Delivered(subs, event, freed) != []
      && Delivered(subs, event, freed)[0] == own
  {
    if history != [] {
      OwnObserverFirst(own, history[..|history| - 1], event, freed);
      LedByApply(ApplyAll([Subscriber(own, None)], history[..|history| - 1]), own, history[|history| - 1]);
    }
  }

  /** The subscriber wants the event: it has no filter, or one event passes it. */
  ghost predicate Wants<O, E(!new)>(s: Subscriber<O, E>, event: set<E>) {
    s.filter.Some? ==> exists e :: e in event && e in s.filter.value
  }

  lemma WantsExact<O, E(!new)>(s: Subscriber<O, E>, event: set<E>)
    ensures Passes(s, event) <==> Wants(s, event)
  {
    if s.filter.Some? {
      if e :| e in event && e in s.filter.value {
        assert e in s.filter.value * event;
      }
      if s.filter.value * event != {} {
        var e :| e in s.filter.value * event;
      }
    }
  }

  /** Entry `j` is reached and called: it wants the event, and so far nobody who wants it is freed. */
  ghost predicate CalledAt<O, E(!new)>(subs: seq<Subscriber<O, E>>, event: set<E>, freed: set<O>, j: nat) {
    && j < |subs| && Wants(subs[j], event)
    && forall i :: 0 <= i <= j && Wants(subs[i], event) ==> subs[i].observer !in freed
  }

  lemma CalledAtTail<O, E(!new)>(subs: seq<Subscriber<O, E>>, event: set<E>, freed: set<O>, j: nat)
    requires 0 < j < |subs|
    ensures CalledAt(subs, event, freed, j) <==>
      CalledAt(subs[1..], event, freed, j - 1) && (Wants(subs[0], event) ==> subs[0].observer !in freed)
  {
    var tail := subs[1..];
    assert forall i :: 0 <= i < |tail| ==> tail[i] == subs[i + 1];
    if CalledAt(subs, event, freed, j) {
      assert forall i :: 0 <= i <= j - 1 && Wants(tail[i], event) ==> subs[i + 1].observer !in freed;
    }
    if CalledAt(tail, event, freed, j - 1) {
      assert forall i :: 1 <= i <= j && Wants(subs[i], event) ==> tail[i - 1].observer !in freed;
    }
  }

  /** A broadcast calls exactly the observers of the entries it reaches that want the event. */
  lemma {:induction false} DeliveredExact<O(!new), E(!new)>(
    subs: seq<Subscriber<O, E>>, event: set<E>, freed: set<O>, o: O)
    ensures o in Delivered(subs, event, freed) <==>
      exists j: nat :: CalledAt(subs, event, freed, j) && subs[j].observer == o
  {
    if subs != [] {
      WantsExact(subs[0], event);
      DeliveredExact(subs[1..], event, freed, o);
      if j: nat :| CalledAt(subs[1..], event, freed, j) && subs[1..][j].observer == o {
        CalledAtTail(subs, event, freed, j + 1);
        assert !(Wants(subs[0], event) && subs[0].observer in freed) ==> CalledAt(subs, event, freed, j + 1);
      }
      if j: nat :| CalledAt(subs, event, freed, j) && subs[j].observer == o {
        if j > 0 {
          CalledAtTail(subs, event, freed, j);
        }
      }
      if Wants(subs[0], event) && subs[0].observer !in freed {
        assert CalledAt(subs, event, freed, 0);
      }
    }
  }
}
