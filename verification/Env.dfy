/**
 The environment of a new process: defaults from the configuration, replaced by the
 user's trusted variables (src/libos/src/config.rs:607-633) and then by the host's, as
 far as they are listed as untrusted (src/libos/src/entry.rs:383-432).

 An entry is `KEY=value`, or a bare `KEY`; entries are text, and a missing list (null)
 is None.
 */
module Env {
  import opened Util

  type Entry = string

  /** The text before the first `=`. */
  function Key(e: Entry): string {
    if e == "" || e[0] == '=' then "" else [e[0]] + Key(e[1..])
  }

  function Keys(es: seq<Entry>): set<string> {
    set e | e in es :: Key(e)
  }

  /** The entries of one key, in order. */
  function Bindings(es: seq<Entry>, k: string): seq<Entry> {
    if es == [] then [] else (if Key(es[0]) == k then [es[0]] else []) + Bindings(es[1..], k)
  }

  /** The entries whose key is in `ks`, in order. */
  function Only(es: seq<Entry>, ks: set<string>): seq<Entry> {
    if es == [] then [] else (if Key(es[0]) in ks then [es[0]] else []) + Only(es[1..], ks)
  }

  function Except(es: seq<Entry>, ks: set<string>): seq<Entry> {
    if es == [] then [] else (if Key(es[0]) in ks then [] else [es[0]]) + Except(es[1..], ks)
  }

  /** Without the last entry of each key in `ks`. */
  function DropLasts(es: seq<Entry>, ks: set<string>): seq<Entry> {
    if es == [] then []
    else (if Key(es[0]) in ks && Key(es[0]) !in Keys(es[1..]) then [] else [es[0]]) + DropLasts(es[1..], ks)
  }

  function ButLast<T>(s: seq<T>): seq<T> {
    if s == [] then [] else s[..|s| - 1]
  }

  /** The trusted environment: user variables first, then the defaults they do not name. */
  function Trusted(user: Option<seq<Entry>>, default: seq<Entry>): seq<Entry> {
    if user.None? then default else user.value + Except(default, Keys(user.value))
  }

  /** What the host is allowed to supply. */
  function Listed(host: Option<seq<Entry>>, untrusted: set<string>): seq<Entry> {
    if host.None? then [] else Only(host.value, untrusted)
  }

  /** The listed host entries, after the trusted ones less the last of each key they name. */
  function Merge(trusted: seq<Entry>, host: Option<seq<Entry>>, untrusted: set<string>): seq<Entry> {
    DropLasts(trusted, Keys(Listed(host, untrusted))) + Listed(host, untrusted)
  }

  // ---- The two merges

  class TrustedEnvs {
    var envs: seq<Entry>

    constructor (default: seq<Entry>)
      ensures envs == Trusted(None, default)
    {
      envs := default;
    }

    method Combine(user: seq<Entry>, default: seq<Entry>)
      modifies this
      ensures envs == Trusted(Some(user), default)
    {
      var userKeys := [];
      var i := 0;
      while i < |user|
        invariant 0 <= i <= |user| && |userKeys| == i
        invariant forall j :: 0 <= j < i ==> userKeys[j] == Key(user[j])
      {
        userKeys := userKeys + [Key(user[i])];
        i := i + 1;
      }
      KeysAsList(user, userKeys);
      envs := user;
      i := 0;
      ghost var added, rest := [], Except(default, Keys(user));
      assert default[0..] == default;
      while i < |default|
        invariant 0 <= i <= |default| && envs == user + added
        invariant rest == Except(default[i..], Keys(user)) && added + rest == Except(default, Keys(user))
      {
        ExceptFrom(default, i, Keys(user));
        rest := Except(default[i + 1..], Keys(user));
        if Key(default[i]) !in userKeys {
          Associate(user, added, [default[i]]);
          Associate(added, [default[i]], rest);
          envs := envs + [default[i]];
          added := added + [default[i]];
        }
        i := i + 1;
      }
    }
  }

  lemma KeysAsList(es: seq<Entry>, ks: seq<string>)
    requires |es| == |ks| && forall j :: 0 <= j < |es| ==> ks[j] == Key(es[j])
    ensures forall k :: k in ks <==> k in Keys(es)
  {
    forall k | k in Keys(es)
      ensures k in ks
    {
      var e :| e in es && Key(e) == k;
      var j :| 0 <= j < |es| && es[j] == e;
      assert ks[j] == k;
    }
    forall k | k in ks
      ensures k in Keys(es)
    {
      var j :| 0 <= j < |ks| && ks[j] == k;
      assert es[j] in es;
    }
  }

  /** `helper` maps every key to the index of its last entry. */
  ghost predicate LastIndex(es: seq<Entry>, helper: map<string, nat>) {
    && helper.Keys == Keys(es)
    && forall k :: k in helper ==>
         helper[k] < |es| && Key(es[helper[k]]) == k && k !in Keys(es[helper[k] + 1..])
  }

  method IndexTrusted(trusted: seq<Entry>) returns (helper: map<string, nat>)
    ensures LastIndex(trusted, helper)
  {
    helper := map[];
    var i := 0;
    while i < |trusted|
      invariant 0 <= i <= |trusted| && LastIndex(trusted[..i], helper)
    {
      LastIndexStep(trusted, i, helper);
      helper := helper[Key(trusted[i]) := i];
      i := i + 1;
    }
    assert trusted[..i] == trusted;
  }

  lemma LastIndexStep(es: seq<Entry>, i: nat, helper: map<string, nat>)
    requires i < |es| && LastIndex(es[..i], helper)
    ensures LastIndex(es[..i + 1], helper[Key(es[i]) := i])
  {
    var front, now, helper' := es[..i], es[..i + 1], helper[Key(es[i]) := i];
    assert now == front + [es[i]];
    assert forall e :: e in now <==> e in front || e == es[i];
    forall k | k in helper'
      ensures helper'[k] < |now| && Key(now[helper'[k]]) == k && k !in Keys(now[helper'[k] + 1..])
    {
      if k == Key(es[i]) {
        assert now[i + 1..] == [];
      } else {
        assert now[helper[k] + 1..] == front[helper[k] + 1..] + [es[i]];
      }
    }
  }

  /** `removed` are the indices of the last entries of the overridden keys. */
  ghost predicate Overrides(helper: map<string, nat>, over: set<string>, removed: seq<nat>) {
    forall j :: j in removed <==> exists k :: k in helper && k in over && helper[k] == j
  }

  lemma OnlyFrom(es: seq<Entry>, i: nat, ks: set<string>)
    requires i < |es|
    ensures Only(es[i..], ks) == (if Key(es[i]) in ks then [es[i]] else []) + Only(es[i + 1..], ks)
  {
    assert es[i..][1..] == es[i + 1..];
  }

  lemma ExceptFrom(es: seq<Entry>, i: nat, ks: set<string>)
    requires i < |es|
    ensures Except(es[i..], ks) == (if Key(es[i]) in ks then [] else [es[i]]) + Except(es[i + 1..], ks)
  {
    assert es[i..][1..] == es[i + 1..];
  }

  lemma KeysSnoc(es: seq<Entry>, e: Entry)
    ensures Keys(es + [e]) == Keys(es) + {Key(e)}
  {
    assert forall x :: x in es + [e] <==> x in es || x == e;
  }

  lemma OverridesMore(helper: map<string, nat>, over: set<string>, removed: seq<nat>, k: string)
    requires Overrides(helper, over, removed)
    ensures Overrides(helper, over + {k}, if k in helper then removed + [helper[k]] else removed)
  {
  }

  /** The listed host entries, and the indices of the trusted entries they override. */
  method FilterHost(host: seq<Entry>, untrusted: set<string>, helper: map<string, nat>)
    returns (checked: seq<Entry>, removed: seq<nat>)
    ensures checked == Only(host, untrusted)
    ensures Overrides(helper, Keys(checked), removed)
  {
    checked, removed := [], [];
    var i := 0;
    ghost var rest := Only(host, untrusted);
    assert host[0..] == host;
    while i < |host|
      invariant 0 <= i <= |host|
      invariant rest == Only(host[i..], untrusted) && checked + rest == Only(host, untrusted)
      invariant Overrides(helper, Keys(checked), removed)
    {
      OnlyFrom(host, i, untrusted);
      rest := Only(host[i + 1..], untrusted);
      var k := Key(host[i]);
      if k in untrusted {
        KeysSnoc(checked, host[i]);
        OverridesMore(helper, Keys(checked), removed, k);
        checked := checked + [host[i]];
        if k in helper {
          removed := removed + [helper[k]];
        }
      }
      i := i + 1;
    }
  }

  method MergeEnv(trusted: seq<Entry>, host: Option<seq<Entry>>, untrusted: set<string>)
    returns (merged: seq<Entry>)
    ensures merged == Merge(trusted, host, untrusted)
  {
    var helper := IndexTrusted(trusted);
    var checked, removed := [], [];
    if host.Some? {
      checked, removed := FilterHost(host.value, untrusted, helper);
    }
    AllRemovedExactly(trusted, helper, Keys(checked), removed);
    var kept := KeepTrusted(trusted, Keys(checked), removed);
    merged := kept + checked;
  }

  method KeepTrusted(trusted: seq<Entry>, ghost over: set<string>, removed: seq<nat>) returns (kept: seq<Entry>)
    requires forall i: nat :: i < |trusted| ==> (i in removed <==> Dropped(trusted, i, over))
    ensures kept == DropLasts(trusted, over)
  {
    kept := [];
    var i := 0;
    ghost var rest := DropLasts(trusted, over);
    assert trusted[0..] == trusted;
    while i < |trusted|
      invariant 0 <= i <= |trusted|
      invariant rest == DropLasts(trusted[i..], over) && kept + rest == DropLasts(trusted, over)
    {
      DropLastsFrom(trusted, i, over);
      rest := DropLasts(trusted[i + 1..], over);
      if i !in removed {
        kept := kept + [trusted[i]];
      }
      i := i + 1;
    }
  }

  /** Entry `i` is the last of its key, and its key is overridden. */
  ghost predicate Dropped(es: seq<Entry>, i: nat, ks: set<string>)
    requires i < |es|
  {
    Key(es[i]) in ks && Key(es[i]) !in Keys(es[i + 1..])
  }

  lemma DropLastsFrom(es: seq<Entry>, i: nat, ks: set<string>)
    requires i < |es|
    ensures DropLasts(es[i..], ks) == (if Dropped(es, i, ks) then [] else [es[i]]) + DropLasts(es[i + 1..], ks)
  {
    assert es[i..][1..] == es[i + 1..];
  }

  lemma RemovedExactly(es: seq<Entry>, helper: map<string, nat>, over: set<string>, removed: seq<nat>, i: nat)
    requires LastIndex(es, helper) && i < |es|
    requires Overrides(helper, over, removed)
    ensures i in removed <==> Dropped(es, i, over)
  {
    var k := Key(es[i]);
    assert es[i] in es;
    var l := helper[k];
    if i < l {
      assert es[l] == es[i + 1..][l - i - 1] && es[l] in es[i + 1..];
    }
  }

  lemma AllRemovedExactly(es: seq<Entry>, helper: map<string, nat>, over: set<string>, removed: seq<nat>)
    requires LastIndex(es, helper) && Overrides(helper, over, removed)
    ensures forall i: nat :: i < |es| ==> (i in removed <==> Dropped(es, i, over))
  {
    forall i: nat | i < |es|
      ensures i in removed <==> Dropped(es, i, over)
    {
      RemovedExactly(es, helper, over, removed, i);
    }
  }

  // ---- What the merged environment binds

  lemma TailOfConcat(a: seq<Entry>, b: seq<Entry>)
    requires a != []
    ensures (a + b)[0] == a[0] && (a + b)[1..] == a[1..] + b
  {
  }

  lemma Associate(a: seq<Entry>, b: seq<Entry>, c: seq<Entry>)
    ensures (a + b) + c == a + (b + c)
  {
  }

  lemma {:induction false} BindingsConcat(a: seq<Entry>, b: seq<Entry>, k: string)
    ensures Bindings(a + b, k) == Bindings(a, k) + Bindings(b, k)
  {
    if a == [] {
      assert a + b == b;
    } else {
      BindingsConcat(a[1..], b, k);
      TailOfConcat(a, b);
      Associate(if Key(a[0]) == k then [a[0]] else [], Bindings(a[1..], k), Bindings(b, k));
    }
  }

  lemma {:induction false} BindingsPresent(es: seq<Entry>, k: string)
    ensures Bindings(es, k) != [] <==> k in Keys(es)
  {
    if es != [] {
      BindingsPresent(es[1..], k);
      assert es == [es[0]] + es[1..];
      assert Keys(es) == {Key(es[0])} + Keys(es[1..]);
    }
  }

  lemma {:induction false} BindingsOnly(es: seq<Entry>, ks: set<string>, k: string)
    ensures Bindings(Only(es, ks), k) == if k in ks then Bindings(es, k) else []
  {
    if es != [] {
      BindingsOnly(es[1..], ks, k);
      BindingsConcat(if Key(es[0]) in ks then [es[0]] else [], Only(es[1..], ks), k);
    }
  }

  lemma {:induction false} BindingsExcept(es: seq<Entry>, ks: set<string>, k: string)
    ensures Bindings(Except(es, ks), k) == if k in ks then [] else Bindings(es, k)
  {
    if es != [] {
      BindingsExcept(es[1..], ks, k);
      BindingsConcat(if Key(es[0]) in ks then [] else [es[0]], Except(es[1..], ks), k);
    }
  }

  /** Only the last entry of an overridden key is dropped. */
  lemma {:induction false} BindingsDropLasts(es: seq<Entry>, ks: set<string>, k: string)
    ensures Bindings(DropLasts(es, ks), k) == if k in ks then ButLast(Bindings(es, k)) else Bindings(es, k)
  {
    if es != [] {
      BindingsDropLasts(es[1..], ks, k);
      BindingsPresent(es[1..], Key(es[0]));
      var head := if Key(es[0]) in ks && Key(es[0]) !in Keys(es[1..]) then [] else [es[0]];
      BindingsConcat(head, DropLasts(es[1..], ks), k);
    }
  }

  /** The host supplies this key and the configuration lets it. */
  predicate Overridden(host: Option<seq<Entry>>, untrusted: set<string>, k: string) {
    host.Some? && k in untrusted && Bindings(host.value, k) != []
  }

  /** The trusted bindings of a key. */
  function Base(default: seq<Entry>, user: Option<seq<Entry>>, k: string): seq<Entry> {
    if user.Some? && Bindings(user.value, k) != [] then Bindings(user.value, k) else Bindings(default, k)
  }

  lemma TrustedBindings(default: seq<Entry>, user: Option<seq<Entry>>, k: string)
    ensures Bindings(Trusted(user, default), k) == Base(default, user, k)
  {
    if user.Some? {
      BindingsConcat(user.value, Except(default, Keys(user.value)), k);
      BindingsExcept(default, Keys(user.value), k);
      BindingsPresent(user.value, k);
    }
  }

  /** What every key is bound to after both merges, whether or not keys are unique. */
  lemma MergedBindings(
    default: seq<Entry>, user: Option<seq<Entry>>, host: Option<seq<Entry>>, untrusted: set<string>, k: string)
    ensures Bindings(Merge(Trusted(user, default), host, untrusted), k) ==
      if Overridden(host, untrusted, k) then ButLast(Base(default, user, k)) + Bindings(host.value, k)
      else Base(default, user, k)
  {
    var trusted, listed := Trusted(user, default), Listed(host, untrusted);
    TrustedBindings(default, user, k);
    BindingsConcat(DropLasts(trusted, Keys(listed)), listed, k);
    BindingsDropLasts(trusted, Keys(listed), k);
    BindingsPresent(listed, k);
    if host.Some? {
      BindingsOnly(host.value, untrusted, k);
    }
  }

  /**
   Precedence: a key has exactly the host's bindings if it is listed and supplied by
   the host, otherwise the user's, otherwise the default. It holds for a key exactly
   when the host does not override it or at most one trusted entry binds it.
   */
  lemma EnvPrecedence(
    default: seq<Entry>, user: Option<seq<Entry>>, host: Option<seq<Entry>>, untrusted: set<string>, k: string)
    ensures
      Bindings(Merge(Trusted(user, default), host, untrusted), k) == Preferred(default, user, host, untrusted, k)
      <==> !Overridden(host, untrusted, k) || |Base(default, user, k)| <= 1
  {
    MergedBindings(default, user, host, untrusted, k);
  }

  function Preferred(
    default: seq<Entry>, user: Option<seq<Entry>>, host: Option<seq<Entry>>, untrusted: set<string>, k: string)
    : seq<Entry>
  {
    if Overridden(host, untrusted, k) then Bindings(host.value, k) else Base(default, user, k)
  }

  ghost predicate UniqueKeys(es: seq<Entry>) {
    forall i, j :: 0 <= i < j < |es| ==> Key(es[i]) != Key(es[j])
  }

  lemma {:induction false} UniqueBinding(es: seq<Entry>, k: string)
    requires UniqueKeys(es)
    ensures |Bindings(es, k)| <= 1
  {
    if es != [] {
      UniqueBinding(es[1..], k);
      BindingsPresent(es[1..], k);
      assert Key(es[0]) !in Keys(es[1..]);
    }
  }

  /** Precedence holds for every key when default keys and user keys are each unique. */
  lemma UniqueKeysPrecedence(
    default: seq<Entry>, user: Option<seq<Entry>>, host: Option<seq<Entry>>, untrusted: set<string>, k: string)
    requires UniqueKeys(default) && (user.Some? ==> UniqueKeys(user.value))
    ensures Bindings(Merge(Trusted(user, default), host, untrusted), k) == Preferred(default, user, host, untrusted, k)
  {
    UniqueBinding(default, k);
    if user.Some? {
      UniqueBinding(user.value, k);
    }
    EnvPrecedence(default, user, host, untrusted, k);
  }

  /** A key bound twice by default keeps its first entry beside the host's. */
  lemma RepeatedKeySurvives(first: Entry, second: Entry, host: Entry, k: string)
    requires Key(first) == Key(second) == Key(host) == k
    ensures Bindings(Merge(Trusted(None, [first, second]), Some([host]), {k}), k) == [first, host]
  {
    OneBinding(host);
    OneBinding(second);
    assert [first, second][1..] == [second];
    assert Base([first, second], None, k) == [first, second];
    MergedBindings([first, second], None, Some([host]), {k}, k);
  }

  lemma OneBinding(e: Entry)
    ensures Bindings([e], Key(e)) == [e]
  {
    assert [e][1..] == [];
  }

  lemma {:induction false} DropLastsSubset(es: seq<Entry>, ks: set<string>)
    ensures forall e :: e in DropLasts(es, ks) ==> e in es
  {
    if es != [] {
      DropLastsSubset(es[1..], ks);
    }
  }

  lemma {:induction false} OnlySubset(es: seq<Entry>, ks: set<string>)
    ensures forall e :: e in Only(es, ks) ==> e in es && Key(e) in ks
  {
    if es != [] {
      OnlySubset(es[1..], ks);
    }
  }

  lemma {:induction false} ExceptSubset(es: seq<Entry>, ks: set<string>)
    ensures forall e :: e in Except(es, ks) ==> e in es
  {
    if es != [] {
      ExceptSubset(es[1..], ks);
    }
  }

  /** Nothing from the host gets in unless its key is listed. */
  lemma NoUnlistedHostEntry(
    default: seq<Entry>, user: Option<seq<Entry>>, host: Option<seq<Entry>>, untrusted: set<string>, e: Entry)
    requires e in Merge(Trusted(user, default), host, untrusted)
    ensures e in default || (user.Some? && e in user.value) || (host.Some? && e in host.value && Key(e) in untrusted)
  {
    var trusted, listed := Trusted(user, default), Listed(host, untrusted);
    DropLastsSubset(trusted, Keys(listed));
    if host.Some? {
      OnlySubset(host.value, untrusted);
    }
    if user.Some? {
      ExceptSubset(default, Keys(user.value));
    }
  }

  // ---- In terms of the text of the entries

  function Assign(k: string, v: string): Entry {
    k + ['='] + v
  }

  /** The entry is about variable `k`: `k=value` or just `k`. */
  ghost predicate About(e: Entry, k: string) {
    '=' !in k && (e == k || exists v :: e == Assign(k, v))
  }

  /** The key of `k=v` is `k`, whatever the value holds, and a bare `k` is its own key. */
  lemma {:induction false} KeyOfAssign(k: string, v: string)
    requires '=' !in k
    ensures Key(Assign(k, v)) == k && Key(k) == k
  {
    if k != "" {
      KeyOfAssign(k[1..], v);
      assert Assign(k, v)[1..] == Assign(k[1..], v);
    }
  }

  /** Every entry is about its key. */
  lemma {:induction false} AboutItsKey(e: Entry)
    ensures About(e, Key(e))
  {
    if e == "" {
    } else if e[0] == '=' {
      assert e == Assign("", e[1..]);
    } else {
      AboutItsKey(e[1..]);
      if e[1..] != Key(e[1..]) {
        var v :| e[1..] == Assign(Key(e[1..]), v);
        assert e == Assign(Key(e), v);
      }
    }
  }

  /** The key is the one variable an entry is about. */
  lemma KeyExact(e: Entry, k: string)
    ensures Key(e) == k <==> About(e, k)
  {
    AboutItsKey(e);
    if About(e, k) {
      KeyOfAssign(k, "");
      if e != k {
        var v :| e == Assign(k, v);
        KeyOfAssign(k, v);
      }
    }
  }

  lemma {:induction false} InBindings(es: seq<Entry>, k: string, e: Entry)
    ensures e in Bindings(es, k) <==> e in es && About(e, k)
  {
    KeyExact(e, k);
    if es != [] {
      InBindings(es[1..], k, e);
    }
  }

  ghost predicate Defines(es: Option<seq<Entry>>, k: string) {
    es.Some? && exists e :: e in es.value && About(e, k)
  }

  lemma DefinesBindings(es: seq<Entry>, k: string)
    ensures Defines(Some(es), k) <==> Bindings(es, k) != []
  {
    if Bindings(es, k) != [] {
      InBindings(es, k, Bindings(es, k)[0]);
    }
    if e :| e in es && About(e, k) {
      InBindings(es, k, e);
    }
  }

  /** No two entries are about one variable. */
  ghost predicate Unambiguous(es: seq<Entry>) {
    forall i, j, k :: 0 <= i < j < |es| && About(es[i], k) ==> !About(es[j], k)
  }

  lemma UnambiguousKeys(es: seq<Entry>)
    requires Unambiguous(es)
    ensures UniqueKeys(es)
  {
    forall i, j | 0 <= i < j < |es|
      ensures Key(es[i]) != Key(es[j])
    {
      AboutItsKey(es[i]);
      AboutItsKey(es[j]);
    }
  }

  /**
   Precedence in terms of the text: where default and user lists are unambiguous, an
   entry about `k` is in the new environment exactly if it is the host's, when `k` is
   listed and the host sets it, otherwise the user's, if the user sets it, otherwise
   the default's.
   */
  lemma TextPrecedence(
    default: seq<Entry>, user: Option<seq<Entry>>, host: Option<seq<Entry>>, untrusted: set<string>, k: string, e: Entry)
    requires Unambiguous(default) && (user.Some? ==> Unambiguous(user.value)) && About(e, k)
    ensures e in Merge(Trusted(user, default), host, untrusted) <==>
      if k in untrusted && Defines(host, k) then e in host.value
      else if Defines(user, k) then e in user.value
      else e in default
  {
    UnambiguousKeys(default);
    if user.Some? {
      UnambiguousKeys(user.value);
      DefinesBindings(user.value, k);
      InBindings(user.value, k, e);
    }
    if host.Some? {
      DefinesBindings(host.value, k);
      InBindings(host.value, k, e);
    }
    InBindings(default, k, e);
    InBindings(Merge(Trusted(user, default), host, untrusted), k, e);
    UniqueKeysPrecedence(default, user, host, untrusted, k);
  }

  /** An entry about an unlisted variable is never the host's alone. */
  lemma NoUnlistedText(
    default: seq<Entry>, user: Option<seq<Entry>>, host: Option<seq<Entry>>, untrusted: set<string>, k: string, e: Entry)
    requires About(e, k) && k !in untrusted && e in Merge(Trusted(user, default), host, untrusted)
    ensures e in default || (user.Some? && e in user.value)
  {
    KeyExact(e, k);
    NoUnlistedHostEntry(default, user, host, untrusted, e);
  }
}
