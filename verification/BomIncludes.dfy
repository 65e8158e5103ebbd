/**
 Include expansion of BOM files (tools/copy_bom/src/bom.rs:583-617): a breadth-first
 walk over the include tree, bounded to 100 files, whose duplicates are then removed
 so that only the last occurrence of each file is kept.
 */
module BomIncludes {
  import opened Util

  /** The path of a BOM file, compared as text only. */
  type Name(==, !new)

  const FILE_NOT_EXISTS_ERROR := -1
  const INVALID_BOM_FILE_ERROR := -3
  const MAX_ITERATION: nat := 100

  /** What reading a BOM file yields. An absent `includes` key is an empty list. */
  datatype Content = Missing | Invalid | Bom(includes: seq<Name>)

  /** `find` locates an included file, given its name and the file including it. */
  datatype Repo = Repo(read: Name -> Content, find: (Name, Name) -> Option<Name>)

  datatype Result<T> = Ok(value: T) | Abort(code: int)

  function Locate(repo: Repo, current: Name, names: seq<Name>): Result<seq<Name>> {
    if names == [] then Ok([])
    else
      var front := Locate(repo, current, names[..|names| - 1]);
      if front.Abort? then front
      else match repo.find(names[|names| - 1], current)
        case None => Abort(FILE_NOT_EXISTS_ERROR)
        case Some(f) => Ok(front.value + [f])
  }

  /** The files a BOM file includes, in order. */
  function Includes(repo: Repo, b: Name): Result<seq<Name>> {
    match repo.read(b)
    case Missing => Abort(FILE_NOT_EXISTS_ERROR)
    case Invalid => Abort(INVALID_BOM_FILE_ERROR)
    case Bom(names) => Locate(repo, b, names)
  }

  function Inc(repo: Repo, b: Name): seq<Name> {
    if Includes(repo, b).Ok? then Includes(repo, b).value else []
  }

  /** The includes of all files of a list, one after the other. */
  function Kids(repo: Repo, s: seq<Name>): seq<Name> {
    if s == [] then [] else Kids(repo, s[..|s| - 1]) + Inc(repo, s[|s| - 1])
  }

  lemma KidsSnoc(repo: Repo, s: seq<Name>, b: Name)
    ensures Kids(repo, s + [b]) == Kids(repo, s) + Inc(repo, b)
  {
    assert (s + [b])[..|s|] == s;
  }

  /** File `i` of the list is readable, and was queued before its turn came. */
  ghost predicate InTurn(repo: Repo, s: seq<Name>, i: nat)
    requires i < |s|
  {
    Includes(repo, s[i]).Ok? && |Kids(repo, s[..i])| >= i
  }

  /** A prefix of the breadth-first list: the first `k` files have been expanded. */
  ghost predicate Expanded(repo: Repo, root: Name, s: seq<Name>, k: nat) {
    && k <= |s|
    && s == [root] + Kids(repo, s[..k])
    && (forall i :: 0 <= i < k ==> InTurn(repo, s, i))
  }

  /** The whole breadth-first list of the include tree, a file once for every occurrence. */
  ghost predicate Complete(repo: Repo, root: Name, s: seq<Name>) {
    Expanded(repo, root, s, |s|)
  }

  // ---- Removing duplicates

  /** The first occurrence of each item that is not in `seen`. */
  function FirstOnly<T(==)>(s: seq<T>, seen: set<T>): seq<T> {
    if s == [] then []
    else if s[0] in seen then FirstOnly(s[1..], seen)
    else [s[0]] + FirstOnly(s[1..], seen + {s[0]})
  }

  /** The last occurrence of each item. */
  function KeepLast<T(==)>(s: seq<T>): seq<T> {
    if s == [] then []
    else if s[0] in s[1..] then KeepLast(s[1..])
    else [s[0]] + KeepLast(s[1..])
  }

  function Reverse<T>(s: seq<T>): seq<T> {
    if s == [] then [] else Reverse(s[1..]) + [s[0]]
  }

  method ReverseList<T>(s: seq<T>) returns (r: seq<T>)
    ensures r == Reverse(s)
  {
    r := [];
    var i := |s|;
    assert s[i..] == [];
    while i > 0
      invariant 0 <= i <= |s| && r == Reverse(s[i..])
    {
      i := i - 1;
      assert s[i..][1..] == s[i + 1..];
      r := r + [s[i]];
    }
    assert s[0..] == s;
  }

  method RemoveRedundantItems<T(==)>(raw: seq<T>, excludes: seq<T>) returns (res: seq<T>)
    ensures res == FirstOnly(raw, set x | x in excludes)
  {
    var exists_: set<T> := {};
    var i := 0;
    while i < |excludes|
      invariant 0 <= i <= |excludes| && exists_ == set x | x in excludes[..i]
    {
      exists_ := exists_ + {excludes[i]};
      i := i + 1;
    }
    assert excludes[..i] == excludes;
    res := [];
    i := 0;
    while i < |raw|
      invariant 0 <= i <= |raw|
      invariant res + FirstOnly(raw[i..], exists_) == FirstOnly(raw, set x | x in excludes)
    {
      if raw[i] !in exists_ {
        exists_ := exists_ + {raw[i]};
        res := res + [raw[i]];
      }
      i := i + 1;
    }
  }

  lemma {:induction false} FirstOnlySnoc<T>(s: seq<T>, x: T, seen: set<T>)
    ensures FirstOnly(s + [x], seen) ==
            FirstOnly(s, seen) + (if x in seen || x in s then [] else [x])
  {
    if s == [] {
      assert (s + [x])[1..] == [];
    } else {
      assert (s + [x])[1..] == s[1..] + [x];
      FirstOnlySnoc(s[1..], x, seen);
      FirstOnlySnoc(s[1..], x, seen + {s[0]});
      assert s == [s[0]] + s[1..];
    }
  }

  lemma {:induction false} ReverseSnoc<T>(s: seq<T>, x: T)
    ensures Reverse(s + [x]) == [x] + Reverse(s)
  {
    if s == [] {
      assert (s + [x])[1..] == [];
    } else {
      assert (s + [x])[1..] == s[1..] + [x];
      ReverseSnoc(s[1..], x);
    }
  }

  lemma {:induction false} ReverseSame<T>(s: seq<T>)
    ensures forall x :: x in Reverse(s) <==> x in s
  {
    if s != [] {
      ReverseSame(s[1..]);
      assert s == [s[0]] + s[1..];
    }
  }

  /** Reverse, keep the first of each, reverse back: the last occurrences, in order. */
  lemma {:induction false} ReverseDedupReverse<T>(s: seq<T>)
    ensures Reverse(FirstOnly(Reverse(s), {})) == KeepLast(s)
  {
    if s != [] {
      ReverseDedupReverse(s[1..]);
      ReverseSame(s[1..]);
      FirstOnlySnoc(Reverse(s[1..]), s[0], {});
      var first := FirstOnly(Reverse(s[1..]), {});
      assert first + [] == first;
      ReverseSnoc(first, s[0]);
    }
  }

  // ---- The walk

  /** Queue the includes of `current`: both lists grow by them, unless one cannot be found. */
  method Enqueue(repo: Repo, current: Name, queue: seq<Name>, sorted: seq<Name>)
    returns (ok: bool, code: int, queue': seq<Name>, sorted': seq<Name>)
    ensures ok <==> Includes(repo, current).Ok?
    ensures ok ==> queue' == queue + Inc(repo, current) && sorted' == sorted + Inc(repo, current)
    ensures !ok ==> Includes(repo, current) == Abort(code)
  {
    ok, code, queue', sorted' := true, 0, queue, sorted;
    var content := repo.read(current);
    if content.Missing? {
      return false, FILE_NOT_EXISTS_ERROR, queue, sorted;
    }
    if content.Invalid? {
      return false, INVALID_BOM_FILE_ERROR, queue, sorted;
    }
    var i := 0;
    while i < |content.includes|
      invariant 0 <= i <= |content.includes| && ok
      invariant Locate(repo, current, content.includes[..i]).Ok?
      invariant queue' == queue + Locate(repo, current, content.includes[..i]).value
      invariant sorted' == sorted + Locate(repo, current, content.includes[..i]).value
    {
      var name := content.includes[i];
      assert content.includes[..i + 1][..i] == content.includes[..i];
      var found := repo.find(name, current);
      if found.None? {
        LocateAborts(repo, current, content.includes, i + 1);
        return false, FILE_NOT_EXISTS_ERROR, queue, sorted;
      }
      queue' := queue' + [found.value];
      sorted' := sorted' + [found.value];
      i := i + 1;
    }
    assert content.includes[..i] == content.includes;
  }

  lemma {:induction false} LocateAborts(repo: Repo, current: Name, names: seq<Name>, i: nat)
    requires i <= |names| && Locate(repo, current, names[..i]).Abort?
    ensures Locate(repo, current, names) == Locate(repo, current, names[..i])
    decreases |names| - i
  {
    if i == |names| {
      assert names[..i] == names;
    } else {
      assert names[..i + 1][..i] == names[..i];
      LocateAborts(repo, current, names, i + 1);
    }
  }

  lemma ExpandedStep(repo: Repo, root: Name, s: seq<Name>, k: nat)
    requires Expanded(repo, root, s, k) && k < |s| && Includes(repo, s[k]).Ok?
    ensures Expanded(repo, root, s + Inc(repo, s[k]), k + 1)
  {
    var s' := s + Inc(repo, s[k]);
    assert s'[..k + 1] == s[..k] + [s[k]];
    KidsSnoc(repo, s[..k], s[k]);
    forall i | 0 <= i < k + 1
      ensures InTurn(repo, s', i)
    {
      assert s'[..i] == s[..i];
      assert i < k ==> InTurn(repo, s, i);
    }
  }

  lemma {:induction false} KidsPrefix(repo: Repo, s: seq<Name>, k: nat)
    requires k <= |s|
    ensures Kids(repo, s[..k]) <= Kids(repo, s)
    decreases |s| - k
  {
    if k == |s| {
      assert s[..k] == s;
    } else {
      KidsPrefix(repo, s, k + 1);
      assert s[..k + 1] == s[..k] + [s[k]];
      KidsSnoc(repo, s[..k], s[k]);
    }
  }

  lemma ExpansionPrefix(repo: Repo, root: Name, s: seq<Name>, k: nat, j: nat)
    requires Expanded(repo, root, s, k) && j <= k
    ensures [root] + Kids(repo, s[..j]) <= s
    ensures j < k ==> |[root] + Kids(repo, s[..j])| > j
  {
    assert s[..k][..j] == s[..j];
    KidsPrefix(repo, s[..k], j);
    assert j < k ==> InTurn(repo, s, j);
  }

  lemma CommonPrefix(front: seq<Name>, a: seq<Name>, b: seq<Name>, j: nat)
    requires front <= a && front <= b && j <= |front|
    ensures a[..j] == b[..j]
  {
  }

  lemma {:induction false} AgreeUpTo(repo: Repo, root: Name, s: seq<Name>, k: nat, all: seq<Name>, j: nat)
    requires Expanded(repo, root, s, k) && Complete(repo, root, all) && j <= k
    ensures j <= |all| && s[..j] == all[..j]
  {
    if j > 0 {
      AgreeUpTo(repo, root, s, k, all, j - 1);
      AgreeStep(repo, root, s, k, all, j - 1);
    }
  }

  lemma AgreeStep(repo: Repo, root: Name, s: seq<Name>, k: nat, all: seq<Name>, j: nat)
    requires Expanded(repo, root, s, k) && Complete(repo, root, all) && j < k
    requires j <= |all| && s[..j] == all[..j]
    ensures j + 1 <= |all| && s[..j + 1] == all[..j + 1]
  {
    ExpansionPrefix(repo, root, s, k, j);
    ExpansionPrefix(repo, root, all, |all|, j);
    CommonPrefix([root] + Kids(repo, s[..j]), s, all, j + 1);
  }

  /** The walk builds prefixes of the complete list, if there is one. */
  lemma PrefixOfComplete(repo: Repo, root: Name, s: seq<Name>, k: nat, all: seq<Name>)
    requires Expanded(repo, root, s, k) && Complete(repo, root, all)
    ensures s <= all
  {
    AgreeUpTo(repo, root, s, k, all, k);
    ExpansionPrefix(repo, root, all, |all|, k);
  }

  /** Why expansion aborts: file `k` or one of its includes is unreadable, or the bound is hit. */
  ghost predicate StopsAt(repo: Repo, root: Name, s: seq<Name>, k: nat, code: int) {
    && Expanded(repo, root, s, k) && k < |s|
    && if k < 100 then Includes(repo, s[k]) == Abort(code)
       else k == 100 && code == -3
  }

  /** The queue-driven loop: the complete list, unless a file is unreadable or the bound is hit. */
  method Walk(repo: Repo, root: Name) returns (r: Result<seq<Name>>)
    ensures r.Ok? ==> Complete(repo, root, r.value) && |r.value| <= MAX_ITERATION
    ensures r.Abort? ==> exists s, k :: StopsAt(repo, root, s, k, r.code)
  {
    var boms := [root];
    var sorted := [root];
    var k := 0;
    while k < MAX_ITERATION && boms != []
      invariant 0 <= k <= MAX_ITERATION && k <= |sorted|
      invariant boms == sorted[k..]
      invariant Expanded(repo, root, sorted, k)
      decreases MAX_ITERATION - k
    {
      var current := boms[0];
      var ok, code;
      ghost var before := sorted;
      ok, code, boms, sorted := Enqueue(repo, current, boms[1..], sorted);
      if !ok {
        assert StopsAt(repo, root, before, k, code);
        return Abort(code);
      }
      ExpandedStep(repo, root, before, k);
      k := k + 1;
    }
    if boms != [] {
      assert StopsAt(repo, root, sorted, k, INVALID_BOM_FILE_ERROR);
      return Abort(INVALID_BOM_FILE_ERROR);
    }
    r := Ok(sorted);
  }

  /** A walk that stopped leaves no complete list within the bound. */
  lemma StoppedForGood(repo: Repo, root: Name, s: seq<Name>, k: nat, code: int)
    requires StopsAt(repo, root, s, k, code)
    ensures forall all :: Complete(repo, root, all) ==> |all| > MAX_ITERATION
  {
    if k < MAX_ITERATION {
      NoCompleteList(repo, root, s, k);
    } else {
      LongerThan(repo, root, s, k);
    }
  }

  /**
   Returns the list exactly when the include tree has at most 100 occurrences of
   readable files; the list is then the last occurrences of the breadth-first list,
   a correct expansion. A reachable include cycle makes it abort.
   */
  method FindAllIncludedBomFiles(repo: Repo, root: Name) returns (r: Result<seq<Name>>)
    ensures r.Ok? ==> exists s :: Complete(repo, root, s) && |s| <= 100 && r.value == KeepLast(s)
    ensures r.Abort? ==> forall s :: Complete(repo, root, s) ==> |s| > 100
    ensures r.Abort? ==> exists s, k :: StopsAt(repo, root, s, k, r.code)
    ensures r.Ok? ==> Expansion(repo, root, r.value)
    ensures Cyclic(repo, root) ==> r.Abort?
  {
    r := Walk(repo, root);
    if r.Abort? {
      ghost var s, k :| StopsAt(repo, root, s, k, r.code);
      StoppedForGood(repo, root, s, k, r.code);
    } else {
      IncludeExpansion(repo, root, r.value);
      if Cyclic(repo, root) {
        CyclicForcesAbort(repo, root);
      }
      var res := RemoveRedundantBoms(r.value);
      r := Ok(res);
    }
  }

  method RemoveRedundantBoms(sorted: seq<Name>) returns (res: seq<Name>)
    ensures res == KeepLast(sorted)
  {
    var backwards := ReverseList(sorted);
    var none: seq<Name> := [];
    res := RemoveRedundantItems(backwards, none);
    assert (set x | x in none) == {};
    res := ReverseList(res);
    ReverseDedupReverse(sorted);
  }

  lemma LongerThan(repo: Repo, root: Name, s: seq<Name>, k: nat)
    requires Expanded(repo, root, s, k) && k < |s|
    ensures forall all :: Complete(repo, root, all) ==> |all| > k
  {
    forall all | Complete(repo, root, all)
      ensures |all| > k
    {
      PrefixOfComplete(repo, root, s, k, all);
    }
  }

  lemma NoCompleteList(repo: Repo, root: Name, s: seq<Name>, k: nat)
    requires Expanded(repo, root, s, k) && k < |s| && Includes(repo, s[k]).Abort?
    ensures forall all :: !Complete(repo, root, all)
  {
    forall all | Complete(repo, root, all)
      ensures false
    {
      PrefixOfComplete(repo, root, s, k, all);
      CompleteReads(repo, root, all, k);
    }
  }

  lemma CompleteReads(repo: Repo, root: Name, s: seq<Name>, k: nat)
    requires Complete(repo, root, s) && k < |s|
    ensures Includes(repo, s[k]).Ok?
  {
    assert InTurn(repo, s, k);
  }

  // ---- What the result means

  /** BOM file `a` names an include that is found at `b`. */
  ghost predicate Edge(repo: Repo, a: Name, b: Name) {
    && repo.read(a).Bom?
    && exists name :: name in repo.read(a).includes && repo.find(name, a) == Some(b)
  }

  lemma {:induction false} LocateExact(repo: Repo, current: Name, names: seq<Name>)
    ensures var r := Locate(repo, current, names);
      if forall i :: 0 <= i < |names| ==> repo.find(names[i], current).Some?
      then
        && r.Ok? && |r.value| == |names|
        && forall i :: 0 <= i < |names| ==> repo.find(names[i], current) == Some(r.value[i])
      else r == Abort(-1)
  {
    if names != [] {
      var front := names[..|names| - 1];
      LocateExact(repo, current, front);
      assert forall i :: 0 <= i < |front| ==> front[i] == names[i];
    }
  }

  /**
   A BOM file is read exactly if it is a BOM and every name it includes is found; its
   includes are then all of them, in order. A missing file or include aborts with -1,
   a file that is no BOM with -3.
   */
  lemma IncludesExact(repo: Repo, a: Name)
    ensures Includes(repo, a).Ok? <==>
      repo.read(a).Bom? && forall i :: 0 <= i < |repo.read(a).includes| ==> repo.find(repo.read(a).includes[i], a).Some?
    ensures Includes(repo, a).Ok? ==>
      && |Inc(repo, a)| == |repo.read(a).includes|
      && forall i :: 0 <= i < |Inc(repo, a)| ==> repo.find(repo.read(a).includes[i], a) == Some(Inc(repo, a)[i])
    ensures Includes(repo, a).Abort? ==> Includes(repo, a).code == if repo.read(a).Invalid? then -3 else -1
  {
    if repo.read(a).Bom? {
      LocateExact(repo, a, repo.read(a).includes);
    }
  }

  lemma EdgeIsInclude(repo: Repo, a: Name, b: Name)
    requires Includes(repo, a).Ok?
    ensures Edge(repo, a, b) <==> b in Inc(repo, a)
  {
    IncludesExact(repo, a);
    if b in Inc(repo, a) {
      var i :| 0 <= i < |Inc(repo, a)| && Inc(repo, a)[i] == b;
      assert repo.read(a).includes[i] in repo.read(a).includes;
    }
    if Edge(repo, a, b) {
      var name :| name in repo.read(a).includes && repo.find(name, a) == Some(b);
      var i :| 0 <= i < |repo.read(a).includes| && repo.read(a).includes[i] == name;
      assert Inc(repo, a)[i] == b;
    }
  }

  ghost predicate Path(repo: Repo, p: seq<Name>) {
    |p| > 0 && forall i :: 0 < i < |p| ==> Edge(repo, p[i - 1], p[i])
  }

  /** `b` is included from `a`, directly or not, or is `a`. */
  ghost predicate Reachable(repo: Repo, a: Name, b: Name) {
    exists p :: Path(repo, p) && p[0] == a && p[|p| - 1] == b
  }

  ghost predicate NoDuplicates<T>(s: seq<T>) {
    forall i, j :: 0 <= i < j < |s| ==> s[i] != s[j]
  }

  /** Every file comes before everything it includes. */
  ghost predicate Ordered(repo: Repo, s: seq<Name>) {
    forall i, c :: 0 <= i < |s| && Edge(repo, s[i], c) ==> c in s[i + 1..]
  }

  /** The includes of file `i` stand further down the complete list. */
  lemma IncludesFollow(repo: Repo, root: Name, s: seq<Name>, i: nat, c: Name)
    requires Complete(repo, root, s) && i < |s| && Edge(repo, s[i], c)
    ensures c in s[i + 1..]
  {
    CompleteReads(repo, root, s, i);
    EdgeIsInclude(repo, s[i], c);
    TurnAt(repo, root, s, i);
    InTail(s, root, Kids(repo, s[..i]), Inc(repo, s[i]), i, c);
  }

  lemma TurnAt(repo: Repo, root: Name, s: seq<Name>, i: nat)
    requires Complete(repo, root, s) && i < |s|
    ensures |Kids(repo, s[..i])| >= i && [root] + (Kids(repo, s[..i]) + Inc(repo, s[i])) <= s
  {
    assert InTurn(repo, s, i);
    KidsAt(repo, s, i);
    ExpansionPrefix(repo, root, s, |s|, i + 1);
  }

  lemma KidsAt(repo: Repo, s: seq<Name>, i: nat)
    requires i < |s|
    ensures Kids(repo, s[..i + 1]) == Kids(repo, s[..i]) + Inc(repo, s[i])
  {
    assert s[..i + 1] == s[..i] + [s[i]];
    KidsSnoc(repo, s[..i], s[i]);
  }

  lemma InTail(s: seq<Name>, root: Name, front: seq<Name>, inc: seq<Name>, i: nat, c: Name)
    requires [root] + (front + inc) <= s && i <= |front| && c in inc
    ensures i < |s| && c in s[i + 1..]
  {
    var x :| 0 <= x < |inc| && inc[x] == c;
    assert c == ([root] + (front + inc))[1 + |front| + x];
    assert c == s[i + 1..][|front| + x - i];
  }

  lemma {:induction false} KidsFrom(repo: Repo, s: seq<Name>, c: Name) returns (i: nat)
    requires c in Kids(repo, s)
    ensures i < |s| && Edge(repo, s[i], c)
  {
    if c in Inc(repo, s[|s| - 1]) {
      i := |s| - 1;
      EdgeIsInclude(repo, s[i], c);
    } else {
      i := KidsFrom(repo, s[..|s| - 1], c);
    }
  }

  lemma {:induction false} KeepLastSame<T>(s: seq<T>)
    ensures forall x :: x in KeepLast(s) <==> x in s
  {
    if s != [] {
      KeepLastSame(s[1..]);
      assert s == [s[0]] + s[1..];
    }
  }

  lemma {:induction false} KeepLastDistinct<T>(s: seq<T>)
    ensures NoDuplicates(KeepLast(s))
  {
    if s != [] {
      KeepLastDistinct(s[1..]);
      KeepLastSame(s[1..]);
    }
  }

  lemma {:induction false} KeepLastOrdered(repo: Repo, root: Name, s: seq<Name>, k: nat)
    requires Complete(repo, root, s) && k <= |s|
    ensures Ordered(repo, KeepLast(s[k..]))
    decreases |s| - k
  {
    if k < |s| {
      KeepLastOrdered(repo, root, s, k + 1);
      KeepLastFrom(s, k);
      KeepLastSame(s[k + 1..]);
      var rest := KeepLast(s[k + 1..]);
      if s[k] !in s[k + 1..] {
        forall c | Edge(repo, s[k], c)
          ensures c in rest
        {
          IncludesFollow(repo, root, s, k, c);
        }
        OrderedCons(repo, s[k], rest);
      }
    }
  }

  lemma KeepLastFrom<T>(s: seq<T>, k: nat)
    requires k < |s|
    ensures KeepLast(s[k..]) ==
      if s[k] in s[k + 1..] then KeepLast(s[k + 1..]) else [s[k]] + KeepLast(s[k + 1..])
  {
    assert s[k..][1..] == s[k + 1..];
  }

  lemma OrderedCons(repo: Repo, head: Name, rest: seq<Name>)
    requires Ordered(repo, rest) && forall c :: Edge(repo, head, c) ==> c in rest
    ensures Ordered(repo, [head] + rest)
  {
    var s := [head] + rest;
    forall i, c | 0 <= i < |s| && Edge(repo, s[i], c)
      ensures c in s[i + 1..]
    {
      assert s[i + 1..] == rest[i..];
      if i > 0 {
        assert c in rest[(i - 1) + 1..];
      }
    }
  }

  /** Every file of the complete list but its head is included by a file of the list. */
  lemma IncludedBySomeone(repo: Repo, root: Name, s: seq<Name>, j: nat) returns (i: nat)
    requires Complete(repo, root, s) && 0 < j < |s|
    ensures i < j && Edge(repo, s[i], s[j])
  {
    assert s[..|s|] == s;
    // `j` lies in the includes of the files expanded before it was reached
    ExpansionPrefix(repo, root, s, |s|, j);
    assert InTurn(repo, s, j);
    assert s[j] == ([root] + Kids(repo, s[..j]))[j] == Kids(repo, s[..j])[j - 1];
    i := KidsFrom(repo, s[..j], s[j]);
  }

  lemma {:induction false} ListReachable(repo: Repo, root: Name, s: seq<Name>, j: nat)
    requires Complete(repo, root, s) && j < |s|
    ensures Reachable(repo, root, s[j])
  {
    if j == 0 {
      assert Path(repo, [root]);
    } else {
      var i := IncludedBySomeone(repo, root, s, j);
      ListReachable(repo, root, s, i);
      var p :| Path(repo, p) && p[0] == root && p[|p| - 1] == s[i];
      var q := p + [s[j]];
      assert Path(repo, q) && q[0] == root && q[|q| - 1] == s[j];
    }
  }

  lemma {:induction false} PathStays(repo: Repo, root: Name, s: seq<Name>, p: seq<Name>, k: nat)
    requires Complete(repo, root, s) && Path(repo, p) && p[0] in s && k < |p|
    ensures p[k] in s
  {
    if k > 0 {
      PathStays(repo, root, s, p, k - 1);
      var i :| 0 <= i < |s| && s[i] == p[k - 1];
      assert Edge(repo, p[k - 1], p[k]);
      IncludesFollow(repo, root, s, i, p[k]);
    }
  }

  /** Along a path positions in an ordered list without duplicates only increase. */
  lemma {:induction false} PathAdvances(repo: Repo, r: seq<Name>, p: seq<Name>, a: nat) returns (b: nat)
    requires Ordered(repo, r) && NoDuplicates(r) && Path(repo, p)
    requires a < |r| && r[a] == p[0]
    ensures b < |r| && r[b] == p[|p| - 1] && a + |p| - 1 <= b
  {
    if |p| == 1 {
      b := a;
    } else {
      assert Edge(repo, p[0], p[1]);
      assert p[1] in r[a + 1..];
      var x :| 0 <= x < |r[a + 1..]| && r[a + 1..][x] == p[1];
      forall i | 0 < i < |p[1..]|
        ensures Edge(repo, p[1..][i - 1], p[1..][i])
      {
        assert Edge(repo, p[(i + 1) - 1], p[i + 1]);
      }
      b := PathAdvances(repo, r, p[1..], a + 1 + x);
    }
  }

  /**
   What an expansion should be: it starts with the root, has no duplicates, holds
   exactly the files reachable from the root, and lists every file before each file
   it includes.
   */
  ghost predicate Expansion(repo: Repo, root: Name, r: seq<Name>) {
    && r != [] && r[0] == root
    && NoDuplicates(r)
    && (forall b :: b in r <==> Reachable(repo, root, b))
    && Ordered(repo, r)
  }

  /** A file reachable from the root includes itself, directly or not. */
  ghost predicate Cyclic(repo: Repo, root: Name) {
    exists p :: Path(repo, p) && |p| > 1 && p[0] == p[|p| - 1] && Reachable(repo, root, p[0])
  }

  /** The last occurrences of the breadth-first list are a correct expansion. */
  lemma IncludeExpansion(repo: Repo, root: Name, s: seq<Name>)
    requires Complete(repo, root, s)
    ensures Expansion(repo, root, KeepLast(s))
  {
    var r := KeepLast(s);
    KeepLastSame(s);
    KeepLastDistinct(s);
    assert s[0..] == s;
    KeepLastOrdered(repo, root, s, 0);
    RootComesFirst(repo, root, s);
    forall b
      ensures b in r <==> Reachable(repo, root, b)
    {
      if b in s {
        var j :| 0 <= j < |s| && s[j] == b;
        ListReachable(repo, root, s, j);
      }
      if Reachable(repo, root, b) {
        var p :| Path(repo, p) && p[0] == root && p[|p| - 1] == b;
        PathStays(repo, root, s, p, |p| - 1);
      }
    }
  }

  lemma HeadNotIncluded(repo: Repo, r: seq<Name>, x: nat)
    requires Ordered(repo, r) && NoDuplicates(r) && x < |r|
    ensures !Edge(repo, r[x], r[0])
  {
  }

  lemma RootComesFirst(repo: Repo, root: Name, s: seq<Name>)
    requires Complete(repo, root, s) && Ordered(repo, KeepLast(s)) && NoDuplicates(KeepLast(s))
    ensures KeepLast(s) != [] && KeepLast(s)[0] == root
  {
    var r := KeepLast(s);
    KeepLastSame(s);
    assert s[0] in r && r[0] in r && r[0] in s;
    forall i | 0 <= i < |s|
      ensures !Edge(repo, s[i], r[0])
    {
      assert s[i] in s && s[i] in r;
      var x :| 0 <= x < |r| && r[x] == s[i];
      HeadNotIncluded(repo, r, x);
    }
    var j :| 0 <= j < |s| && s[j] == r[0];
    if j > 0 {
      var i := IncludedBySomeone(repo, root, s, j);
    }
  }

  /** A cycle of includes reachable from the root makes the expansion abort. */
  lemma CycleForcesAbort(repo: Repo, root: Name, p: seq<Name>)
    requires Path(repo, p) && |p| > 1 && p[0] == p[|p| - 1] && Reachable(repo, root, p[0])
    ensures forall s :: !Complete(repo, root, s)
  {
    forall s | Complete(repo, root, s)
      ensures false
    {
      IncludeExpansion(repo, root, s);
      var r := KeepLast(s);
      var a :| 0 <= a < |r| && r[a] == p[0];
      var b := PathAdvances(repo, r, p, a);
    }
  }

  lemma CyclicForcesAbort(repo: Repo, root: Name)
    requires Cyclic(repo, root)
    ensures forall s :: !Complete(repo, root, s)
  {
    var p :| Path(repo, p) && |p| > 1 && p[0] == p[|p| - 1] && Reachable(repo, root, p[0]);
    CycleForcesAbort(repo, root, p);
  }
}
