/**
 Removing redundant copies and links from the BOM plans
 (tools/copy_bom/src/bom.rs:643-660 and 696-724) without changing the final image.
 */
module BomDedup {

  /** A path, compared as text only. */
  type Path(==, !new)

  /** A file to copy, or a link to create, at `dest`. */
  datatype Copy = Copy(src: Path, dest: Path)

  /** The operations of one BOM file; BOMs are handled in list order. */
  datatype Bom = Bom(
    dirsToMake: seq<Path>,
    links: seq<Copy>,
    dirsToCopy: seq<Copy>,
    files: seq<Copy>,
    sharedObjects: seq<Copy>)

  // ---- What a plan means

  /** The image after doing the operations in order: the last writer of a path wins. */
  function Image(ops: seq<Copy>): map<Path, Path> {
    if ops == [] then map[] else Image(ops[..|ops| - 1])[ops[|ops| - 1].dest := ops[|ops| - 1].src]
  }

  /** All copies in the order of precedence: in a BOM, user files override shared objects. */
  function Intended(boms: seq<Bom>): seq<Copy> {
    if boms == [] then []
    else var b := boms[|boms| - 1]; Intended(boms[..|boms| - 1]) + (b.sharedObjects + b.files)
  }

  /** All copies in the order `manage` performs them: files, then shared objects. */
  function Executed(boms: seq<Bom>): seq<Copy> {
    if boms == [] then []
    else var b := boms[|boms| - 1]; Executed(boms[..|boms| - 1]) + (b.files + b.sharedObjects)
  }

  function Links(boms: seq<Bom>): seq<Copy> {
    if boms == [] then [] else Links(boms[..|boms| - 1]) + boms[|boms| - 1].links
  }

  function Dests(ops: seq<Copy>): set<Path> {
    set c | c in ops :: c.dest
  }

  ghost predicate Distinct(ops: seq<Copy>) {
    forall i, j :: 0 <= i < j < |ops| ==> ops[i].dest != ops[j].dest
  }

  // ---- Pruning

  /** Scanning backwards, keep an operation unless its destination was already seen. */
  function Prune(ops: seq<Copy>, seen: set<Path>): seq<Copy> {
    if ops == [] then []
    else
      var c := ops[|ops| - 1];
      if c.dest in seen then Prune(ops[..|ops| - 1], seen)
      else Prune(ops[..|ops| - 1], seen + {c.dest}) + [c]
  }

  function PruneBom(b: Bom, seen: set<Path>): Bom {
    b.(files := Prune(b.files, seen), sharedObjects := Prune(b.sharedObjects, seen + Dests(b.files)))
  }

  function BomDests(b: Bom): set<Path> {
    Dests(b.files) + Dests(b.sharedObjects)
  }

  function PruneCopies(boms: seq<Bom>, seen: set<Path>): seq<Bom> {
    if boms == [] then []
    else
      var b := boms[|boms| - 1];
      PruneCopies(boms[..|boms| - 1], seen + BomDests(b)) + [PruneBom(b, seen)]
  }

  function PruneLinks(boms: seq<Bom>, seen: set<Path>): seq<Bom> {
    if boms == [] then []
    else
      var b := boms[|boms| - 1];
      PruneLinks(boms[..|boms| - 1], seen + Dests(b.links)) + [b.(links := Prune(b.links, seen))]
  }

  lemma PruneStep(ops: seq<Copy>, i: nat, seen: set<Path>, kept: seq<Copy>)
    requires i < |ops|
    ensures var c := ops[i];
      Prune(ops[..i + 1], seen) + kept ==
        if c.dest in seen then Prune(ops[..i], seen) + kept
        else Prune(ops[..i], seen + {c.dest}) + ([c] + kept)
  {
    assert ops[..i + 1][..i] == ops[..i];
  }

  lemma DestsFrom(ops: seq<Copy>, i: nat)
    requires i < |ops|
    ensures Dests(ops[i..]) == {ops[i].dest} + Dests(ops[i + 1..])
  {
    assert ops[i..] == [ops[i]] + ops[i + 1..];
  }

  /** The reversed scan over one list of operations, with the hash set of destinations. */
  method PruneList(ops: seq<Copy>, seen: set<Path>) returns (kept: seq<Copy>, seen': set<Path>)
    ensures kept == Prune(ops, seen) && seen' == seen + Dests(ops)
  {
    kept, seen' := [], seen;
    var i := |ops|;
    assert ops[..i] == ops;
    while i > 0
      invariant 0 <= i <= |ops|
      invariant seen' == seen + Dests(ops[i..])
      invariant Prune(ops[..i], seen') + kept == Prune(ops, seen)
    {
      i := i - 1;
      var c := ops[i];
      PruneStep(ops, i, seen', kept);
      DestsFrom(ops, i);
      if c.dest !in seen' {
        seen' := seen' + {c.dest};
        kept := [c] + kept;
      }
    }
    assert ops[0..] == ops;
  }

  /** Files first, then shared objects, against one set of destinations. */
  method PruneCopiesOf(b: Bom, seen: set<Path>) returns (b': Bom, seen': set<Path>)
    ensures b' == PruneBom(b, seen) && seen' == seen + BomDests(b)
  {
    var files, shared;
    files, seen' := PruneList(b.files, seen);
    shared, seen' := PruneList(b.sharedObjects, seen');
    b' := b.(files := files, sharedObjects := shared);
  }

  lemma PruneCopiesStep(boms: seq<Bom>, i: nat, seen: set<Path>, done: seq<Bom>)
    requires i < |boms|
    ensures PruneCopies(boms[..i + 1], seen) + done ==
            PruneCopies(boms[..i], seen + BomDests(boms[i])) + ([PruneBom(boms[i], seen)] + done)
  {
    assert boms[..i + 1][..i] == boms[..i];
  }

  /** The source reverses the list, walks it and reverses it back; here the walk is backwards. */
  method PruneAllCopies(boms: seq<Bom>) returns (res: seq<Bom>)
    ensures res == PruneCopies(boms, {})
  {
    var allFiles: set<Path> := {};
    res := [];
    var i := |boms|;
    assert boms[..i] == boms;
    while i > 0
      invariant 0 <= i <= |boms|
      invariant PruneCopies(boms[..i], allFiles) + res == PruneCopies(boms, {})
    {
      i := i - 1;
      PruneCopiesStep(boms, i, allFiles, res);
      var b;
      b, allFiles := PruneCopiesOf(boms[i], allFiles);
      res := [b] + res;
    }
  }

  lemma PruneLinksStep(boms: seq<Bom>, i: nat, seen: set<Path>, done: seq<Bom>)
    requires i < |boms|
    ensures var b := boms[i];
      PruneLinks(boms[..i + 1], seen) + done ==
        PruneLinks(boms[..i], seen + Dests(b.links)) + ([b.(links := Prune(b.links, seen))] + done)
  {
    assert boms[..i + 1][..i] == boms[..i];
  }

  method PruneAllLinks(boms: seq<Bom>) returns (res: seq<Bom>)
    ensures res == PruneLinks(boms, {})
  {
    var allLinks: set<Path> := {};
    res := [];
    var i := |boms|;
    assert boms[..i] == boms;
    while i > 0
      invariant 0 <= i <= |boms|
      invariant PruneLinks(boms[..i], allLinks) + res == PruneLinks(boms, {})
    {
      i := i - 1;
      PruneLinksStep(boms, i, allLinks, res);
      var links;
      links, allLinks := PruneList(boms[i].links, allLinks);
      res := [boms[i].(links := links)] + res;
    }
  }

  lemma {:induction false} PruneLengths(boms: seq<Bom>, seen: set<Path>)
    ensures |PruneCopies(boms, seen)| == |boms| && |PruneLinks(boms, seen)| == |boms|
  {
    if boms != [] {
      var b := boms[|boms| - 1];
      PruneLengths(boms[..|boms| - 1], seen + BomDests(b));
      PruneLengths(boms[..|boms| - 1], seen + Dests(b.links));
    }
  }

  // ---- Laws of Image and Prune

  lemma DestsConcat(a: seq<Copy>, b: seq<Copy>)
    ensures Dests(a + b) == Dests(a) + Dests(b)
  {
    assert forall c :: c in a + b <==> c in a || c in b;
  }

  lemma {:induction false} ImageConcat(a: seq<Copy>, b: seq<Copy>)
    ensures Image(a + b) == Image(a) + Image(b)
  {
    if b == [] {
      assert a + b == a;
    } else {
      assert (a + b)[..|a + b| - 1] == a + b[..|b| - 1];
      ImageConcat(a, b[..|b| - 1]);
    }
  }

  lemma {:induction false} ImageKeys(ops: seq<Copy>)
    ensures Image(ops).Keys == Dests(ops)
  {
    if ops != [] {
      ImageKeys(ops[..|ops| - 1]);
      assert ops == ops[..|ops| - 1] + [ops[|ops| - 1]];
      DestsConcat(ops[..|ops| - 1], [ops[|ops| - 1]]);
    }
  }

  /** Pruning drops exactly what later operations, or those already seen, overwrite. */
  lemma {:induction false} PruneImage(ops: seq<Copy>, seen: set<Path>)
    ensures Image(Prune(ops, seen)) == Image(ops) - seen
  {
    if ops != [] {
      var front, c := ops[..|ops| - 1], ops[|ops| - 1];
      if c.dest in seen {
        PruneImage(front, seen);
      } else {
        PruneImage(front, seen + {c.dest});
        var p := Prune(front, seen + {c.dest});
        assert Prune(ops, seen) == p + [c];
        ImageSnoc(p, c);
      }
    }
  }

  lemma ImageSnoc(p: seq<Copy>, c: Copy)
    ensures Image(p + [c]) == Image(p)[c.dest := c.src]
  {
    assert (p + [c])[..|p|] == p;
  }

  lemma PruneDests(ops: seq<Copy>, seen: set<Path>)
    ensures Dests(Prune(ops, seen)) == Dests(ops) - seen
  {
    PruneImage(ops, seen);
    ImageKeys(ops);
    ImageKeys(Prune(ops, seen));
  }

  lemma {:induction false} PruneConcat(a: seq<Copy>, b: seq<Copy>, seen: set<Path>)
    ensures Prune(a + b, seen) == Prune(a, seen + Dests(b)) + Prune(b, seen)
  {
    if b == [] {
      assert a + b == a && seen + Dests(b) == seen;
    } else {
      var front, c := b[..|b| - 1], b[|b| - 1];
      assert (a + b)[..|a + b| - 1] == a + front;
      assert b == front + [c];
      DestsConcat(front, [c]);
      PruneConcat(a, front, seen);
      PruneConcat(a, front, seen + {c.dest});
      if c.dest in seen {
        assert seen + Dests(b) == seen + Dests(front);
      } else {
        assert seen + Dests(b) == seen + {c.dest} + Dests(front);
      }
    }
  }

  lemma DistinctConcat(a: seq<Copy>, b: seq<Copy>)
    requires Distinct(a) && Distinct(b) && Dests(a) !! Dests(b)
    ensures Distinct(a + b)
  {
    forall i, j | 0 <= i < j < |a + b|
      ensures (a + b)[i].dest != (a + b)[j].dest
    {
      if i < |a| <= j {
        assert a[i].dest in Dests(a) && b[j - |a|].dest in Dests(b);
      }
    }
  }

  lemma {:induction false} PruneDistinct(ops: seq<Copy>, seen: set<Path>)
    ensures Distinct(Prune(ops, seen))
  {
    if ops != [] {
      var front, c := ops[..|ops| - 1], ops[|ops| - 1];
      PruneDistinct(front, seen);
      PruneDistinct(front, seen + {c.dest});
      PruneDests(front, seen + {c.dest});
      if c.dest !in seen {
        assert Dests([c]) == {c.dest};
        DistinctConcat(Prune(front, seen + {c.dest}), [c]);
      }
    }
  }

  /** Nothing is left to prune in a list without duplicates that avoids `seen`. */
  lemma {:induction false} PruneFixed(ops: seq<Copy>, seen: set<Path>)
    requires Distinct(ops) && Dests(ops) !! seen
    ensures Prune(ops, seen) == ops
  {
    if ops != [] {
      var front, c := ops[..|ops| - 1], ops[|ops| - 1];
      assert ops == front + [c];
      DestsConcat(front, [c]);
      assert c.dest in Dests([c]);
      assert c.dest !in Dests(front);
      PruneFixed(front, seen + {c.dest});
    }
  }

  // ---- The plans

  function Own(b: Bom): seq<Copy> {
    b.sharedObjects + b.files
  }

  /** Pruning a BOM's two lists is pruning its copies in order of precedence. */
  lemma PruneBomOwn(b: Bom, seen: set<Path>)
    ensures Own(PruneBom(b, seen)) == Prune(Own(b), seen)
    ensures Dests(Own(b)) == BomDests(b)
  {
    PruneConcat(b.sharedObjects, b.files, seen);
    DestsConcat(b.sharedObjects, b.files);
  }

  lemma {:induction false} PruneCopiesFlat(boms: seq<Bom>, seen: set<Path>)
    ensures Intended(PruneCopies(boms, seen)) == Prune(Intended(boms), seen)
  {
    if boms != [] {
      var front, b := boms[..|boms| - 1], boms[|boms| - 1];
      PruneCopiesFlat(front, seen + BomDests(b));
      PruneBomOwn(b, seen);
      PruneConcat(Intended(front), Own(b), seen);
      var p := PruneCopies(front, seen + BomDests(b));
      assert (p + [PruneBom(b, seen)])[..|p|] == p;
    }
  }

  lemma {:induction false} PruneLinksFlat(boms: seq<Bom>, seen: set<Path>)
    ensures Links(PruneLinks(boms, seen)) == Prune(Links(boms), seen)
  {
    if boms != [] {
      var front, b := boms[..|boms| - 1], boms[|boms| - 1];
      PruneLinksFlat(front, seen + Dests(b.links));
      PruneConcat(Links(front), b.links, seen);
      var p := PruneLinks(front, seen + Dests(b.links));
      assert (p + [b.(links := Prune(b.links, seen))])[..|p|] == p;
    }
  }

  lemma {:induction false} SameDests(boms: seq<Bom>)
    ensures Dests(Executed(boms)) == Dests(Intended(boms))
  {
    if boms != [] {
      var front, b := boms[..|boms| - 1], boms[|boms| - 1];
      SameDests(front);
      DestsConcat(Executed(front), b.files + b.sharedObjects);
      DestsConcat(b.files, b.sharedObjects);
      DestsConcat(Intended(front), b.sharedObjects + b.files);
      DestsConcat(b.sharedObjects, b.files);
    }
  }

  lemma DistinctSplit(a: seq<Copy>, b: seq<Copy>)
    requires Distinct(a + b)
    ensures Distinct(a) && Distinct(b) && Dests(a) !! Dests(b)
  {
    assert a == (a + b)[..|a|] && b == (a + b)[|a|..];
  }

  /** With pairwise distinct destinations the order of execution does not matter. */
  lemma {:induction false} OrderIrrelevant(boms: seq<Bom>)
    requires Distinct(Intended(boms))
    ensures Distinct(Executed(boms)) && Image(Executed(boms)) == Image(Intended(boms))
  {
    if boms != [] {
      var front, b := boms[..|boms| - 1], boms[|boms| - 1];
      var s, f := b.sharedObjects, b.files;
      DistinctSplit(Intended(front), s + f);
      DistinctSplit(s, f);
      OrderIrrelevant(front);
      SameDests(front);
      DestsConcat(f, s);
      DestsConcat(s, f);
      DistinctConcat(f, s);
      DistinctConcat(Executed(front), f + s);
      SwapDisjoint(s, f);
      ImageConcat(Executed(front), f + s);
      ImageConcat(Intended(front), s + f);
    }
  }

  lemma SwapDisjoint(s: seq<Copy>, f: seq<Copy>)
    requires Dests(s) !! Dests(f)
    ensures Image(f + s) == Image(s + f)
  {
    ImageConcat(s, f);
    ImageConcat(f, s);
    ImageKeys(s);
    ImageKeys(f);
  }

  /**
   After redundancy elimination the surviving copies have pairwise distinct
   destinations, and performing them gives the image that last-writer-wins in order
   of precedence defines; eliminating again changes nothing more.
   */
  lemma CopyEliminationPreservesImage(boms: seq<Bom>)
    ensures var pruned := PruneCopies(boms, {});
      && Distinct(Executed(pruned))
      && Image(Executed(pruned)) == Image(Intended(boms))
      && PruneCopies(pruned, {}) == pruned
  {
    var pruned := PruneCopies(boms, {});
    PruneCopiesFlat(boms, {});
    PruneDistinct(Intended(boms), {});
    PruneImage(Intended(boms), {});
    assert Image(Intended(boms)) - {} == Image(Intended(boms));
    OrderIrrelevant(pruned);
    PruneCopiesFixed(pruned, {});
  }

  lemma {:induction false} PruneCopiesFixed(boms: seq<Bom>, seen: set<Path>)
    requires Distinct(Intended(boms)) && Dests(Intended(boms)) !! seen
    ensures PruneCopies(boms, seen) == boms
  {
    if boms != [] {
      var front, b := boms[..|boms| - 1], boms[|boms| - 1];
      SplitFixed(Intended(front), Own(b), seen);
      PruneBomFixed(b, seen);
      PruneCopiesFixed(front, seen + BomDests(b));
      LastApart(boms);
    }
  }

  lemma LastApart(boms: seq<Bom>)
    requires boms != []
    ensures boms == boms[..|boms| - 1] + [boms[|boms| - 1]]
  {
  }

  lemma SplitFixed(a: seq<Copy>, b: seq<Copy>, seen: set<Path>)
    requires Distinct(a + b) && Dests(a + b) !! seen
    ensures Distinct(a) && Dests(a) !! seen + Dests(b)
    ensures Distinct(b) && Dests(b) !! seen
  {
    DistinctSplit(a, b);
    DestsConcat(a, b);
  }

  lemma PruneBomFixed(b: Bom, seen: set<Path>)
    requires Distinct(Own(b)) && Dests(Own(b)) !! seen
    ensures PruneBom(b, seen) == b && BomDests(b) == Dests(Own(b))
  {
    DistinctSplit(b.sharedObjects, b.files);
    DestsConcat(b.sharedObjects, b.files);
    PruneFixed(b.files, seen);
    PruneFixed(b.sharedObjects, seen + Dests(b.files));
  }

  /** Links keep plain last-writer-wins, each once; eliminating again changes nothing more. */
  lemma LinkEliminationPreservesImage(boms: seq<Bom>)
    ensures var pruned := PruneLinks(boms, {});
      && Distinct(Links(pruned))
      && Image(Links(pruned)) == Image(Links(boms))
      && PruneLinks(pruned, {}) == pruned
  {
    var pruned := PruneLinks(boms, {});
    PruneLinksFlat(boms, {});
    PruneDistinct(Links(boms), {});
    PruneImage(Links(boms), {});
    assert Image(Links(boms)) - {} == Image(Links(boms));
    PruneLinksFixed(pruned, {});
  }

  lemma {:induction false} PruneLinksFixed(boms: seq<Bom>, seen: set<Path>)
    requires Distinct(Links(boms)) && Dests(Links(boms)) !! seen
    ensures PruneLinks(boms, seen) == boms
  {
    if boms != [] {
      var front, b := boms[..|boms| - 1], boms[|boms| - 1];
      SplitFixed(Links(front), b.links, seen);
      PruneFixed(b.links, seen);
      PruneLinksFixed(front, seen + Dests(b.links));
      LastApart(boms);
    }
  }

  /**
   The elimination is not only an optimisation: without it, a shared object would
   overwrite a user file of the same BOM with the same destination.
   */
  lemma EliminationNeeded(x: Path, y: Path, d: Path)
    requires x != y
    ensures exists boms :: Image(Executed(boms)) != Image(Intended(boms))
  {
    var f, s := [Copy(x, d)], [Copy(y, d)];
    var b := Bom([], [], [], f, s);
    OneBom(b);
    ImageConcat(f, s);
    ImageConcat(s, f);
    ImageOne(f[0]);
    ImageOne(s[0]);
    assert Image(Executed([b]))[d] == y && Image(Intended([b]))[d] == x;
  }

  lemma OneBom(b: Bom)
    ensures Executed([b]) == b.files + b.sharedObjects && Intended([b]) == b.sharedObjects + b.files
  {
    assert [b][..0] == [];
  }

  lemma ImageOne(c: Copy)
    ensures Image([c]) == map[c.dest := c.src]
  {
    assert [c][..0] == [];
  }

  lemma {:induction false} PassesIndependent(boms: seq<Bom>, seen: set<Path>)
    ensures Links(PruneCopies(boms, seen)) == Links(boms)
    ensures Intended(PruneLinks(boms, seen)) == Intended(boms)
  {
    if boms != [] {
      var front, b := boms[..|boms| - 1], boms[|boms| - 1];
      PassesIndependent(front, seen + BomDests(b));
      PassesIndependent(front, seen + Dests(b.links));
      var p, q := PruneCopies(front, seen + BomDests(b)), PruneLinks(front, seen + Dests(b.links));
      assert (p + [PruneBom(b, seen)])[..|p|] == p;
      assert (q + [b.(links := Prune(b.links, seen))])[..|q|] == q;
    }
  }

  lemma EliminationPreservesImage(boms: seq<Bom>)
    ensures var res := PruneCopies(PruneLinks(boms, {}), {});
      && Distinct(Links(res)) && Image(Links(res)) == Image(Links(boms))
      && Distinct(Executed(res)) && Image(Executed(res)) == Image(Intended(boms))
  {
    var links := PruneLinks(boms, {});
    LinkEliminationPreservesImage(boms);
    CopyEliminationPreservesImage(links);
    PassesIndependent(links, {});
    PassesIndependent(boms, {});
  }

  /**
   Both passes, in place. What is left has pairwise distinct destinations and, carried
   out in the order of `manage`, gives the links and the image that were intended.
   */
  method RemoveRedundant(boms: array<Bom>)
    modifies boms
    ensures boms[..] == PruneCopies(PruneLinks(old(boms[..]), {}), {})
    ensures Distinct(Links(boms[..])) && Image(Links(boms[..])) == Image(Links(old(boms[..])))
    ensures Distinct(Executed(boms[..])) && Image(Executed(boms[..])) == Image(Intended(old(boms[..])))
  {
    var links := PruneAllLinks(boms[..]);
    PruneLengths(boms[..], {});
    PruneLengths(links, {});
    var res := PruneAllCopies(links);
    EliminationPreservesImage(boms[..]);
    forall i | 0 <= i < boms.Length {
      boms[i] := res[i];
    }
    assert boms[..] == res;
  }
}
