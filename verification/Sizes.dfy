/** Directory sizes: what RecalcAncestors repairs and Usage reads (internal/files/sqlstore.go:490-546). */
module Sizes {
  import opened Common
  import opened Paths
  import opened Filecache

  ghost function Sum(t: Table, ids: set<Id>): int
    requires ids <= t.Keys
  {
    if ids == {} then 0 else
      var x :| x in ids;
      t[x].size + Sum(t, ids - {x})
  }

  lemma {:induction false} SumPick(t: Table, ids: set<Id>, x: Id)
    requires ids <= t.Keys && x in ids
    ensures Sum(t, ids) == t[x].size + Sum(t, ids - {x})
  {
    var y :| y in ids && Sum(t, ids) == t[y].size + Sum(t, ids - {y});
    if y != x {
      SumPick(t, ids - {y}, x);
      SumPick(t, ids - {x}, y);
      assert ids - {y} - {x} == ids - {x} - {y};
    }
  }

  lemma {:induction false} SumSplit(t: Table, a: set<Id>, b: set<Id>)
    requires a <= t.Keys && b <= t.Keys && a !! b
    ensures Sum(t, a + b) == Sum(t, a) + Sum(t, b)
  {
    if a == {} {
      assert a + b == b;
    } else {
      var x :| x in a;
      SumPick(t, a, x);
      SumPick(t, a + b, x);
      SumSplit(t, a - {x}, b);
      assert a + b - {x} == (a - {x}) + b;
    }
  }

  lemma {:induction false} SumAgree(t: Table, u: Table, ids: set<Id>)
    requires ids <= t.Keys && ids <= u.Keys
    requires forall x :: x in ids ==> t[x].size == u[x].size
    ensures Sum(t, ids) == Sum(u, ids)
  {
    if ids != {} {
      var x :| x in ids;
      SumPick(t, ids, x);
      SumPick(u, ids, x);
      SumAgree(t, u, ids - {x});
    }
  }

  ghost function Kids(t: Table, d: Id): set<Id> {
    set x | x in t && t[x].parent == Some(d)
  }

  ghost predicate SizeOk(t: Table, d: Id)
    requires d in t
  {
    t[d].size == Sum(t, Kids(t, d))
  }

  /** The size invariant: every directory weighs what its children weigh. */
  ghost predicate SizesOk(t: Table) {
    forall d :: d in t && t[d].isDir ==> SizeOk(t, d)
  }

  /** SELECT SUM(size) ... WHERE is_dir = 0. */
  ghost function Usage(t: Table): int {
    Sum(t, set x | x in t && !t[x].isDir)
  }

  ghost function KidsOf(t: Table, dirs: set<Id>): set<Id> {
    set x | x in t && t[x].parent.Some? && t[x].parent.value in dirs
  }

  lemma {:induction false} KidsWeighAsDirs(t: Table, dirs: set<Id>)
    requires dirs <= t.Keys && forall d :: d in dirs ==> SizeOk(t, d)
    ensures Sum(t, KidsOf(t, dirs)) == Sum(t, dirs)
  {
    if dirs == {} {
      assert KidsOf(t, dirs) == {};
    } else {
      var d :| d in dirs;
      SumPick(t, dirs, d);
      KidsWeighAsDirs(t, dirs - {d});
      SumSplit(t, KidsOf(t, dirs - {d}), Kids(t, d));
      assert KidsOf(t, dirs) == KidsOf(t, dirs - {d}) + Kids(t, d);
    }
  }

  /** Once every directory weighs what its children weigh, the root weighs what the user's files weigh. */
  lemma RootSizeIsUsage(t: Table, root: Id)
    requires Tree(t) && SizesOk(t) && root in t && t[root].parent.None?
    ensures t[root].size == Usage(t)
  {
    var dirs := set x | x in t && t[x].isDir;
    var files := set x | x in t && !t[x].isDir;
    KidsWeighAsDirs(t, dirs);
    NonRootsAreKids(t, root);
    SumSplit(t, files, dirs - {root});
    SumPick(t, dirs, root);
  }

  lemma NonRootsAreKids(t: Table, root: Id)
    requires Tree(t) && root in t && t[root].parent.None?
    ensures var dirs := set x | x in t && t[x].isDir;
            root in dirs && KidsOf(t, dirs) == (set x | x in t && !t[x].isDir) + (dirs - {root})
  {
    var dirs := set x | x in t && t[x].isDir;
    assert RowOk(t, root);
    forall x | x in t
      ensures x in KidsOf(t, dirs) <==> x != root
    {
      assert RowOk(t, x);
    }
  }

  // ---------- RecalcAncestors ----------

  /** `u` differs from `t` in sizes and times of rows on the chain from `start` to the root only; the
      chain is repaired and carries the time `now`, if there is one; every other directory is as good as it was. */
  ghost predicate Recalculated(t: Table, u: Table, start: Id, now: Option<int>)
    requires Tree(t) && start in t
  {
    && u.Keys == t.Keys
    && (forall x :: x in t ==> u[x] == t[x].(size := u[x].size, mtime := u[x].mtime))
    && (forall x :: x in t && !Under(t, start, x) ==> u[x] == t[x])
    && (forall x :: x in t && Under(t, start, x) ==> SizeOk(u, x))
    && (forall x :: x in t && Under(t, start, x) ==> u[x].mtime == if now.Some? then now.value else t[x].mtime)
    && (forall x :: x in t && !Under(t, start, x) ==> (SizeOk(u, x) <==> SizeOk(t, x)))
  }

  /** A table that differs from a tree in sizes and times only is a tree of the same shape. */
  lemma SameShape(t: Table, u: Table)
    requires Tree(t) && u.Keys == t.Keys
    requires forall x :: x in t ==> u[x] == t[x].(size := u[x].size, mtime := u[x].mtime)
    ensures Tree(u)
    ensures forall d :: d in t ==> Kids(t, d) == Kids(u, d)
  {
    SameTree(t, u);
  }

  lemma {:induction false} SameUnder(t: Table, u: Table, x: Id, a: Id)
    requires Tree(t) && Tree(u) && u.Keys == t.Keys && x in t
    requires forall y :: y in t ==> u[y].parent == t[y].parent
    ensures Under(t, x, a) <==> Under(u, x, a)
    decreases |t[x].path|
  {
    if t[x].parent.Some? {
      PathShape'(t, x);
      PathShape'(u, x);
      SameUnder(t, u, t[x].parent.value, a);
    }
  }

  /** One turn of the loop moves the repaired part of the chain up by one row. */
  lemma RecalcStep(t: Table, d: Id, m: int)
    requires Tree(t) && d in t
    ensures var u := t[d := t[d].(size := Sum(t, Kids(t, d)), mtime := m)];
            Tree(u) && SizeOk(u, d) && forall x :: x in t && x != d && t[d].parent != Some(x) ==>
              (SizeOk(u, x) <==> SizeOk(t, x))
  {
    var u := t[d := t[d].(size := Sum(t, Kids(t, d)), mtime := m)];
    SameShape(t, u);
    forall x | x in t && t[d].parent != Some(x)
      ensures Kids(u, x) == Kids(t, x) && Sum(u, Kids(u, x)) == Sum(t, Kids(t, x))
    {
      SumAgree(t, u, Kids(t, x));
    }
    assert d !in Kids(t, d) by {
      if t[d].parent == Some(d) { PathShape'(t, d); }
    }
  }

  lemma RenameKeepsOthers(t: Table, src: string, dst: string, now: int, s: Id, x: Id)
    requires UniquePaths(t) && RenameIn(t, src, dst, now).Ok? && s in t && t[s].path == src && x in t
    ensures RenameIn(t, src, dst, now).value[x].size == t[x].size
    ensures x != s ==> RenameIn(t, src, dst, now).value[x].parent == t[x].parent
  {
  }

  lemma RenameKeepsKind(t: Table, src: string, dst: string, now: int, x: Id)
    requires RenameIn(t, src, dst, now).Ok? && x in t
    ensures RenameIn(t, src, dst, now).value[x].isDir == t[x].isDir
  {
  }

  /** Renaming disturbs the sums of the old and the new parent only. */
  lemma RenameSizes(t: Table, src: string, dst: string, now: int, s: Id, d: Id)
    requires Tree(t) && Canonical(src) && Canonical(dst) && RenameIn(t, src, dst, now).Ok? && !Below(dst, src)
    requires s in t && t[s].path == src && d in t
    requires t[s].parent != Some(d) && RenameIn(t, src, dst, now).value[s].parent != Some(d)
    ensures SizeOk(RenameIn(t, src, dst, now).value, d) <==> SizeOk(t, d)
  {
    var u := RenameIn(t, src, dst, now).value;
    forall x | x in t
      ensures u[x].size == t[x].size && (x != s ==> u[x].parent == t[x].parent)
    {
      RenameKeepsOthers(t, src, dst, now, s, x);
    }
    assert u.Keys == t.Keys;
    SameKids(t, u, s, d);
  }

  lemma SameKids(t: Table, u: Table, s: Id, d: Id)
    requires u.Keys == t.Keys && s in t && d in t
    requires forall x :: x in t ==> u[x].size == t[x].size && (x != s ==> u[x].parent == t[x].parent)
    requires t[s].parent != Some(d) && u[s].parent != Some(d)
    ensures u[d].size == t[d].size && (SizeOk(u, d) <==> SizeOk(t, d))
  {
    assert Kids(u, d) == Kids(t, d);
    SumAgree(t, u, Kids(t, d));
  }

  /** After a rename between directories the two recalculations of Move, from the old and from the new
      parent, leave every directory with the right size, even when their chains overlap. */
  lemma MoveRepairsSizes(t: Table, src: string, dst: string, now: int, s: Id, v: Table, w: Table)
    requires Tree(t) && SizesOk(t) && Canonical(src) && Canonical(dst) && !Below(dst, src)
    requires RenameIn(t, src, dst, now).Ok? && Tree(RenameIn(t, src, dst, now).value)
    requires s in t && t[s].path == src && t[s].parent.Some?
    requires RenameGuard(t, src, dst).value in t && t[s].parent.value in t
    requires Recalculated(RenameIn(t, src, dst, now).value, v, t[s].parent.value, Some(now)) && Tree(v)
    requires Recalculated(v, w, RenameGuard(t, src, dst).value, Some(now))
    ensures SizesOk(w)
  {
    hide Tree, Canonical, RenameGuard, RenameIn, Under, SizeOk;
    var u := RenameIn(t, src, dst, now).value;
    RenamedEnds(t, src, dst, now, s);
    var p, q := t[s].parent.value, RenameGuard(t, src, dst).value;
    UnderSelf(v, q);
    UnderSelf(u, p);
    forall d | d in w && w[d].isDir
      ensures SizeOk(w, d)
    {
      RenameKeepsKind(t, src, dst, now, d);
      if !Under(v, q, d) && !Under(u, p, d) {
        RenameSizes(t, src, dst, now, s, d);
      }
    }
  }

  lemma RenamedEnds(t: Table, src: string, dst: string, now: int, s: Id)
    requires RenameIn(t, src, dst, now).Ok? && s in t && t[s].path == src
    ensures RenameGuard(t, src, dst).Ok? && RenameIn(t, src, dst, now).value.Keys == t.Keys
    ensures RenameIn(t, src, dst, now).value[s].parent == Some(RenameGuard(t, src, dst).value)
  {
  }

  /** If the size equation fails at most on the chain above one entry, RecalcAncestors from there restores it
      everywhere, and the root again weighs what Usage reports. */
  lemma RecalcRepairsAll(t: Table, u: Table, start: Id, root: Id, now: Option<int>)
    requires Tree(t) && start in t && root in t && t[root].parent.None? && Recalculated(t, u, start, now) && Tree(u)
    requires forall d :: d in t && t[d].isDir && !Under(t, start, d) ==> SizeOk(t, d)
    ensures SizesOk(u) && root in u && u[root].size == Usage(u)
  {
    forall d | d in u && u[d].isDir
      ensures SizeOk(u, d)
    {
      assert t[d].isDir;
    }
    RootSizeIsUsage(u, root);
  }

  /** A new row disturbs the sum of its parent only. */
  lemma InsertSizes(t: Table, id: Id, r: Row, d: Id)
    requires id !in t && d in t && r.parent != Some(d)
    ensures SizeOk(t[id := r], d) <==> SizeOk(t, d)
  {
    var u := t[id := r];
    assert Kids(u, d) == Kids(t, d);
    SumAgree(t, u, Kids(t, d));
  }

  /** Dropping a subtree disturbs the sum of its parent only. */
  lemma DropSizes(t: Table, u: Table, a: Id, d: Id)
    requires Tree(t) && a in t && d in u && t[a].parent != Some(d)
    requires forall x :: x in u <==> x in t && !Under(t, x, a)
    requires forall x :: x in u ==> u[x] == t[x]
    ensures SizeOk(u, d) <==> SizeOk(t, d)
  {
    hide Under, Tree, Sum;
    forall x | x in Kids(t, d)
      ensures x in u
    {
      UnderStep(t, x, a);
    }
    assert Kids(u, d) == Kids(t, d);
    SumAgree(t, u, Kids(t, d));
  }

  lemma UnderStep(t: Table, x: Id, a: Id)
    requires Tree(t) && x in t && t[x].parent.Some?
    ensures t[x].parent.value in t && (Under(t, x, a) ==> x == a || Under(t, t[x].parent.value, a))
  {
    PathShape'(t, x);
  }
}
