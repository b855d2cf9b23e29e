/** The filecache part of DAV.Purge and DAV.Move (internal/files/dav.go:970-1034, 1055-1176). */
module Dav {
  import opened Common
  import opened Paths
  import opened Filecache
  import opened Sizes
  import opened SqlStore

  /** The folder at `d` is one of `ps` or above one of them. */
  predicate Above(d: string, ps: set<string>) {
    exists p :: p in ps && (d == "/" || AtOrBelow(p, d))
  }

  /** The tables differ in directories only: in sizes, and in the times of those at or above `ps`, which are `now`. */
  ghost predicate SameButSizes(t: Table, u: Table, now: int, ps: set<string>) {
    u.Keys == t.Keys && forall x :: x in t ==> SameButSize(t[x], u[x], now, ps)
  }

  predicate SameButSize(r: Row, q: Row, now: int, ps: set<string>) {
    && q == r.(size := q.size, mtime := if r.isDir && Above(r.path, ps) then now else r.mtime)
    && (!r.isDir ==> q.size == r.size)
  }

  /** The table without what is stored at or below `dst`. */
  function Cleared(t: Table, dst: string): Table {
    map x | x in t && !AtOrBelow(t[x].path, dst) :: t[x]
  }

  /** A row before and after a move, sizes of directories aside. What has moved and the folders it has left and come to
      carry the time `now`. */
  predicate MovedRow(r: Row, q: Row, src: string, dst: string, now: int) {
    && q.path == MovedPath(r.path, src, dst) && q.isDir == r.isDir && q.key == r.key && q.scheme == r.scheme
    && (r.path != src ==> q.name == r.name && q.parent == r.parent)
    && (r.path == src ==> q.name == Base(dst) && q.parent.Some?)
    && (!r.isDir ==> q.size == r.size)
    && (AtOrBelow(r.path, src) ==> q.mtime == now)
    && (!AtOrBelow(r.path, src) ==>
          q.mtime == if r.isDir && Above(r.path, {Dir(src), Dir(dst)}) then now else r.mtime)
  }

  /** `u` is `t` without what was at or below `dst` and with `src` moved there. */
  ghost predicate MovedOver(t: Table, u: Table, src: string, dst: string, now: int) {
    && (forall x :: x in u <==> x in t && !AtOrBelow(t[x].path, dst))
    && forall x :: x in u ==> MovedRow(t[x], u[x], src, dst, now)
  }

  /** What Move promises about its result `r` and the table `u` it leaves; `renamed` is what Storage.Rename
      reports when it is reached. */
  ghost predicate MoveOutcome(t: Table, src: string, dst: string, overwrite: bool, renamed: bool, now: int,
                              r: Result<()>, u: Table) {
    if Lookup(t, src).None? then r == Err(NotFound) && u == t
    else if Lookup(t, dst).None? then
      var guard := RenameGuard(t, src, dst);
      if !renamed then r == Err(Storage) && u == t
      else if guard.Err? then r == Err(guard.error) && u == t
      else r == Ok(()) && MovedOver(t, u, src, dst, now)
    else if !overwrite then r == Err(Exists) && u == t
    else if dst == "/" then r == Err(Forbidden) && u == t
    else if !renamed then r == Err(Storage) && SameButSizes(Cleared(t, dst), u, now, {Dir(dst)})
    else if AtOrBelow(src, dst) then r == Err(NotFound) && SameButSizes(Cleared(t, dst), u, now, {Dir(dst)})
    else if src == "/" then r == Err(Forbidden) && SameButSizes(Cleared(t, dst), u, now, {Dir(dst)})
    else r == Ok(()) && MovedOver(t, u, src, dst, now)
  }

  class Dav {
    const meta: Store

    constructor (meta: Store)
      ensures this.meta == meta
    {
      this.meta := meta;
    }

    /** The filecache part of a write or a mkdir: the new row, then the recalculation from its parent. The name
        is left to the store. */
    method Create(f: Row, id: Id, now: int) returns (r: Result<Id>)
      requires meta.Valid() && id != 0 && id !in meta.rows && f.name == "" && Normalize(f.path) != Ok("/")
      modifies meta
      ensures meta.Valid()
      ensures Normalize(f.path).Err? ==> r == Err(InvalidPath) && meta.rows == old(meta.rows)
      ensures Normalize(f.path).Ok? ==>
        var u := InsertInto(old(meta.rows), id, f, Normalize(f.path).value);
        if u.Ok? then
          && r == Ok(id) && Tree(u.value) && CreatedIn(u.value, id)
          && Recalculated(u.value, meta.rows, u.value[id].parent.value, Some(now))
          && SameButSizes(u.value, meta.rows, now, {Dir(Normalize(f.path).value)}) && meta.rows[id] == u.value[id]
        else r == Err(u.error) && meta.rows == old(meta.rows)
      ensures r.Ok? ==> Usage(meta.rows) == Usage(old(meta.rows)) + if f.isDir then 0 else f.size
      ensures r.Ok? && SizesOk(old(meta.rows)) ==> (SizesOk(meta.rows) <==> (f.isDir ==> f.size == 0))
    {
      hide Tree, Canonical, Normalize, SizesOk, Recalculated, Lookup, Dir, Base, Usage, SameButSizes;
      ghost var t := meta.rows;
      r := meta.Insert(f, id);
      if r.Err? {
        return;
      }
      ghost var u := meta.rows;
      CreatedUnder(t, id, f, Normalize(f.path).value);
      var p := meta.rows[id].parent.value;
      var done := meta.RecalcFrom(p, Some(now));
      RecalcSame(u, meta.rows, p, now);
      NewRowStays(u, meta.rows, id, p, now);
      UsageSame(u, meta.rows, now, {Dir(Normalize(f.path).value)});
      UsageGrows(t, id, u[id]);
      if SizesOk(t) {
        InsertRepairsSizes(t, id, f, Normalize(f.path).value, u, p, meta.rows, Some(now));
      }
    }

    /** Purge: delete the subtree, then recalculate from its parent. */
    method Purge(p: string, now: int) returns (r: Result<()>)
      requires meta.Valid() && Canonical(p)
      modifies meta
      ensures meta.Valid() && (SizesOk(old(meta.rows)) ==> SizesOk(meta.rows))
      ensures r.Ok? <==> p != "/" && Lookup(old(meta.rows), p).Some?
      ensures r.Err? ==> meta.rows == old(meta.rows)
      ensures r.Err? ==> r.error == if Lookup(old(meta.rows), p).None? then NotFound else Forbidden
      ensures r.Ok? ==> SameButSizes(Cleared(old(meta.rows), p), meta.rows, now, {Dir(p)})
      ensures r.Ok? ==> Usage(meta.rows) == Usage(Cleared(old(meta.rows), p))
    {
      hide Tree, Canonical, Normalize, SizesOk, Recalculated, AtOrBelow, Deleted, Usage, SameButSizes;
      ghost var t := meta.rows;
      NormalizeCanonical(p);
      TreeUnique(t);
      var f := meta.GetByPath(p);
      if f.Err? {
        return Err(f.error);
      }
      var parent := meta.rows[f.value].parent;
      r := meta.DeleteSubtree(p);
      if r.Err? {
        return;
      }
      PurgeEnds(t, p, f.value);
      ghost var u := meta.rows;
      var done := meta.RecalcFrom(parent.value, Some(now));
      RecalcSame(u, meta.rows, parent.value, now);
      UsageSame(u, meta.rows, now, {Dir(p)});
      if SizesOk(t) {
        PurgeSizes(t, p, f.value, meta.rows, now);
      }
    }

    /** Move onto a free destination: rename, then one recalculation from the old parent and one from the new. */
    method MoveFree(src: string, dst: string, now: int, fold: char -> char) returns (r: Result<()>)
      requires meta.Valid() && Canonical(src) && Canonical(dst) && !Below(dst, src)
      modifies meta
      ensures meta.Valid() && (SizesOk(old(meta.rows)) ==> SizesOk(meta.rows))
      ensures var t := RenameIn(old(meta.rows), src, dst, now);
              if t.Ok? then r == Ok(()) && SameButSizes(t.value, meta.rows, now, {Dir(src), Dir(dst)})
              else r == Err(t.error) && meta.rows == old(meta.rows)
      ensures Usage(meta.rows) == Usage(old(meta.rows))
    {
      hide Tree, Canonical, Below, Renamed, SizesOk, Recalculated, Usage, SameButSizes;
      ghost var t := meta.rows;
      NormalizeCanonical(src);
      NormalizeCanonical(dst);
      TreeUnique(t);
      var s := meta.GetByPath(src);
      var oldParent := if s.Ok? then meta.rows[s.value].parent else None;
      r := meta.RenameSubtree(src, dst, now, fold);
      if r.Err? {
        return;
      }
      ghost var u := meta.rows;
      ghost var p, q := MoveEnds(t, src, dst, now, s.value);
      TreeUnique(u);
      EndFolders(t, src, dst, now, s.value, p, q);
      var moved := meta.GetByPath(dst);
      var x := meta.RecalcFrom(oldParent.value, Some(now));
      ghost var v := meta.rows;
      var y := meta.RecalcFrom(meta.rows[moved.value].parent.value, Some(now));
      MovedTwice(t, src, dst, now, s.value, u, v, meta.rows, p, q);
      if SizesOk(t) {
        MoveRepairsSizes(t, src, dst, now, s.value, v, meta.rows);
      }
    }

    /** Move. A taken destination is purged first when the caller says overwrite; a source at or below it is
        purged with it. Only the storage can stop a move of a folder into itself: the code has no guard of its
        own, and the second recalculation would not end (see RecalcEndsIff). */
    method Move(srcPath: string, dstPath: string, overwrite: bool, renamed: bool, now: int, fold: char -> char)
      returns (r: Result<()>)
      requires meta.Valid()
      requires renamed && Normalize(srcPath).Ok? && Normalize(dstPath).Ok? ==>
        !Below(Normalize(dstPath).value, Normalize(srcPath).value)
      modifies meta
      ensures meta.Valid() && (SizesOk(old(meta.rows)) ==> SizesOk(meta.rows))
      ensures Normalize(srcPath).Err? || Normalize(dstPath).Err? ==> r == Err(InvalidPath)
      ensures Normalize(srcPath).Ok? && Normalize(dstPath).Ok? ==>
        var src, dst := Normalize(srcPath).value, Normalize(dstPath).value;
        MoveOutcome(old(meta.rows), src, dst, overwrite, renamed, now, r, meta.rows)
    {
      hide Tree, Canonical, Normalize, SizesOk, Below, MoveOutcome, SameButSizes, Lookup;
      ghost var t := meta.rows;
      var ns := NormalizePath(srcPath);
      var nd := NormalizePath(dstPath);
      if ns.Err? || nd.Err? {
        return Err(InvalidPath);
      }
      var src, dst := ns.value, nd.value;
      NormalizeCanonical(srcPath);
      NormalizeCanonical(dstPath);
      NormalizeCanonical(src);
      NormalizeCanonical(dst);
      TreeUnique(t);
      var s := meta.GetByPath(src);
      if s.Err? {
        r := Err(s.error);
        OutcomeEarly(t, src, dst, overwrite, now, r);
        return;
      }
      var taken := meta.GetByPath(dst);
      if taken.Ok? && !overwrite {
        r := Err(Exists);
        OutcomeEarly(t, src, dst, overwrite, now, r);
        return;
      }
      if taken.Ok? {
        r := Purge(dst, now);
        if r.Err? {
          OutcomeEarly(t, src, dst, overwrite, now, r);
          return;
        }
      }
      ghost var u := meta.rows;
      if !renamed {
        r := Err(Storage);
        OutcomeStopped(t, src, dst, overwrite, now, r, u);
        return;
      }
      r := MoveFree(src, dst, now, fold);
      if taken.Ok? {
        OutcomeOver(t, src, dst, u, now, r, meta.rows);
      } else {
        OutcomeFree(t, src, dst, overwrite, now, r, meta.rows);
      }
    }
  }

  lemma OutcomeEarly(t: Table, src: string, dst: string, overwrite: bool, now: int, r: Result<()>)
    requires || (Lookup(t, src).None? && r == Err(NotFound))
             || (Lookup(t, src).Some? && Lookup(t, dst).Some? && !overwrite && r == Err(Exists))
             || (Lookup(t, src).Some? && Lookup(t, dst).Some? && overwrite && dst == "/" && r == Err(Forbidden))
    ensures forall renamed :: MoveOutcome(t, src, dst, overwrite, renamed, now, r, t)
  {
    hide Lookup;
  }

  /** Stopped by the storage, after a purge or without one. */
  lemma OutcomeStopped(t: Table, src: string, dst: string, overwrite: bool, now: int, r: Result<()>, u: Table)
    requires r == Err(Storage) && Lookup(t, src).Some?
    requires if Lookup(t, dst).None? then u == t
             else overwrite && dst != "/" && SameButSizes(Cleared(t, dst), u, now, {Dir(dst)})
    ensures MoveOutcome(t, src, dst, overwrite, false, now, r, u)
  {
    hide Lookup, SameButSizes;
  }

  /** Onto a free destination. */
  lemma OutcomeFree(t: Table, src: string, dst: string, overwrite: bool, now: int, r: Result<()>, u: Table)
    requires Tree(t) && Canonical(src) && Canonical(dst) && Lookup(t, src).Some? && Lookup(t, dst).None?
    requires var m := RenameIn(t, src, dst, now);
             if m.Ok? then r == Ok(()) && SameButSizes(m.value, u, now, {Dir(src), Dir(dst)})
             else r == Err(m.error) && u == t
    ensures MoveOutcome(t, src, dst, overwrite, true, now, r, u)
  {
    hide Tree, Canonical, Lookup, AtOrBelow, RenameGuard, RenamedRow;
    if RenameGuard(t, src, dst).Ok? {
      forall x | x in t
        ensures !AtOrBelow(t[x].path, dst)
      {
        DestinationFree(t, src, dst, x);
      }
      RowsMoved(t, t, src, dst, RenameGuard(t, src, dst).value, now, u);
    }
  }

  /** Row by row, a rename of a table that agrees with `t` up to sizes. */
  lemma RowsMoved(t: Table, m: Table, src: string, dst: string, pid: Id, now: int, u: Table)
    requires forall x :: x in m ==> x in t && (m[x] == t[x] || SameButSize(t[x], m[x], now, {Dir(dst)}))
    requires SameButSizes(Renamed(m, src, dst, pid, now), u, now, {Dir(src), Dir(dst)})
    ensures u.Keys == m.Keys && forall x :: x in u ==> MovedRow(t[x], u[x], src, dst, now)
  {
    hide MovedPath, Base, AtOrBelow;
    assert Renamed(m, src, dst, pid, now).Keys == m.Keys;
    forall x | x in u
      ensures MovedRow(t[x], u[x], src, dst, now)
    {
      RowMoved(t[x], m[x], src, dst, pid, now, u[x]);
    }
  }

  lemma RowMoved(r: Row, m: Row, src: string, dst: string, pid: Id, now: int, q: Row)
    requires m == r || SameButSize(r, m, now, {Dir(dst)})
    requires SameButSize(RenamedRow(m, src, dst, pid, now), q, now, {Dir(src), Dir(dst)})
    ensures MovedRow(r, q, src, dst, now)
  {
    hide Dir, Base;
    assert Above(r.path, {Dir(dst)}) ==> Above(r.path, {Dir(src), Dir(dst)});
  }

  /** Onto a taken destination that has been purged into `m`. */
  lemma OutcomeOver(t: Table, src: string, dst: string, m: Table, now: int, r: Result<()>, u: Table)
    requires Tree(t) && Canonical(src) && Canonical(dst) && Lookup(t, src).Some? && Lookup(t, dst).Some? && dst != "/"
    requires Tree(m) && SameButSizes(Cleared(t, dst), m, now, {Dir(dst)})
    requires var w := RenameIn(m, src, dst, now);
             if w.Ok? then r == Ok(()) && SameButSizes(w.value, u, now, {Dir(src), Dir(dst)})
             else r == Err(w.error) && u == m
    ensures MoveOutcome(t, src, dst, true, true, now, r, u)
  {
    hide Tree, Canonical, Lookup, AtOrBelow, RenamedRow, Dir;
    GuardAfterPurge(t, src, dst, m, now);
    if RenameGuard(m, src, dst).Ok? {
      RowsMoved(t, m, src, dst, RenameGuard(m, src, dst).value, now, u);
    }
  }

  lemma GuardAfterPurge(t: Table, src: string, dst: string, m: Table, now: int)
    requires Tree(t) && Canonical(src) && Canonical(dst) && Lookup(t, src).Some? && Lookup(t, dst).Some? && dst != "/"
    requires Tree(m) && SameButSizes(Cleared(t, dst), m, now, {Dir(dst)})
    ensures AtOrBelow(src, dst) ==> RenameGuard(m, src, dst) == Err(NotFound)
    ensures !AtOrBelow(src, dst) ==>
      if src == "/" then RenameGuard(m, src, dst) == Err(Forbidden) else RenameGuard(m, src, dst).Ok?
  {
    hide Tree, Canonical, Dir, Below;
    var s, a := Lookup(t, src).value, Lookup(t, dst).value;
    ParentAbove(t, a);
    var p := t[a].parent.value;
    assert p in m && m[p].path == Dir(dst) && m[p].isDir;
    TreeUnique(m);
    LookupStored(m, p);
    RootNotBelow(dst);
    if !AtOrBelow(src, dst) {
      assert s in m;
      LookupStored(m, s);
    }
  }

  lemma RootNotBelow(d: string)
    requires Canonical(d) && d != "/"
    ensures !AtOrBelow("/", d)
  {
    hide Canonical;
    CanonicalNonRoot(d);
  }

  /** The parent of a row is a directory above it. */
  lemma ParentAbove(t: Table, a: Id)
    requires Tree(t) && a in t && t[a].path != "/"
    ensures t[a].parent.Some? && t[a].parent.value in t
    ensures var p := t[a].parent.value; t[p].path == Dir(t[a].path) && t[p].isDir && !AtOrBelow(t[p].path, t[a].path)
  {
    hide Dir, Base;
    PathShape(t, a);
    assert RowOk(t, a);
    PathShape'(t, a);
    PathShape(t, t[a].parent.value);
    DirBaseOfJoin(t[t[a].parent.value].path, t[a].name);
  }

  /** The folders a move leaves and comes to stay where they are. */
  lemma EndFolders(t: Table, src: string, dst: string, now: int, s: Id, p: Id, q: Id)
    requires Tree(t) && s in t && t[s].path == src && RenameIn(t, src, dst, now).Ok? && t[s].parent == Some(p) && p in t
    requires !Below(dst, src) && Canonical(src) && Canonical(dst) && RenameGuard(t, src, dst) == Ok(q)
    ensures var u := RenameIn(t, src, dst, now).value;
            p in u && q in u && u[p].path == Dir(src) && u[q].path == Dir(dst)
  {
    hide Dir, Base, Tree, Canonical, Below;
    ParentAbove(t, s);
    TreeUnique(t);
    StaysOutside(t, src, dst, q);
  }

  lemma StaysOutside(t: Table, src: string, dst: string, q: Id)
    requires Tree(t) && Canonical(src) && Canonical(dst) && !Below(dst, src) && RenameGuard(t, src, dst) == Ok(q)
    ensures !AtOrBelow(t[q].path, src)
  {
    hide Dir, Base, Tree, Canonical, Below;
    CanonicalNonRoot(src);
    CanonicalNonRoot(dst);
    BelowJoin(Dir(dst), Base(dst), src);
  }

  lemma RecalcSame(u: Table, v: Table, start: Id, now: int)
    requires Tree(u) && start in u && u[start].isDir && Recalculated(u, v, start, Some(now))
    ensures SameButSizes(u, v, now, {u[start].path})
  {
    hide Tree, Under, SizeOk, Above;
    forall x | x in u
      ensures SameButSize(u[x], v[x], now, {u[start].path})
    {
      UnderIsAbove(u, start, x);
      if Under(u, start, x) {
        AboveIsDir(u, start, x);
      }
    }
  }

  /** The chain to the root is the folders above, by their paths. */
  lemma UnderIsAbove(t: Table, q: Id, x: Id)
    requires Tree(t) && q in t && x in t
    ensures Under(t, q, x) <==> Above(t[x].path, {t[q].path})
  {
    hide Under;
    PathShape(t, x);
    if t[x].parent.Some? {
      UnderIsPrefix(t, q, x);
    } else {
      var root := RootOf(t, q);
      assert root == x;
    }
  }

  /** What lies above a directory is a directory. */
  lemma {:induction false} AboveIsDir(t: Table, x: Id, a: Id)
    requires Tree(t) && x in t && t[x].isDir && Under(t, x, a)
    ensures a in t && t[a].isDir
    decreases |t[x].path|
  {
    if x != a {
      PathShape'(t, x);
      assert RowOk(t, x);
      AboveIsDir(t, t[x].parent.value, a);
    }
  }

  /** The two recalculations of a move leave the renamed table as it is but for directories. */
  lemma MovedTwice(t: Table, src: string, dst: string, now: int, s: Id, u: Table, v: Table, w: Table, p: Id, q: Id)
    requires UniquePaths(t) && RenameIn(t, src, dst, now) == Ok(u) && s in t && t[s].path == src && Tree(u)
    requires p in u && u[p].isDir && q in u && u[q].isDir
    requires Recalculated(u, v, p, Some(now)) && Tree(v) && Recalculated(v, w, q, Some(now))
    requires u[p].path == Dir(src) && u[q].path == Dir(dst)
    ensures SameButSizes(u, w, now, {Dir(src), Dir(dst)}) && Usage(w) == Usage(t)
  {
    hide Tree, RenameIn, Recalculated, Usage, SameButSizes, Dir;
    RecalcSame(u, v, p, now);
    KindKept(u, v, q, now, {Dir(src)});
    RecalcSame(v, w, q, now);
    SameTwice(u, v, w, now, Dir(src), Dir(dst));
    UsageSame(u, w, now, {Dir(src), Dir(dst)});
    RenameKeepsUsage(t, src, dst, now, s);
  }

  lemma KindKept(u: Table, v: Table, x: Id, now: int, ps: set<string>)
    requires SameButSizes(u, v, now, ps) && x in u
    ensures x in v && v[x].isDir == u[x].isDir && v[x].path == u[x].path
  {
    hide Above;
    assert SameButSize(u[x], v[x], now, ps);
  }

  lemma SameTwice(u: Table, v: Table, w: Table, now: int, p: string, q: string)
    requires SameButSizes(u, v, now, {p}) && SameButSizes(v, w, now, {q})
    ensures SameButSizes(u, w, now, {p, q})
  {
    hide Above, AtOrBelow;
    forall x | x in u
      ensures SameButSize(u[x], w[x], now, {p, q})
    {
      AboveEither(u[x].path, p, q);
      assert SameButSize(u[x], v[x], now, {p}) && SameButSize(v[x], w[x], now, {q});
    }
  }

  lemma AboveEither(d: string, p: string, q: string)
    ensures Above(d, {p, q}) <==> Above(d, {p}) || Above(d, {q})
  {
    hide AtOrBelow;
    assert p in {p, q} && q in {p, q} && p in {p} && q in {q};
  }

  /** The new row is not above its parent, so the recalculation leaves it alone. */
  lemma NewRowStays(u: Table, v: Table, id: Id, p: Id, now: int)
    requires Tree(u) && id in u && u[id].parent == Some(p) && p in u && Recalculated(u, v, p, Some(now))
    ensures v[id] == u[id]
  {
    hide Tree, Under, SizeOk;
    NewRowBelow(u, id, p);
  }

  ghost predicate CreatedIn(u: Table, id: Id) {
    id in u && u[id].parent.Some? && u[id].parent.value in u
  }

  // ---------- usage ----------

  lemma SameFiles(t: Table, u: Table)
    requires u.Keys == t.Keys
    requires forall x :: x in t ==> u[x].isDir == t[x].isDir && (!t[x].isDir ==> u[x].size == t[x].size)
    ensures Usage(u) == Usage(t)
  {
    hide Sum;
    var files := set x | x in t && !t[x].isDir;
    var same := set x | x in u && !u[x].isDir;
    assert files == same && Usage(t) == Sum(t, files) && Usage(u) == Sum(u, same);
    SumAgree(t, u, files);
  }

  /** What the user's files weigh does not depend on directories. */
  lemma UsageSame(t: Table, u: Table, now: int, ps: set<string>)
    requires SameButSizes(t, u, now, ps)
    ensures Usage(u) == Usage(t)
  {
    hide Usage, Above;
    assert forall x :: x in t ==> SameButSize(t[x], u[x], now, ps);
    SameFiles(t, u);
  }

  lemma UsageGrows(t: Table, id: Id, r: Row)
    requires id !in t
    ensures Usage(t[id := r]) == Usage(t) + if r.isDir then 0 else r.size
  {
    hide Sum;
    var u := t[id := r];
    var files := set x | x in t && !t[x].isDir;
    SumAgree(t, u, files);
    var more := set x | x in u && !u[x].isDir;
    if r.isDir {
      assert more == files;
    } else {
      assert more == files + {id} && more - {id} == files;
      SumPick(u, more, id);
    }
  }

  /** A rename conserves usage. */
  lemma RenameKeepsUsage(t: Table, src: string, dst: string, now: int, s: Id)
    requires UniquePaths(t) && RenameIn(t, src, dst, now).Ok? && s in t && t[s].path == src
    ensures Usage(RenameIn(t, src, dst, now).value) == Usage(t)
  {
    hide Usage, RenameIn;
    RenamedEnds(t, src, dst, now, s);
    var u := RenameIn(t, src, dst, now).value;
    forall x | x in t
      ensures u[x].isDir == t[x].isDir && u[x].size == t[x].size
    {
      RenameKeepsKind(t, src, dst, now, x);
      RenameKeepsOthers(t, src, dst, now, s, x);
    }
    SameFiles(t, u);
  }

  /** What a purge leaves: the cleared table, with the parent still in it. */
  lemma PurgeEnds(t: Table, p: string, a: Id)
    requires Tree(t) && Canonical(p) && p != "/" && Lookup(t, p) == Some(a)
    ensures DeleteFrom(t, p) == Ok(Cleared(t, p)) && Tree(Cleared(t, p))
    ensures t[a].parent.Some? && t[a].parent.value in Cleared(t, p) && Cleared(t, p)[t[a].parent.value].isDir
    ensures Cleared(t, p)[t[a].parent.value].path == Dir(p)
  {
    hide Tree, Canonical, AtOrBelow, Dir;
    ParentAbove(t, a);
    DeleteExact(t, p);
    var left := map x | x in t && !AtOrBelow(t[x].path, p) :: t[x];
    assert DeleteFrom(t, p) == Ok(left) && left == Cleared(t, p);
  }

  /** The recalculation from the parent repairs what the purge disturbed. */
  lemma PurgeSizes(t: Table, p: string, a: Id, v: Table, now: int)
    requires Tree(t) && SizesOk(t) && Canonical(p) && p != "/" && Lookup(t, p) == Some(a) && Tree(Cleared(t, p))
    requires t[a].parent.Some? && t[a].parent.value in Cleared(t, p)
    requires Recalculated(Cleared(t, p), v, t[a].parent.value, Some(now))
    ensures SizesOk(v)
  {
    hide Tree, Canonical, AtOrBelow, Under, SizeOk;
    var u, q := Cleared(t, p), t[a].parent.value;
    UnderSelf(u, q);
    forall d | d in v && v[d].isDir
      ensures SizeOk(v, d)
    {
      if !Under(u, q, d) {
        ClearedSize(t, p, a, d);
      }
    }
  }

  lemma ClearedSize(t: Table, p: string, a: Id, d: Id)
    requires Tree(t) && Canonical(p) && p != "/" && Lookup(t, p) == Some(a)
    requires d in Cleared(t, p) && t[a].parent != Some(d)
    ensures SizeOk(Cleared(t, p), d) <==> SizeOk(t, d)
  {
    hide Tree, Canonical, SizeOk;
    ParentAbove(t, a);
    forall x | x in t
      ensures x in Cleared(t, p) <==> !Under(t, x, a)
    {
      UnderIsPrefix(t, x, a);
    }
    DropSizes(t, Cleared(t, p), a, d);
  }

  lemma CreatedUnder(t: Table, id: Id, f: Row, np: string)
    requires InsertInto(t, id, f, np).Ok? && np != "/" && id !in t
    ensures var u := InsertInto(t, id, f, np).value;
            CreatedIn(u, id) && u[u[id].parent.value].isDir && u[u[id].parent.value].path == Dir(np)
              && u == t[id := u[id]] && u[id].isDir == f.isDir
              && u[id].size == f.size
  {
    hide Dir, Base;
  }

  /** Moving a path onto itself with overwrite destroys it. */
  lemma MoveOntoItselfLoses(now: int, r: Result<()>, u: Table)
    requires MoveOutcome(TwoRows(), "/a", "/a", true, true, now, r, u)
    ensures Tree(TwoRows()) && Lookup(TwoRows(), "/a") == Some(2) && r == Err(NotFound) && 2 !in u
  {
    hide Tree, Lookup;
    TwoRowsTree();
    assert TwoRows()[2].path == "/a";
  }

  // ---------- where the recalculation ends ----------

  /** The row the loop of RecalcAncestors has come to after `n` turns, or nothing once it has ended. */
  ghost function Climb(t: Table, x: Id, n: nat): Option<Id> {
    if n == 0 then Some(x)
    else
      match Climb(t, x, n - 1)
      case None => None
      case Some(y) => if y in t then t[y].parent else None
  }

  /** In a tree the loop ends. */
  lemma {:induction false} TreeClimbEnds(t: Table, x: Id, n: nat)
    requires Tree(t) && x in t
    ensures var y := Climb(t, x, n); y.Some? ==> y.value in t && |t[y.value].path| + n <= |t[x].path|
  {
    hide Tree;
    if n > 0 {
      TreeClimbEnds(t, x, n - 1);
      var y := Climb(t, x, n - 1);
      if y.Some? && t[y.value].parent.Some? {
        PathShape'(t, y.value);
      }
    }
  }

  /** `x` lies between `q` and its ancestor `s`. */
  ghost predicate Between(t: Table, q: Id, x: Id, s: Id)
    requires Tree(t) && q in t
  {
    x in t && Under(t, q, x) && Under(t, x, s)
  }

  /** With `s` hung below its own descendant `q`, the loop goes round between the two for ever. */
  lemma {:induction false} CycleNeverEnds(t: Table, u: Table, q: Id, s: Id, n: nat)
    requires Tree(t) && q in t && s in t && Under(t, q, s) && u.Keys == t.Keys
    requires u[s].parent == Some(q) && forall x :: x in t && x != s ==> u[x].parent == t[x].parent
    ensures var y := Climb(u, q, n); y.Some? && Between(t, q, y.value, s)
  {
    hide Tree, Under;
    if n == 0 {
      UnderSelf(t, q);
    } else {
      CycleNeverEnds(t, u, q, s, n - 1);
      var y := Climb(u, q, n - 1).value;
      if y == s {
        UnderSelf(t, q);
      } else {
        NextUp(t, q, y, s);
      }
    }
  }

  lemma NextUp(t: Table, q: Id, y: Id, s: Id)
    requires Tree(t) && q in t && Between(t, q, y, s) && y != s
    ensures t[y].parent.Some? && Between(t, q, t[y].parent.value, s)
  {
    if t[y].parent.Some? {
      PathShape'(t, y);
      var p := t[y].parent.value;
      UnderSelf(t, p);
      UnderTransitive(t, q, y, p);
    }
  }

  /** After a rename the recalculation from the new parent ends exactly when the destination is not below the
      source. */
  lemma RecalcEndsIff(t: Table, src: string, dst: string, now: int)
    requires Tree(t) && Canonical(src) && Canonical(dst) && RenameIn(t, src, dst, now).Ok?
    ensures var u, q := RenameIn(t, src, dst, now).value, RenameGuard(t, src, dst).value;
            (exists n: nat :: Climb(u, q, n).None?) <==> !Below(dst, src)
  {
    hide Tree, Canonical, Below, Renamed, Climb, Lookup, Dir;
    var u, q := RenameIn(t, src, dst, now).value, RenameGuard(t, src, dst).value;
    var s := Lookup(t, src).value;
    RenamedEnds(t, src, dst, now, s);
    if Below(dst, src) {
      ParentInside(t, src, dst, s, q);
      forall x | x in t && x != s
        ensures u[x].parent == t[x].parent
      {
        TreeUnique(t);
        RenameKeepsOthers(t, src, dst, now, s, x);
      }
      forall n: nat
        ensures Climb(u, q, n).Some?
      {
        CycleNeverEnds(t, u, q, s, n);
      }
    } else {
      RenameKeepsTree(t, src, dst, now);
      TreeClimbEnds(u, q, |u[q].path| + 1);
      assert Climb(u, q, |u[q].path| + 1).None?;
    }
  }

  lemma ParentInside(t: Table, src: string, dst: string, s: Id, q: Id)
    requires Tree(t) && Canonical(src) && Canonical(dst) && src != "/" && dst != "/" && Below(dst, src)
    requires s in t && t[s].path == src && q in t && t[q].path == Dir(dst)
    ensures Under(t, q, s)
  {
    hide Tree, Canonical, Dir, Base, Below, Under;
    CanonicalNonRoot(src);
    CanonicalNonRoot(dst);
    BelowJoin(Dir(dst), Base(dst), src);
    PathShape(t, s);
    UnderIsPrefix(t, q, s);
  }
}
