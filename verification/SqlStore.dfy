/** The raw store: the table as a mutable field and the statements that change it. */
module SqlStore {
  import opened Common
  import opened Paths
  import opened Filecache
  import opened Sizes

  // ---------- Insert ----------

  ghost function InsertGuard(t: Table, np: string): (r: Result<Option<Id>>)
  {
    if np == "/" then (if Lookup(t, np).Some? then Err(Exists) else Ok(None))
    else match Lookup(t, Dir(np))
      case None => Err(ParentMissing)
      case Some(p) =>
        if !t[p].isDir then Err(NotDir) else if Lookup(t, np).Some? then Err(Exists) else Ok(Some(p))
  }

  /** The row written for the caller's `f`, whose name is derived from the path when left empty. */
  function InsertedRow(f: Row, np: string, parent: Option<Id>): Row {
    if parent.None? then f.(path := np, name := "", parent := None, isDir := true)
    else f.(path := np, name := if f.name == "" then Base(np) else f.name, parent := parent)
  }

  /** The row Insert writes, or the error it stops with. */
  ghost function RowToInsert(t: Table, f: Row, np: string): Result<Row> {
    var parent :- InsertGuard(t, np);
    Ok(InsertedRow(f, np, parent))
  }

  ghost function InsertInto(t: Table, id: Id, f: Row, np: string): Result<Table> {
    var r :- RowToInsert(t, f, np);
    Ok(t[id := r])
  }

  /** There is a row, or a directory, at the path. */
  ghost predicate RowAt(t: Table, p: string) {
    exists x :: x in t && t[x].path == p
  }

  ghost predicate FileAt(t: Table, p: string) {
    exists x :: x in t && t[x].path == p && !t[x].isDir
  }

  /** In a tree a stored path has its parent directory. */
  lemma StoredUnder(t: Table, p: string)
    requires Tree(t) && Canonical(p) && p != "/" && RowAt(t, p)
    ensures RowAt(t, Dir(p)) && !FileAt(t, Dir(p))
  {
    hide Canonical, Dir, Base, Join;
    CanonicalNonRoot(p);
    var x :| x in t && t[x].path == p;
    assert RowOk(t, x);
    PathShape(t, x);
    var d := t[x].parent.value;
    PathShape(t, d);
    JoinInjective(t[d].path, t[x].name, Dir(p), Base(p));
    assert forall e :: e in t && t[e].path == Dir(p) ==> e == d;
  }

  /** What an insert answers, and the row it stores: on a tree the three refusals exclude each other. */
  lemma InsertAnswers(t: Table, id: Id, f: Row, np: string)
    requires Tree(t) && Canonical(np) && np != "/"
    ensures var r := InsertInto(t, id, f, np);
            && (r == Err(ParentMissing) <==> !RowAt(t, Dir(np)))
            && (r == Err(NotDir) <==> FileAt(t, Dir(np)))
            && (r == Err(Exists) <==> RowAt(t, np))
            && (r.Ok? <==> RowAt(t, Dir(np)) && !FileAt(t, Dir(np)) && !RowAt(t, np))
            && forall p :: r.Ok? && p in t && t[p].path == Dir(np) ==>
                 r.value == t[id := Row(Some(p), if f.name == "" then Base(np) else f.name, np, f.isDir,
                                        f.size, f.mtime, f.key, f.scheme)]
  {
    hide Canonical, Dir, Base, Tree, Lookup, RowAt, FileAt;
    LookupRow(t, np);
    LookupRow(t, Dir(np));
    if RowAt(t, np) {
      StoredUnder(t, np);
    }
    forall p | p in t && t[p].path == Dir(np)
      ensures Lookup(t, Dir(np)) == Some(p)
    {
      TreeUnique(t);
      LookupStored(t, p);
    }
  }

  /** The root can be inserted into an empty table alone, and is a nameless directory whatever the caller says. */
  lemma InsertRootAnswers(t: Table, id: Id, f: Row)
    requires Tree(t)
    ensures InsertInto(t, id, f, "/") ==
            if t == map[] then Ok(map[id := Row(None, "", "/", true, f.size, f.mtime, f.key, f.scheme)])
            else Err(Exists)
  {
    if Lookup(t, "/").None? {
      EmptyWithoutRoot(t);
    }
  }

  lemma LookupRow(t: Table, p: string)
    requires Tree(t)
    ensures Lookup(t, p).Some? <==> RowAt(t, p)
    ensures FileAt(t, p) <==> Lookup(t, p).Some? && !t[Lookup(t, p).value].isDir
  {
    TreeUnique(t);
    hide Tree;
  }

  /** What a rename answers. */
  lemma RenameAnswers(t: Table, src: string, dst: string, now: int)
    requires Tree(t) && Canonical(src) && Canonical(dst)
    ensures RenameIn(t, src, dst, now) == Err(Forbidden) <==> src == "/" || dst == "/"
    ensures src != "/" && dst != "/" ==>
      var r := RenameIn(t, src, dst, now);
      && (r == Err(NotFound) <==> !RowAt(t, src))
      && (r == Err(Exists) <==> RowAt(t, src) && RowAt(t, dst))
      && (r == Err(ParentMissing) <==> RowAt(t, src) && !RowAt(t, Dir(dst)))
      && (r == Err(NotDir) <==> RowAt(t, src) && FileAt(t, Dir(dst)))
      && (r.Ok? <==> RowAt(t, src) && !RowAt(t, dst) && RowAt(t, Dir(dst)) && !FileAt(t, Dir(dst)))
  {
    hide Canonical, Dir, Renamed, Tree, Lookup, RowAt, FileAt;
    LookupRow(t, src);
    LookupRow(t, dst);
    LookupRow(t, Dir(dst));
    if dst != "/" && RowAt(t, dst) {
      StoredUnder(t, dst);
    }
  }

  /** Insert keeps the tree invariant exactly when the caller's name is empty or the path's own. */
  lemma InsertKeepsTree(t: Table, id: Id, f: Row, np: string)
    requires Tree(t) && Canonical(np) && id != 0 && id !in t && InsertInto(t, id, f, np).Ok?
    ensures Tree(InsertInto(t, id, f, np).value) <==> np == "/" || f.name == "" || f.name == Base(np)
  {
    var r := RowToInsert(t, f, np).value;
    AddedRow(t, id, r);
    InsertedRowOk(t, id, f, np);
  }

  /** An insert at /b under the name "c" succeeds and leaves no tree. */
  lemma InsertOtherNameBreaksTree()
    ensures var t, f := TwoRows(), Row(None, "c", "/b", false, 0, 0, None, 0);
            Tree(t) && Canonical("/b") && InsertInto(t, 3, f, "/b").Ok? && !Tree(InsertInto(t, 3, f, "/b").value)
  {
    hide Tree, Canonical, Dir, Base, Lookup;
    TwoRowsTree();
    PathB();
    InsertKeepsTree(TwoRows(), 3, Row(None, "c", "/b", false, 0, 0, None, 0), "/b");
  }

  lemma InsertedRowOk(t: Table, id: Id, f: Row, np: string)
    requires Tree(t) && Canonical(np) && id !in t && RowToInsert(t, f, np).Ok?
    ensures RowOk(t[id := RowToInsert(t, f, np).value], id) <==> np == "/" || f.name == "" || f.name == Base(np)
  {
    if np != "/" {
      CanonicalNonRoot(np);
      PathShape(t, InsertGuard(t, np).value.value);
      hide Base, Dir, Canonical, Tree, Lookup, Join;
      if Join(Dir(np), Base(np)) == Join(Dir(np), f.name) && ValidName(f.name) {
        JoinInjective(Dir(np), Base(np), Dir(np), f.name);
      }
    }
  }

  /** A row with a fresh id and a free path makes a tree out of a tree if the row itself is in order. */
  lemma AddedRow(t: Table, id: Id, r: Row)
    requires Tree(t) && id != 0 && id !in t && forall x :: x in t ==> t[x].path != r.path
    ensures Tree(t[id := r]) <==> RowOk(t[id := r], id)
  {
    var u := t[id := r];
    forall x | x in t
      ensures RowOk(u, x)
    {
      assert RowOk(t, x);
    }
    assert UniquePaths(u);
  }

  /** After an insert, the recalculation from the new row's parent leaves all sizes right exactly when a new
      directory comes with size 0. */
  lemma InsertRepairsSizes(t: Table, id: Id, f: Row, np: string, u: Table, p: Id, w: Table, now: Option<int>)
    requires Tree(t) && SizesOk(t) && np != "/" && id !in t && InsertInto(t, id, f, np) == Ok(u) && Tree(u)
    requires u[id].parent == Some(p) && p in u && Recalculated(u, w, p, now)
    ensures SizesOk(w) <==> (f.isDir ==> f.size == 0)
  {
    hide Tree, Lookup, Dir, Base, Under, Sum;
    var r := u[id];
    assert u == t[id := r] && r.isDir == f.isDir && r.size == f.size;
    NewRowBelow(u, id, p);
    NewRowSize(t, id, r);
    UnderSelf(u, p);
    forall d | d in w && d != id && w[d].isDir
      ensures SizeOk(w, d)
    {
      if !Under(u, p, d) {
        InsertSizes(t, id, r, d);
      }
    }
  }

  /** A row is not above its parent. */
  lemma NewRowBelow(u: Table, id: Id, p: Id)
    requires Tree(u) && id in u && u[id].parent == Some(p) && p in u
    ensures !Under(u, p, id)
  {
    hide Under, Tree;
    PathShape'(u, id);
    if Under(u, p, id) {
      UnderShortens(u, p, id);
    }
  }

  /** A new row has no children. */
  lemma NewRowSize(t: Table, id: Id, r: Row)
    requires Tree(t) && id !in t && r.parent != Some(id)
    ensures SizeOk(t[id := r], id) <==> r.size == 0
  {
    var u := t[id := r];
    forall x | x in u
      ensures u[x].parent != Some(id)
    {
      if x != id {
        assert RowOk(t, x);
      }
    }
    assert Kids(u, id) == {};
  }

  // ---------- DeleteSubtree ----------

  /** DELETE of row `a` with the foreign-key cascade over parent_id. */
  ghost function Deleted(t: Table, a: Id): Table
    requires Tree(t)
  {
    map x | x in t && !Under(t, x, a) :: t[x]
  }

  ghost function DeleteFrom(t: Table, np: string): Result<Table>
    requires Tree(t)
  {
    if np == "/" then Err(Forbidden)
    else match Lookup(t, np)
      case None => Err(NotFound)
      case Some(a) => Ok(Deleted(t, a))
  }

  /** The cascade removes exactly the rows at or below the path and leaves a tree. */
  lemma DeleteExact(t: Table, np: string)
    requires Tree(t) && Canonical(np) && DeleteFrom(t, np).Ok?
    ensures Tree(DeleteFrom(t, np).value)
    ensures DeleteFrom(t, np).value == map x | x in t && !AtOrBelow(t[x].path, np) :: t[x]
  {
    var a := Lookup(t, np).value;
    var u := Deleted(t, a);
    PathShape(t, a);
    forall x | x in t
      ensures Under(t, x, a) <==> AtOrBelow(t[x].path, np)
    {
      UnderIsPrefix(t, x, a);
    }
    forall x | x in u
      ensures RowOk(u, x)
    {
      assert RowOk(t, x);
    }
  }

  // ---------- the store ----------

  /** What the unique index and the foreign key on parent_id demand of a rewritten row. */
  predicate MetaFits(t: Table, x: Id, r: Row) {
    && (r.parent.Some? ==> r.parent.value in t)
    && forall y :: y in t && y != x ==> t[y].path != r.path
  }

  class Store {
    var rows: Table

    ghost predicate Valid()
      reads this
    {
      Tree(rows)
    }

    constructor ()
      ensures Valid() && rows == map[]
    {
      rows := map[];
    }

    method GetByPath(p: string) returns (r: Result<Id>)
      requires UniquePaths(rows)
      ensures Normalize(p).Err? ==> r == Err(InvalidPath)
      ensures Normalize(p).Ok? ==>
        r == match Lookup(rows, Normalize(p).value) case None => Err(NotFound) case Some(x) => Ok(x)
    {
      var np := NormalizePath(p);
      if np.Err? {
        return Err(InvalidPath);
      }
      var hits := set x | x in rows && rows[x].path == np.value;
      if hits == {} {
        assert forall x :: x in rows ==> x !in hits;
        return Err(NotFound);
      }
      var x :| x in hits;
      LookupStored(rows, x);
      return Ok(x);
    }

    /** UpdateMeta writes every column but name_scheme. A taken path or a missing parent row is refused, an
        unknown id goes unnoticed. */
    method UpdateMeta(x: Id, r: Row) returns (ok: bool)
      modifies this
      ensures ok <==> (x in old(rows) ==> MetaFits(old(rows), x, r))
      ensures ok && x in old(rows) ==>
        (r.parent.Some? ==> r.parent.value in rows) && forall y :: y in rows && y != x ==> rows[y].path != r.path
      ensures !ok ==>
        (r.parent.Some? && r.parent.value !in rows) || exists y :: y in rows && y != x && rows[y].path == r.path
      ensures rows == if ok && x in old(rows) then old(rows)[x := r.(scheme := old(rows)[x].scheme)] else old(rows)
    {
      if x !in rows {
        return true;
      }
      ok := MetaFits(rows, x, r);
      if ok {
        rows := rows[x := r.(scheme := rows[x].scheme)];
      }
    }

    method Insert(f: Row, id: Id) returns (r: Result<Id>)
      requires Valid() && id != 0 && id !in rows
      modifies this
      ensures Normalize(f.path).Err? ==> r == Err(InvalidPath) && rows == old(rows)
      ensures Normalize(f.path).Ok? ==>
        match InsertInto(old(rows), id, f, Normalize(f.path).value)
        case Err(e) => r == Err(e) && rows == old(rows)
        case Ok(t) => r == Ok(id) && rows == t
      ensures r.Err? ==> Valid()
      ensures r.Ok? ==>
        (Valid() <==> Normalize(f.path).value == "/" || f.name == "" || f.name == Base(Normalize(f.path).value))
    {
      hide Tree, Normalize, Canonical, Base, InsertedRow;
      var np := NormalizePath(f.path);
      NormalizeCanonical(f.path);
      if np.Err? {
        return Err(InvalidPath);
      }
      var parent: Option<Id> := None;
      if np.value != "/" {
        CanonicalNonRoot(np.value);
        NormalizeCanonical(Dir(np.value));
        assert UniquePaths(rows) by { TreeUnique(rows); }
        var p := GetByPath(Dir(np.value));
        if p.Err? {
          return Err(ParentMissing);
        }
        if !rows[p.value].isDir {
          return Err(NotDir);
        }
        parent := Some(p.value);
      }
      if x :| x in rows && rows[x].path == np.value {
        assert Lookup(rows, np.value).Some?;
        return Err(Exists);
      }
      InsertKeepsTree(rows, id, f, np.value);
      rows := rows[id := InsertedRow(f, np.value, parent)];
      return Ok(id);
    }

    method DeleteSubtree(p: string) returns (r: Result<()>)
      requires Valid()
      modifies this
      ensures Normalize(p).Err? ==> r == Err(InvalidPath) && rows == old(rows)
      ensures Normalize(p).Ok? ==>
        match DeleteFrom(old(rows), Normalize(p).value)
        case Err(e) => r == Err(e) && rows == old(rows)
        case Ok(t) => r == Ok(()) && rows == t
      ensures Valid()
    {
      var np := NormalizePath(p);
      if np.Err? {
        return Err(InvalidPath);
      }
      if np.value == "/" {
        return Err(Forbidden);
      }
      NormalizeCanonical(p);
      NormalizeCanonical(np.value);
      var f := GetByPath(np.value);
      if f.Err? {
        return Err(NotFound);
      }
      DeleteExact(rows, np.value);
      rows := Cascade(rows, f.value);
      return Ok(());
    }

    /** SELECT ... WHERE path = src OR path LIKE src + "/%", in whatever order the database returns. */
    method SelectSubtree(src: string, fold: char -> char) returns (batch: seq<Id>)
      ensures forall i, j :: 0 <= i < j < |batch| ==> batch[i] != batch[j]
      ensures forall x :: x in batch <==> x in rows && (rows[x].path == src || Like(src + "/%", rows[x].path, fold))
    {
      batch := [];
      var hits := set x | x in rows && (rows[x].path == src || Like(src + "/%", rows[x].path, fold));
      var left := hits;
      while left != {}
        invariant left <= hits
        invariant forall i, j :: 0 <= i < j < |batch| ==> batch[i] != batch[j]
        invariant forall x :: x in hits <==> x in left || x in batch
        invariant forall x :: x in batch ==> x !in left
        decreases |left|
      {
        var x :| x in left;
        batch := batch + [x];
        left := left - {x};
      }
    }

    /** RenameSubtree never meets the unique index on its way and ends in the table RenameIn describes. */
    method RenameSubtree(srcPath: string, dstPath: string, now: int, fold: char -> char) returns (r: Result<()>)
      requires Valid()
      modifies this
      ensures Normalize(srcPath).Err? || Normalize(dstPath).Err? ==> r == Err(InvalidPath) && rows == old(rows)
      ensures Normalize(srcPath).Ok? && Normalize(dstPath).Ok? ==>
        match RenameIn(old(rows), Normalize(srcPath).value, Normalize(dstPath).value, now)
        case Err(e) => r == Err(e) && rows == old(rows)
        case Ok(t) => r == Ok(()) && rows == t
      ensures r.Err? ==> Valid()
      ensures r.Ok? ==> (Valid() <==> !Below(Normalize(dstPath).value, Normalize(srcPath).value))
    {
      var ns := NormalizePath(srcPath);
      var nd := NormalizePath(dstPath);
      if ns.Err? || nd.Err? {
        return Err(InvalidPath);
      }
      var src, dst := ns.value, nd.value;
      NormalizeCanonical(srcPath);
      NormalizeCanonical(dstPath);
      NormalizeCanonical(src);
      NormalizeCanonical(dst);
      if src == "/" || dst == "/" {
        return Err(Forbidden);
      }
      var node := GetByPath(src);
      if node.Err? {
        return Err(NotFound);
      }
      var taken := GetByPath(dst);
      if taken.Ok? {
        return Err(Exists);
      }
      CanonicalNonRoot(dst);
      NormalizeCanonical(Dir(dst));
      var parent := GetByPath(Dir(dst));
      if parent.Err? {
        return Err(ParentMissing);
      }
      if !rows[parent.value].isDir {
        return Err(NotDir);
      }
      RenameKeepsTree(rows, src, dst, now);
      RenameBatch(src, dst, parent.value, now, fold);
      return Ok(());
    }

    /** The batch loop: rows the pattern over-matched are passed over, the others are written one by one. */
    method RenameBatch(src: string, dst: string, pid: Id, now: int, fold: char -> char)
      requires Valid() && Canonical(src) && Canonical(dst) && RenameGuard(rows, src, dst) == Ok(pid)
      modifies this
      ensures rows == Renamed(old(rows), src, dst, pid, now)
    {
      hide Tree, RenameGuard, Canonical, RenamedRow, Like;
      ghost var t := rows;
      var batch := SelectSubtree(src, fold);
      var copies := rows;
      assert rows == PartlyRenamed(t, src, dst, pid, now, {});
      ghost var done: set<Id> := {};
      for i := 0 to |batch|
        invariant done == set x | x in batch[..i]
        invariant rows == PartlyRenamed(t, src, dst, pid, now, done)
      {
        var x := batch[i];
        var f := copies[x];
        assert x in batch;
        RenameStep(t, src, dst, now, done, pid, x);
        PassedOver(f, src, dst, pid, now);
        if f.path == src || Below(f.path, src) {
          StillFits(t, rows, src, dst, now, pid, x);
          var ok := UpdateMeta(x, RenamedRow(f, src, dst, pid, now));
          assert ok;
        }
        done := done + {x};
      }
      forall x | x in t
        ensures rows[x] == RenamedRow(t[x], src, dst, pid, now)
      {
        PassedOver(t[x], src, dst, pid, now);
        if Below(t[x].path, src) {
          LikeCoversBelow(t[x].path, src, fold);
        }
        if AtOrBelow(t[x].path, src) {
          assert x in batch[..|batch|];
        }
      }
      assert rows == Renamed(t, src, dst, pid, now);
    }

    /** EnsureRoot: the root row, created when there is none. */
    method EnsureRoot(id: Id, clock: int) returns (root: Id)
      requires Valid() && id != 0 && id !in rows
      modifies this
      ensures Valid() && root in rows && rows[root].path == "/" && rows[root].parent.None?
      ensures old(rows) != map[] ==> rows == old(rows)
      ensures old(rows) == map[] ==> root == id && rows == map[id := Row(None, "", "/", true, 0, clock, None, 0)]
    {
      hide Tree, Normalize, Canonical, InsertInto;
      RootCanonical();
      TreeUnique(rows);
      var f := GetByPath("/");
      if f.Ok? {
        root := f.value;
        RootHasNoParent(rows, root);
        return;
      }
      EmptyWithoutRoot(rows);
      FirstRow(id, RootRow(clock));
      var r := Insert(RootRow(clock), id);
      root := id;
    }

    /** RecalcAncestors: from the given parent, or from the root when there is none. */
    method RecalcAncestors(start: Option<Id>, id: Id, clock: int, now: Option<int>) returns (r: Result<()>)
      requires Valid() && id != 0 && id !in rows
      modifies this
      ensures Valid()
      ensures start.Some? && start.value !in old(rows) ==> r == Err(NotFound) && rows == old(rows)
      ensures start.Some? && start.value in old(rows) ==> r == Ok(()) && Recalculated(old(rows), rows, start.value, now)
      ensures start.None? ==>
        var t := if old(rows) == map[] then map[id := Row(None, "", "/", true, 0, clock, None, 0)] else old(rows);
        r == Ok(()) && Tree(t) && exists root :: root in t && t[root].parent.None? && Recalculated(t, rows, root, now)
    {
      hide Tree, Recalculated;
      if start.Some? {
        r := RecalcFrom(start.value, now);
      } else {
        var root := EnsureRoot(id, clock);
        r := RecalcFrom(root, now);
      }
    }

    /** The loop, up to the root. */
    method RecalcFrom(start: Id, now: Option<int>) returns (r: Result<()>)
      requires Valid()
      modifies this
      ensures start !in old(rows) ==> r == Err(NotFound) && rows == old(rows)
      ensures start in old(rows) ==> r == Ok(()) && Recalculated(old(rows), rows, start, now)
      ensures Valid()
    {
      if start !in rows {
        return Err(NotFound);
      }
      ghost var t := rows;
      var d := start;
      while true
        invariant Tree(rows) && start in t && d in t && RecalcInv(t, rows, start, d, now)
        decreases |t[d].path|
      {
        var size := SumKids(rows, d);
        var m := if now.Some? then now.value else rows[d].mtime;
        RecalcTurn(t, rows, start, d, now);
        rows := rows[d := rows[d].(size := size, mtime := m)];
        if rows[d].parent.None? {
          return Ok(());
        }
        PathShape'(t, d);
        d := rows[d].parent.value;
      }
    }
  }

  function RootRow(clock: int): Row {
    Row(None, "", "/", true, 0, clock, None, 0)
  }

  lemma RootHasNoParent(t: Table, x: Id)
    requires Tree(t) && x in t && t[x].path == "/"
    ensures t[x].parent.None?
  {
    PathShape(t, x);
  }

  lemma EmptyWithoutRoot(t: Table)
    requires Tree(t) && Lookup(t, "/").None?
    ensures t == map[]
  {
    if x :| x in t {
      var root := RootOf(t, x);
    }
  }

  lemma FirstRow(id: Id, f: Row)
    requires f.parent.None? && f.name == "" && f.path == "/" && f.isDir
    ensures InsertInto(map[], id, f, "/") == Ok(map[id := f])
  {
  }

  /** The two parents of a rename, and where the moved row is found afterwards. */
  lemma MoveEnds(t: Table, src: string, dst: string, now: int, s: Id) returns (p: Id, q: Id)
    requires Tree(t) && Canonical(src) && Canonical(dst) && RenameIn(t, src, dst, now).Ok? && s in t && t[s].path == src
    requires Tree(RenameIn(t, src, dst, now).value)
    ensures var u := RenameIn(t, src, dst, now).value;
            && t[s].parent == Some(p) && p in t && p in u && u[p].isDir && q in t && q in u && u[q].isDir && s in u
            && RenameGuard(t, src, dst) == Ok(q) && u[s].parent == Some(q) && Lookup(u, dst) == Some(s)
  {
    var u := RenameIn(t, src, dst, now).value;
    PathShape(t, s);
    PathShape'(t, s);
    p, q := t[s].parent.value, RenameGuard(t, src, dst).value;
    assert RowOk(t, s);
    assert u[s].path == dst;
    TreeUnique(u);
    LookupStored(u, s);
  }

  /** The row the rename writes passes the foreign key and leaves name_scheme alone. */
  lemma StillFits(t: Table, m: Table, src: string, dst: string, now: int, pid: Id, x: Id)
    requires Tree(t) && RenameGuard(t, src, dst) == Ok(pid) && x in t && m.Keys == t.Keys && m[x] == t[x]
    requires forall y :: y in m && y != x ==> m[y].path != RenamedRow(t[x], src, dst, pid, now).path
    ensures MetaFits(m, x, RenamedRow(t[x], src, dst, pid, now))
    ensures RenamedRow(t[x], src, dst, pid, now).scheme == t[x].scheme
  {
    assert RowOk(t, x);
  }

  lemma PassedOver(r: Row, src: string, dst: string, pid: Id, now: int)
    ensures !AtOrBelow(r.path, src) ==> RenamedRow(r, src, dst, pid, now) == r
  {
  }

  /** Halfway through RecalcAncestors: the rows from `start` up to, not including, `d` are done. */
  ghost predicate RecalcInv(t: Table, u: Table, start: Id, d: Id, now: Option<int>)
    requires Tree(t) && start in t && d in t
  {
    && u.Keys == t.Keys
    && Under(t, start, d)
    && (forall x :: x in t ==> u[x] == t[x].(size := u[x].size, mtime := u[x].mtime))
    && (forall x :: x in t && (Under(t, start, x) ==> Under(t, d, x)) ==> u[x] == t[x])
    && (forall x :: x in t && Under(t, start, x) && !Under(t, d, x) ==> SizeOk(u, x))
    && (forall x :: x in t && Under(t, start, x) && !Under(t, d, x) ==>
          u[x].mtime == if now.Some? then now.value else t[x].mtime)
    && (forall x :: x in t && !Under(t, start, x) ==> (SizeOk(u, x) <==> SizeOk(t, x)))
  }

  lemma RecalcTurn(t: Table, u: Table, start: Id, d: Id, now: Option<int>)
    requires Tree(t) && start in t && d in t && Tree(u) && RecalcInv(t, u, start, d, now)
    ensures var m := if now.Some? then now.value else u[d].mtime;
            var v := u[d := u[d].(size := Sum(u, Kids(u, d)), mtime := m)];
            && Tree(v)
            && (t[d].parent.Some? ==> t[d].parent.value in t && RecalcInv(t, v, start, t[d].parent.value, now))
            && (t[d].parent.None? ==> Recalculated(t, v, start, now))
  {
    hide Tree, Under, SizeOk, UniquePaths;
    var m := if now.Some? then now.value else u[d].mtime;
    var v := u[d := u[d].(size := Sum(u, Kids(u, d)), mtime := m)];
    RecalcStep(u, d, m);
    ChainStep(t, start, d);
    assert u[d].parent == t[d].parent;
    if t[d].parent.Some? {
      UnderTransitive(t, start, d, t[d].parent.value);
    }
  }

  /** The rest of a chain: all of it under the chain's start, and its first row is not above its second. */
  lemma ChainStep(t: Table, start: Id, d: Id)
    requires Tree(t) && start in t && d in t && Under(t, start, d)
    ensures forall x :: x in t && Under(t, d, x) ==> Under(t, start, x)
    ensures t[d].parent.Some? ==>
      && t[d].parent.value in t
      && forall x :: x in t ==> (Under(t, d, x) <==> x == d || Under(t, t[d].parent.value, x))
    ensures t[d].parent.Some? ==> !Under(t, t[d].parent.value, d)
    ensures t[d].parent.None? ==> forall x :: x in t ==> (Under(t, d, x) <==> x == d)
    ensures Under(t, d, d) && (t[d].parent.Some? ==> Under(t, d, t[d].parent.value))
  {
    forall x | x in t && Under(t, d, x)
      ensures Under(t, start, x)
    {
      UnderTransitive(t, start, d, x);
    }
    if t[d].parent.Some? {
      PathShape'(t, d);
      if Under(t, t[d].parent.value, d) {
        UnderShortens(t, t[d].parent.value, d);
      }
    }
  }

  lemma {:induction false} UnderTransitive(t: Table, x: Id, a: Id, b: Id)
    requires Tree(t) && x in t && a in t && Under(t, x, a) && Under(t, a, b)
    ensures Under(t, x, b)
    decreases |t[x].path|
  {
    if x != a {
      PathShape'(t, x);
      UnderTransitive(t, t[x].parent.value, a, b);
    }
  }

  lemma {:induction false} UnderShortens(t: Table, x: Id, a: Id)
    requires Tree(t) && x in t && Under(t, x, a)
    ensures a in t && |t[a].path| <= |t[x].path|
    decreases |t[x].path|
  {
    if x != a {
      PathShape'(t, x);
      UnderShortens(t, t[x].parent.value, a);
    }
  }

  /** ListChildren followed by the summing loop. */
  method SumKids(t: Table, d: Id) returns (size: int)
    ensures size == Sum(t, Kids(t, d))
  {
    size := 0;
    var left := set x | x in t && t[x].parent == Some(d);
    assert left == Kids(t, d);
    while left != {}
      invariant left <= t.Keys
      invariant size + Sum(t, left) == Sum(t, Kids(t, d))
      decreases |left|
    {
      var x :| x in left;
      SumPick(t, left, x);
      size := size + t[x].size;
      left := left - {x};
    }
  }

  /** The cascade as the database runs it: drop the row, then every row whose parent is gone. */
  method Cascade(t: Table, a: Id) returns (u: Table)
    requires Tree(t) && a in t
    ensures u == Deleted(t, a)
  {
    hide Tree, Under;
    u := t - {a};
    assert Under(t, a, a) by { UnderSelf(t, a); }
    while exists x :: x in u && u[x].parent.Some? && u[x].parent.value !in u
      invariant u.Keys <= t.Keys && a !in u
      invariant forall x :: x in u ==> u[x] == t[x]
      invariant forall x :: x in t && x !in u ==> Under(t, x, a)
      decreases |u|
    {
      var x :| x in u && u[x].parent.Some? && u[x].parent.value !in u;
      OrphanUnder(t, x, a);
      assert (u - {x}).Keys == u.Keys - {x};
      u := u - {x};
    }
    forall x | x in u
      ensures !Under(t, x, a)
    {
      ClosedAvoids(t, u, x, a);
    }
    assert u == Deleted(t, a);
  }

  lemma OrphanUnder(t: Table, x: Id, a: Id)
    requires Tree(t) && x in t && t[x].parent.Some?
    ensures t[x].parent.value in t
    ensures Under(t, t[x].parent.value, a) ==> Under(t, x, a)
  {
    PathShape'(t, x);
  }

  lemma {:induction false} ClosedAvoids(t: Table, u: Table, x: Id, a: Id)
    requires Tree(t) && u.Keys <= t.Keys && x in u && a !in u
    requires forall y :: y in u ==> u[y] == t[y] && (t[y].parent.Some? ==> t[y].parent.value in u)
    ensures !Under(t, x, a)
    decreases |t[x].path|
  {
    if t[x].parent.Some? {
      PathShape'(t, x);
      ClosedAvoids(t, u, t[x].parent.value, a);
    }
  }
}
