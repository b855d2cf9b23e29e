/** The filecache table of one user (internal/files/sqlstore.go): rows with materialised paths. */
module Filecache {
  import opened Common
  import opened Paths

  type Id = nat
  type Key = nat

  datatype Row = Row(
    parent: Option<Id>,
    name: string,
    path: string,
    isDir: bool,
    size: int,
    mtime: int,
    key: Option<Key>,
    scheme: int)

  type Table = map<Id, Row>

  // ---------- the tree invariant ----------

  /** UNIQUE(user_id, path). */
  ghost predicate UniquePaths(t: Table) {
    forall x, y :: x in t && y in t && t[x].path == t[y].path ==> x == y
  }

  ghost predicate RowOk(t: Table, x: Id)
    requires x in t
  {
    var r := t[x];
    match r.parent
    case None => r.path == "/" && r.name == "" && r.isDir
    case Some(p) => p in t && t[p].isDir && ValidName(r.name) && r.path == Join(t[p].path, r.name)
  }

  /** Unique paths, and every path is its parent directory's path joined with the row's name.
      Parent cycles are impossible because a child's path is longer than its parent's. */
  ghost predicate Tree(t: Table) {
    && 0 !in t
    && UniquePaths(t)
    && forall x :: x in t ==> RowOk(t, x)
  }

  lemma TreeUnique(t: Table)
    requires Tree(t)
    ensures UniquePaths(t)
  {
  }

  lemma SameRows(v: Table, w: Table)
    requires (forall x :: x in v <==> x in w) && forall x :: x in v ==> v[x] == w[x]
    ensures v == w
  {
  }

  /** The invariant reads ids, parents, names, paths and kinds only. */
  lemma SameTree(t: Table, u: Table)
    requires Tree(t) && u.Keys == t.Keys
    requires forall x :: x in t ==>
      u[x].parent == t[x].parent && u[x].name == t[x].name && u[x].path == t[x].path && u[x].isDir == t[x].isDir
    ensures Tree(u)
  {
    forall x | x in u
      ensures RowOk(u, x)
    {
      assert RowOk(t, x);
    }
  }

  lemma {:induction false} PathShape(t: Table, x: Id)
    requires Tree(t) && x in t
    ensures t[x].path != "" && (t[x].path == "/" <==> t[x].parent.None?)
    decreases |t[x].path|
  {
    assert RowOk(t, x);
    if t[x].parent.Some? {
      PathShape'(t, x);
    }
  }

  lemma PathShape'(t: Table, x: Id)
    requires Tree(t) && x in t && t[x].parent.Some?
    ensures t[x].parent.value in t && |t[t[x].parent.value].path| < |t[x].path|
    ensures |t[x].path| > 1
  {
    assert RowOk(t, x);
  }

  /** `a` is `x` or one of its ancestors. */
  ghost predicate Under(t: Table, x: Id, a: Id)
    requires Tree(t) && x in t
    decreases |t[x].path|
  {
    x == a || (t[x].parent.Some? && (PathShape'(t, x); Under(t, t[x].parent.value, a)))
  }

  lemma UnderSelf(t: Table, x: Id)
    requires Tree(t) && x in t
    ensures Under(t, x, x)
  {
  }

  /** `p` is `d` or lies below it: the string test the store applies. */
  predicate AtOrBelow(p: string, d: string) {
    p == d || Below(p, d)
  }

  /** Being a descendant in the parent relation is the same as having the prefix in the path. */
  lemma {:induction false} UnderIsPrefix(t: Table, x: Id, a: Id)
    requires Tree(t) && x in t && a in t && t[a].parent.Some?
    ensures Under(t, x, a) <==> AtOrBelow(t[x].path, t[a].path)
    decreases |t[x].path|
  {
    PathShape(t, a);
    PathShape(t, x);
    if t[x].parent.Some? {
      var p := t[x].parent.value;
      PathShape'(t, x);
      PathShape(t, p);
      assert RowOk(t, x);
      UnderIsPrefix(t, p, a);
      BelowJoin(t[p].path, t[x].name, t[a].path);
    }
  }

  /** Every path above a stored path is stored, and is a directory. */
  lemma {:induction false} AncestorStored(t: Table, x: Id, d: string) returns (a: Id)
    requires Tree(t) && x in t && d != "" && d != "/" && Below(t[x].path, d)
    ensures a in t && t[a].path == d && t[a].isDir && t[a].parent.Some? && Under(t, x, a)
    decreases |t[x].path|
  {
    PathShape(t, x);
    assert RowOk(t, x);
    PathShape'(t, x);
    a := t[x].parent.value;
    PathShape(t, a);
    BelowJoin(t[a].path, t[x].name, d);
    if t[a].path != d {
      a := AncestorStored(t, a, d);
    }
  }

  /** Every row lies under the root. */
  lemma {:induction false} RootOf(t: Table, x: Id) returns (root: Id)
    requires Tree(t) && x in t
    ensures root in t && t[root].path == "/" && t[root].isDir && Under(t, x, root)
    decreases |t[x].path|
  {
    assert RowOk(t, x);
    match t[x].parent
    case None => root := x;
    case Some(p) =>
      PathShape'(t, x);
      root := RootOf(t, p);
  }

  // ---------- GetByPath ----------

  ghost function Lookup(t: Table, p: string): (r: Option<Id>)
    ensures r.Some? ==> r.value in t && t[r.value].path == p
    ensures r.None? ==> forall x :: x in t ==> t[x].path != p
  {
    if x :| x in t && t[x].path == p then Some(x) else None
  }

  lemma LookupStored(t: Table, x: Id)
    requires UniquePaths(t) && x in t
    ensures Lookup(t, t[x].path) == Some(x)
  {
  }

  // ---------- RenameSubtree ----------

  /** Where the switch statement of the rename loop sends a path. */
  function MovedPath(p: string, src: string, dst: string): string {
    if p == src then dst else if Below(p, src) then Rebase(p, src, dst) else p
  }

  /** One row of the rename batch after the switch statement. */
  function RenamedRow(r: Row, src: string, dst: string, pid: Id, now: int): Row {
    if r.path == src then r.(path := dst, name := Base(dst), parent := Some(pid), mtime := now)
    else if Below(r.path, src) then r.(path := Rebase(r.path, src, dst), mtime := now)
    else r
  }

  function Renamed(t: Table, src: string, dst: string, pid: Id, now: int): Table {
    map x | x in t :: RenamedRow(t[x], src, dst, pid, now)
  }

  /** The guards of RenameSubtree, in order, on canonical paths. */
  ghost function RenameGuard(t: Table, src: string, dst: string): (r: Result<Id>)
    ensures r.Ok? ==> r.value in t && t[r.value].path == Dir(dst) && t[r.value].isDir
  {
    if src == "/" || dst == "/" then Err(Forbidden)
    else if Lookup(t, src).None? then Err(NotFound)
    else if Lookup(t, dst).Some? then Err(Exists)
    else match Lookup(t, Dir(dst))
      case None => Err(ParentMissing)
      case Some(pid) => if t[pid].isDir then Ok(pid) else Err(NotDir)
  }

  ghost function RenameIn(t: Table, src: string, dst: string, now: int): Result<Table> {
    match RenameGuard(t, src, dst)
    case Err(e) => Err(e)
    case Ok(pid) => Ok(Renamed(t, src, dst, pid, now))
  }

  lemma CanonicalNonRoot(p: string)
    requires Canonical(p) && p != "/"
    ensures p != "" && ValidName(Base(p)) && Dir(p) != "" && Join(Dir(p), Base(p)) == p && Canonical(Dir(p))
  {
    hide Dir, Base, Segments, JoinAll;
    SegmentsCanonical(p);
    var segs := Segments(p);
    var init, n := segs[..|segs| - 1], segs[|segs| - 1];
    assert segs == init + [n];
    JoinAllSnoc("/", init, n);
    assert Canonical(Render(init));
    SegmentsCanonical(Render(init));
    DirBaseOfJoin(Render(init), n);
  }

  /** Facts shared by the rename proofs: nothing is stored at or below the free destination. */
  lemma DestinationFree(t: Table, src: string, dst: string, x: Id)
    requires Tree(t) && Canonical(src) && Canonical(dst) && RenameGuard(t, src, dst).Ok? && x in t
    ensures !AtOrBelow(t[x].path, dst)
  {
    CanonicalNonRoot(dst);
    if Below(t[x].path, dst) {
      var a := AncestorStored(t, x, dst);
      LookupStored(t, a);
    }
  }

  lemma MovedPathAt(p: string, src: string, dst: string)
    requires AtOrBelow(p, src)
    ensures AtOrBelow(MovedPath(p, src, dst), dst)
  {
    if p != src {
      assert Rebase(p, src, dst)[..|dst| + 1] == dst + "/";
    }
  }

  lemma MovedPathInjective(p: string, q: string, src: string, dst: string)
    requires AtOrBelow(p, src) && AtOrBelow(q, src) && MovedPath(p, src, dst) == MovedPath(q, src, dst)
    ensures p == q
  {
    if p != src && q != src {
      RebaseInjective(p, q, src, dst);
    }
  }

  /** The table when the rows in `done` have been updated and the rest of the batch has not. */
  function PartlyRenamed(t: Table, src: string, dst: string, pid: Id, now: int, done: set<Id>): Table {
    map x | x in t :: if x in done then RenamedRow(t[x], src, dst, pid, now) else t[x]
  }

  lemma RenameStepPair(p: string, q: string, src: string, dst: string, p': string, q': string)
    requires !AtOrBelow(p, dst) && !AtOrBelow(q, dst)
    requires p' == p || p' == MovedPath(p, src, dst)
    requires q' == q || q' == MovedPath(q, src, dst)
    ensures p' == q' ==> p == q
  {
    if AtOrBelow(p, src) {
      MovedPathAt(p, src, dst);
    }
    if AtOrBelow(q, src) {
      MovedPathAt(q, src, dst);
    }
    if AtOrBelow(p, src) && AtOrBelow(q, src) && MovedPath(p, src, dst) == MovedPath(q, src, dst) {
      MovedPathInjective(p, q, src, dst);
    }
  }

  /** Paths stay unique after every single-row update of the rename loop, whichever rows are done. */
  lemma RenameStepUnique(t: Table, src: string, dst: string, now: int, done: set<Id>, pid: Id)
    requires Tree(t) && Canonical(src) && Canonical(dst) && RenameGuard(t, src, dst).Ok?
    ensures UniquePaths(PartlyRenamed(t, src, dst, pid, now, done))
  {
    var m := PartlyRenamed(t, src, dst, pid, now, done);
    forall x, y | x in m && y in m && m[x].path == m[y].path
      ensures x == y
    {
      DestinationFree(t, src, dst, x);
      DestinationFree(t, src, dst, y);
      RenameStepPair(t[x].path, t[y].path, src, dst, m[x].path, m[y].path);
    }
  }

  /** One more row of the batch: its new path is free. */
  lemma RenameStep(t: Table, src: string, dst: string, now: int, done: set<Id>, pid: Id, x: Id)
    requires Tree(t) && Canonical(src) && Canonical(dst) && RenameGuard(t, src, dst).Ok? && x in t && x !in done
    ensures var m := PartlyRenamed(t, src, dst, pid, now, done);
            var r := RenamedRow(t[x], src, dst, pid, now);
            && m[x] == t[x]
            && m[x := r] == PartlyRenamed(t, src, dst, pid, now, done + {x})
            && (forall y :: y in m && y != x ==> m[y].path != r.path)
            && (r == t[x] ==> m == PartlyRenamed(t, src, dst, pid, now, done + {x}))
  {
    hide RenamedRow, Tree, RenameGuard, Canonical;
    var m := PartlyRenamed(t, src, dst, pid, now, done);
    var n := PartlyRenamed(t, src, dst, pid, now, done + {x});
    RenameStepUnique(t, src, dst, now, done + {x}, pid);
    forall y | y in m && y != x
      ensures m[y].path != n[x].path
    {
      assert m[y].path == n[y].path;
    }
  }

  lemma RenamedRowOk(t: Table, src: string, dst: string, now: int, x: Id)
    requires Tree(t) && Canonical(src) && Canonical(dst) && RenameGuard(t, src, dst).Ok?
    requires !AtOrBelow(dst, src) && x in t
    ensures RowOk(Renamed(t, src, dst, RenameGuard(t, src, dst).value, now), x)
  {
    var pid := RenameGuard(t, src, dst).value;
    var m := Renamed(t, src, dst, pid, now);
    CanonicalNonRoot(src);
    CanonicalNonRoot(dst);
    PathShape(t, x);
    assert RowOk(t, x);
    if t[x].path == src {
      BelowJoin(Dir(dst), Base(dst), src);
      assert m[pid] == t[pid];
    } else if t[x].parent.Some? {
      var p := t[x].parent.value;
      PathShape(t, p);
      BelowJoin(t[p].path, t[x].name, src);
      if Below(t[x].path, src) {
        RebaseJoin(t[p].path, t[x].name, src, dst);
      }
    }
  }

  /** RenameSubtree keeps the tree invariant exactly when the destination is not below the source.
      The code has no guard for that case: the moved row would become its own ancestor. */
  lemma RenameKeepsTree(t: Table, src: string, dst: string, now: int)
    requires Tree(t) && Canonical(src) && Canonical(dst) && RenameIn(t, src, dst, now).Ok?
    ensures Tree(RenameIn(t, src, dst, now).value) <==> !Below(dst, src)
  {
    var pid := RenameGuard(t, src, dst).value;
    var m := Renamed(t, src, dst, pid, now);
    var s := Lookup(t, src).value;
    CanonicalNonRoot(src);
    CanonicalNonRoot(dst);
    assert forall x :: x in m ==> x in t;
    hide Canonical, Base, Dir, Below, Renamed, RenamedRow;
    if Below(dst, src) {
      RenameCycle(t, src, dst, now, s);
    } else {
      RenameStepUnique(t, src, dst, now, t.Keys, pid);
      AllRenamed(t, src, dst, pid, now);
      forall x | x in m
        ensures RowOk(m, x)
      {
        RenamedRowOk(t, src, dst, now, x);
      }
    }
  }

  lemma AllRenamed(t: Table, src: string, dst: string, pid: Id, now: int)
    ensures Renamed(t, src, dst, pid, now) == PartlyRenamed(t, src, dst, pid, now, t.Keys)
  {
    hide RenamedRow;
  }

  lemma RenameCycle(t: Table, src: string, dst: string, now: int, s: Id)
    requires Tree(t) && Canonical(src) && Canonical(dst) && RenameGuard(t, src, dst).Ok?
    requires Below(dst, src) && s in t && t[s].path == src
    ensures !RowOk(Renamed(t, src, dst, RenameGuard(t, src, dst).value, now), s)
  {
    var pid := RenameGuard(t, src, dst).value;
    CanonicalNonRoot(src);
    CanonicalNonRoot(dst);
    BelowJoin(Dir(dst), Base(dst), src);
    MovedPathAt(t[pid].path, src, dst);
    assert Renamed(t, src, dst, pid, now)[pid].path == MovedPath(t[pid].path, src, dst);
  }

  /** A root directory holding the one directory "a". */
  function TwoRows(): Table {
    map[1 := Row(None, "", "/", true, 0, 0, None, 0), 2 := Row(Some(1), "a", "/a", true, 0, 0, None, 0)]
  }

  lemma TwoPaths()
    ensures Canonical("/a") && Canonical("/a/b") && Dir("/a/b") == "/a" && Base("/a/b") == "b" && Below("/a/b", "/a")
  {
    hide Canonical, Dir, Base;
    assert Join("/", "a") == "/a" && Join("/a", "b") == "/a/b";
    DirBaseOfJoin("/a", "b");
    assert "/a/b"[..3] == "/a" + "/";
    TwoRendered();
  }

  lemma TwoRendered()
    ensures Canonical("/a") && Canonical("/a/b")
  {
    assert Render(["a"]) == "/a" by { JoinAllSnoc("/", [], "a"); assert [] + ["a"] == ["a"]; }
    assert Render(["a", "b"]) == "/a/b" by { JoinAllSnoc("/", ["a"], "b"); assert ["a"] + ["b"] == ["a", "b"]; }
    assert ValidNames(["a"]) && ValidNames(["a", "b"]);
  }

  lemma PathB()
    ensures Canonical("/b") && Dir("/b") == "/" && Base("/b") == "b" && ValidName("b")
  {
    assert Join("/", "b") == "/b";
    DirBaseOfJoin("/", "b");
    assert Render(["b"]) == "/b" by { JoinAllSnoc("/", [], "b"); assert [] + ["b"] == ["b"]; }
    assert ValidNames(["b"]);
  }

  lemma TwoRowsTree()
    ensures Tree(TwoRows()) && Lookup(TwoRows(), "/") == Some(1) && Lookup(TwoRows(), "/a") == Some(2)
    ensures Lookup(TwoRows(), "/b").None? && Lookup(TwoRows(), "/a/b").None?
  {
    var t := TwoRows();
    assert Join("/", "a") == "/a";
    assert t[2].path == "/a" && t[1].path == "/";
    LookupStored(t, 1);
    LookupStored(t, 2);
  }

  /** A two-row tree on which the raw rename breaks the invariant. */
  lemma RenameBelowItselfBreaksTree()
    ensures var t := TwoRows();
            Tree(t) && Canonical("/a") && Canonical("/a/b") && RenameIn(t, "/a", "/a/b", 7).Ok?
              && !Tree(RenameIn(t, "/a", "/a/b", 7).value)
  {
    hide Canonical, Tree, Lookup, Dir, Base, Renamed, Below;
    TwoPaths();
    TwoRowsTree();
    RenameKeepsTree(TwoRows(), "/a", "/a/b", 7);
  }

  /** In the parent relation: exactly the rows under the source row change, in path and time and in nothing else; only
      the source row itself also gets its new name and parent. All others stay as they are. */
  lemma RenameMovesSubtree(t: Table, src: string, dst: string, now: int, s: Id, x: Id)
    requires Tree(t) && Canonical(src) && Canonical(dst) && RenameIn(t, src, dst, now).Ok?
    requires s in t && t[s].path == src && x in t
    ensures var r := RenameIn(t, src, dst, now).value[x];
            if !Under(t, x, s) then r == t[x]
            else
              && r.path != t[x].path && r.path == dst + t[x].path[|src|..] && r.mtime == now
              && if x != s then r == t[x].(path := r.path, mtime := now)
                 else r == t[s].(path := dst, name := Base(dst), parent := Lookup(t, Dir(dst)), mtime := now)
  {
    CanonicalNonRoot(src);
    PathShape(t, s);
    UnderIsPrefix(t, x, s);
    DestinationFree(t, src, dst, x);
    if AtOrBelow(t[x].path, src) {
      MovedPathAt(t[x].path, src, dst);
      MovedPathForm(t[x].path, src, dst);
    }
  }

  lemma MovedPathForm(p: string, src: string, dst: string)
    requires AtOrBelow(p, src)
    ensures MovedPath(p, src, dst) == dst + p[|src|..]
  {
    if p == src {
      assert p[|src|..] == "" && dst + "" == dst;
    } else {
      assert p[|src|] == p[..|src| + 1][|src|] == '/';
      assert p[|src|..] == "/" + p[|src| + 1..];
      assert dst + ("/" + p[|src| + 1..]) == dst + "/" + p[|src| + 1..];
    }
  }

  // ---------- LIKE ----------

  /** SQL LIKE without an escape character; `fold` is the identity or the dialect's case folding. */
  predicate Like(pattern: string, s: string, fold: char -> char)
    decreases |pattern|
  {
    if pattern == "" then s == ""
    else if pattern[0] == '%' then exists k :: 0 <= k <= |s| && Like(pattern[1..], s[k..], fold)
    else s != "" && (pattern[0] == '_' || fold(pattern[0]) == fold(s[0])) && Like(pattern[1..], s[1..], fold)
  }

  /** The pattern src + "/%" over-matches when src holds % or _, and never under-matches. */
  lemma {:induction false} LikeCoversPrefix(q: string, rest: string, fold: char -> char)
    ensures Like(q + "%", q + rest, fold)
  {
    if q == "" {
      assert (q + rest)[|rest|..] == "";
      assert Like((q + "%")[1..], (q + rest)[|rest|..], fold);
    } else {
      LikeCoversPrefix(q[1..], rest, fold);
      assert (q + "%")[1..] == q[1..] + "%";
      assert (q + rest)[1..] == q[1..] + rest;
    }
  }

  lemma LikeCoversBelow(p: string, src: string, fold: char -> char)
    requires Below(p, src)
    ensures Like(src + "/%", p, fold)
  {
    LikeCoversPrefix(src + "/", p[|src| + 1..], fold);
    assert src + "/%" == (src + "/") + "%";
    assert p == (src + "/") + p[|src| + 1..];
  }
}
