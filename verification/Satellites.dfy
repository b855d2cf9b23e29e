/** Converting the paths of satellite rows on the loaded tree (internal/files/namesweep.go:256-301, 498-583, 681-796):
    which paths are converted and to what, which stop the conversion, and which rows a sweep passes over. */
module Satellites {
  import opened Common
  import opened Paths
  import opened Filecache
  import opened NameTranslation
  import opened Refinement
  import opened SweepPlan
  import opened NameSweep

  // ---------- where the way down to a path ends ----------

  /** A row with its name in a folder is the row at that path. */
  lemma ChildStored(t: Table, d: Id, n: string)
    requires Tree(t) && d in t && t[d].isDir && ValidName(n)
    ensures Child(t, d, n) == Lookup(t, Join(t[d].path, n))
  {
    PathShape(t, d);
    if Child(t, d, n).Some? {
      var x := Child(t, d, n).value;
      assert RowOk(t, x);
      LookupStored(t, x);
    }
    if Lookup(t, Join(t[d].path, n)).Some? {
      var y := Lookup(t, Join(t[d].path, n)).value;
      PathShape(t, y);
      assert RowOk(t, y);
      PathShape(t, t[y].parent.value);
      JoinInjective(t[t[y].parent.value].path, t[y].name, t[d].path, n);
    }
  }

  /** There is a folder at the path. */
  ghost predicate FolderAt(t: Table, p: string) {
    exists d :: d in t && t[d].isDir && t[d].path == p
  }

  /** The way down to `np` ends below folder `d`: there is no folder "`n`" in it, and something of `np` is left. */
  ghost predicate EndsAt(t: Table, np: string, d: Id, n: string, rest: seq<string>) {
    && d in t && t[d].isDir && ValidName(n) && ValidNames(rest) && rest != []
    && np == JoinAll(Join(t[d].path, n), rest) && !FolderAt(t, Join(t[d].path, n))
  }

  /** A path has its parent folder, or the way down to it ends somewhere. */
  lemma ParentOrEnd(t: Table, root: Id, np: string) returns (d: Id, n: string, rest: seq<string>)
    requires Tree(t) && root in t && t[root].parent.None? && Canonical(np) && np != "/"
    ensures FolderAt(t, Dir(np)) || EndsAt(t, np, d, n, rest)
  {
    hide Tree, Canonical, Dir, Segments, Base;
    SegmentsCanonical(np);
    var segs := Segments(np);
    var init := segs[..|segs| - 1];
    RootFolder(t, root);
    LastPart(np);
    var k := Deepest(t, init);
    d, n, rest := root, "", [];
    if k < |init| {
      d :| d in t && t[d].isDir && t[d].path == Render(init[..k]);
      n, rest := init[k], segs[k + 1..];
      assert init[..k + 1] == init[..k] + [n];
      JoinAllSnoc("/", init[..k], n);
      assert segs == init[..k + 1] + rest;
      JoinAllConcat("/", init[..k + 1], rest);
    } else {
      assert init[..k] == init;
    }
  }

  lemma RootFolder(t: Table, root: Id)
    requires Tree(t) && root in t && t[root].parent.None?
    ensures t[root].path == "/" && t[root].isDir && FolderAt(t, Render([]))
  {
    assert RowOk(t, root);
  }

  /** The last segment of a path and the path before it. */
  lemma LastPart(np: string)
    requires Canonical(np) && np != "/"
    ensures var segs := Segments(np);
            segs != [] && segs == Segments(Dir(np)) + [Base(np)] && Render(segs[..|segs| - 1]) == Dir(np)
    ensures Canonical(Dir(np)) && ValidName(Base(np)) && ValidNames(Segments(Dir(np)))
  {
    hide Dir, Base, Segments, JoinAll;
    CanonicalNonRoot(np);
    SegmentsCanonical(Dir(np));
    SegmentsCanonical(np);
    var segs := Segments(Dir(np));
    JoinAllSnoc("/", segs, Base(np));
    SegmentsOfRender(segs + [Base(np)]);
    assert (segs + [Base(np)])[..|segs|] == segs;
  }

  /** The longest beginning of the segments that leads to a folder. */
  lemma {:induction false} Deepest(t: Table, a: seq<string>) returns (k: nat)
    requires FolderAt(t, Render([]))
    ensures k <= |a| && FolderAt(t, Render(a[..k])) && (k < |a| ==> !FolderAt(t, Render(a[..k + 1])))
    decreases |a|
  {
    hide FolderAt, JoinAll;
    assert a[..|a|] == a;
    if FolderAt(t, Render(a)) {
      k := |a|;
    } else if a != [] {
      var init := a[..|a| - 1];
      k := Deepest(t, init);
      assert init[..k] == a[..k];
      if k < |init| {
        assert init[..k + 1] == a[..k + 1];
      }
    }
  }

  // ---------- cipherFor ----------

  /** Through folders that are there the walk of cipherFor gets to their planned paths. */
  lemma {:induction false} DownToFolder(c: Cipher, t: Table, keys: map<Id, Key>, root: Id, plan: Plan, a: seq<string>,
                                        d: Id, rest: seq<string>)
    requires EncryptPlan(c, t, keys, root, plan) && d in t && t[d].isDir && d in plan.paths && root in plan.paths
    requires ValidNames(a) && ValidNames(rest) && rest != [] && t[d].path == Render(a)
    ensures CipherForWalk(c, t, keys, root, plan.paths[root], a + rest) ==
            CipherForWalk(c, t, keys, d, plan.paths[d], rest)
    decreases |a|
  {
    hide EncryptPlan, Tree, JoinAll, Child, Join, ValidName, Lookup, CipherForWalk;
    PlanCovers(c, t, keys, root, plan);
    PlanTree(c, t, keys, root, plan);
    RootFolder(t, root);
    if a == [] {
      assert a + rest == rest;
      RootRenders();
      SameFolder(t, d, root);
    } else {
      var init, n := a[..|a| - 1], a[|a| - 1];
      assert a == init + [n];
      JoinAllSnoc("/", init, n);
      var p := ParentFolder(t, d, init, n);
      DownToFolder(c, t, keys, root, plan, init, p, [n] + rest);
      assert init + ([n] + rest) == a + rest;
      ThroughFolder(c, t, keys, root, plan, p, d, n, rest);
    }
  }

  lemma PlanTree(c: Cipher, t: Table, keys: map<Id, Key>, root: Id, plan: Plan)
    requires EncryptPlan(c, t, keys, root, plan)
    ensures Tree(t) && UniquePaths(t) && root in t && t[root].parent.None? && root in plan.paths
      && plan.paths[root] == "/"
    ensures forall d :: d in t && t[d].isDir ==> d in keys
  {
  }

  lemma SameFolder(t: Table, d: Id, e: Id)
    requires Tree(t) && d in t && e in t && t[d].path == t[e].path
    ensures d == e
  {
  }

  /** The parent of the folder at init + [n] is the folder at init, and holds it under the name n. */
  lemma ParentFolder(t: Table, d: Id, init: seq<string>, n: string) returns (p: Id)
    requires Tree(t) && d in t && ValidNames(init) && ValidName(n) && t[d].path == Join(Render(init), n)
    ensures t[d].parent == Some(p) && p in t && t[p].isDir && t[p].path == Render(init) && t[d].name == n
    ensures Child(t, p, n) == Some(d)
  {
    hide JoinAll, Segments;
    assert Canonical(Render(init));
    SegmentsCanonical(Render(init));
    PathShape(t, d);
    assert RowOk(t, d);
    p := t[d].parent.value;
    PathShape(t, p);
    JoinInjective(t[p].path, t[d].name, Render(init), n);
    ChildStored(t, p, n);
    LookupStored(t, d);
  }

  /** One step of the walk, through folder `d` of folder `p`. */
  lemma ThroughFolder(c: Cipher, t: Table, keys: map<Id, Key>, root: Id, plan: Plan, p: Id, d: Id, n: string,
                      rest: seq<string>)
    requires EncryptPlan(c, t, keys, root, plan) && p in t && t[p].isDir && d in t && t[d].isDir
    requires p in plan.paths && d in plan.paths && t[d].parent == Some(p) && t[d].name == n
    requires Child(t, p, n) == Some(d) && rest != []
    ensures CipherForWalk(c, t, keys, p, plan.paths[p], [n] + rest) ==
            CipherForWalk(c, t, keys, d, plan.paths[d], rest)
  {
    PlanStep(c, t, keys, root, plan, d);
    PlanStep(c, t, keys, root, plan, p);
    hide EncryptPlan, Tree, Join, Child;
    assert ([n] + rest)[1..] == rest;
  }

  /** The token of a name in a folder, behind the folder's planned path. */
  function TokenUnder(c: Cipher, keys: map<Id, Key>, plan: Plan, d: Id, n: string): string
    requires d in keys && d in plan.paths
  {
    Join(plan.paths[d], c.enc(keys[d], n))
  }

  /** A path whose parent folder is there is converted to its token in that folder, if that is not too long; the entry
      itself need not exist. */
  lemma ConvertsInFolder(c: Cipher, t: Table, keys: map<Id, Key>, root: Id, plan: Plan, p: string, np: string, d: Id)
    requires EncryptPlan(c, t, keys, root, plan) && Normalize(p) == Ok(np) && np != "/"
    requires d in t && t[d].isDir && t[d].path == Dir(np)
    ensures d in keys && d in plan.paths
    ensures var token := TokenUnder(c, keys, plan, d, Base(np));
            CipherFor(c, t, keys, root, p) == if |token| <= 768 then Ok(token) else Err(NameBudget)
  {
    hide EncryptPlan, Tree, JoinAll, Segments, Dir, Base, Canonical, Normalize;
    NormalizeCanonical(p);
    LastPart(np);
    PlanCovers(c, t, keys, root, plan);
    PlanTree(c, t, keys, root, plan);
    SegmentsCanonical(Dir(np));
    DownToFolder(c, t, keys, root, plan, Segments(Dir(np)), d, [Base(np)]);
  }

  /** A path the way down to which ends is not converted: a file in the way, a folder that is missing, or, before it is
      missed, a token path that is too long. */
  lemma ConversionEnds(c: Cipher, t: Table, keys: map<Id, Key>, root: Id, plan: Plan, p: string, np: string, d: Id,
                       n: string, rest: seq<string>)
    requires EncryptPlan(c, t, keys, root, plan) && Normalize(p) == Ok(np) && np != "/" && EndsAt(t, np, d, n, rest)
    ensures d in keys && d in plan.paths
    ensures CipherFor(c, t, keys, root, p) ==
            if Lookup(t, Join(t[d].path, n)).Some? then Err(NotDir)
            else if |TokenUnder(c, keys, plan, d, n)| > 768 then Err(NameBudget) else Err(NotFound)
  {
    hide EncryptPlan, Tree, JoinAll, Segments, Canonical, Normalize, CipherForWalk, ValidName, Join;
    PlanCovers(c, t, keys, root, plan);
    PlanTree(c, t, keys, root, plan);
    StoredCanonical(t, d);
    SegmentsCanonical(t[d].path);
    var a := Segments(t[d].path);
    EndSegments(t, np, d, n, rest);
    DownToFolder(c, t, keys, root, plan, a, d, [n] + rest);
    StopsThere(c, t, keys, root, plan, d, n, rest);
  }

  lemma EndSegments(t: Table, np: string, d: Id, n: string, rest: seq<string>)
    requires Tree(t) && EndsAt(t, np, d, n, rest)
    ensures Segments(np) == Segments(t[d].path) + ([n] + rest) && ValidNames([n] + rest)
  {
    hide Tree, JoinAll, Segments, Canonical, ValidName, FolderAt;
    StoredCanonical(t, d);
    SegmentsCanonical(t[d].path);
    var a := Segments(t[d].path);
    JoinAllSnoc("/", a, n);
    JoinAllConcat("/", a + [n], rest);
    assert a + ([n] + rest) == (a + [n]) + rest;
    SegmentsOfRender(a + ([n] + rest));
  }

  lemma StopsThere(c: Cipher, t: Table, keys: map<Id, Key>, root: Id, plan: Plan, d: Id, n: string, rest: seq<string>)
    requires EncryptPlan(c, t, keys, root, plan) && d in t && t[d].isDir && ValidName(n) && rest != []
    requires !FolderAt(t, Join(t[d].path, n))
    ensures d in keys && d in plan.paths
    ensures CipherForWalk(c, t, keys, d, plan.paths[d], [n] + rest) ==
            if Lookup(t, Join(t[d].path, n)).Some? then Err(NotDir)
            else if |TokenUnder(c, keys, plan, d, n)| > 768 then Err(NameBudget) else Err(NotFound)
  {
    PlanTree(c, t, keys, root, plan);
    ChildStored(t, d, n);
    PlanCovers(c, t, keys, root, plan);
    if Lookup(t, Join(t[d].path, n)).Some? {
      var x := Lookup(t, Join(t[d].path, n)).value;
      PlanStep(c, t, keys, root, plan, x);
      assert plan.paths[x] == TokenUnder(c, keys, plan, d, n);
    }
    hide EncryptPlan, Tree, Join, Child, ValidName;
  }

  /** Which satellite paths a sweep converts, and to what: exactly those with a parent folder in the tree under whose
      planned path the token of the last name fits. */
  lemma ConvertedIff(c: Cipher, t: Table, keys: map<Id, Key>, root: Id, plan: Plan, p: string, np: string)
    requires EncryptPlan(c, t, keys, root, plan) && Normalize(p) == Ok(np) && np != "/"
    ensures CipherFor(c, t, keys, root, p).Ok? <==>
              exists d :: d in t && t[d].isDir && t[d].path == Dir(np) && d in keys && d in plan.paths
                          && |TokenUnder(c, keys, plan, d, Base(np))| <= 768
  {
    hide EncryptPlan, Tree, Dir, Base, Canonical, Normalize, CipherFor, EndsAt, TokenUnder;
    NormalizeCanonical(p);
    PlanTree(c, t, keys, root, plan);
    var d, n, rest := ParentOrEnd(t, root, np);
    if FolderAt(t, Dir(np)) {
      d :| d in t && t[d].isDir && t[d].path == Dir(np);
      ConvertsInFolder(c, t, keys, root, plan, p, np, d);
      forall e | e in t && t[e].path == Dir(np)
        ensures e == d
      {
        SameFolder(t, d, e);
      }
    } else {
      ConversionEnds(c, t, keys, root, plan, p, np, d, n, rest);
    }
  }

  // ---------- plainFor ----------

  /** Through folders that are there the walk of plainFor gets to their plaintext paths. */
  lemma {:induction false} BackToFolder(c: Cipher, u: Table, root: Id, a: seq<string>, d: Id, rest: seq<string>)
    requires Sealed(c, u) && root in u && u[root].parent.None? && d in u && u[d].isDir
    requires ValidNames(a) && ValidNames(rest) && rest != [] && u[d].path == Render(a)
    ensures PlainForWalk(c, u, root, "/", a + rest) == PlainForWalk(c, u, d, PlainPathOf(c, u, d), rest)
    decreases |a|
  {
    hide Sealed, Tree, JoinAll, Child, Join, ValidName, Lookup, PlainForWalk, PlainPathOf;
    SealedTree(c, u);
    RootFolder(u, root);
    RootAgrees(c, u, root);
    if a == [] {
      assert a + rest == rest;
      RootRenders();
      SameFolder(u, d, root);
    } else {
      var init, n := a[..|a| - 1], a[|a| - 1];
      assert a == init + [n];
      JoinAllSnoc("/", init, n);
      var p := ParentFolder(u, d, init, n);
      BackToFolder(c, u, root, init, p, [n] + rest);
      assert init + ([n] + rest) == a + rest;
      BackThrough(c, u, p, d, n, rest);
    }
  }

  lemma BackThrough(c: Cipher, u: Table, p: Id, d: Id, n: string, rest: seq<string>)
    requires Sealed(c, u) && p in u && d in u && u[d].isDir && u[d].parent == Some(p) && u[d].name == n
    requires Child(u, p, n) == Some(d) && rest != []
    ensures PlainForWalk(c, u, p, PlainPathOf(c, u, p), [n] + rest) == PlainForWalk(c, u, d, PlainPathOf(c, u, d), rest)
  {
    PlainStep(c, u, d);
    assert SealedRow(c, u, d);
    hide Sealed, Tree, Join, Child, PlainPathOf;
    assert ([n] + rest)[1..] == rest;
  }

  /** On a scheme-1 tree a stored path whose parent folder is there is converted to the decrypted name in the folder's
      plaintext path; a last segment that is no token of the folder is refused. */
  lemma DecryptsInFolder(c: Cipher, u: Table, root: Id, p: string, np: string, d: Id)
    requires Sealed(c, u) && root in u && u[root].parent.None? && Normalize(p) == Ok(np) && np != "/"
    requires d in u && u[d].isDir && u[d].path == Dir(np)
    ensures u[d].key.Some?
    ensures var n := c.dec(u[d].key.value, Base(np));
            PlainFor(c, u, root, p) == if n.None? then Err(Integrity) else Ok(Join(PlainPathOf(c, u, d), n.value))
  {
    hide Sealed, Tree, JoinAll, Segments, Dir, Base, Canonical, Normalize, PlainPathOf;
    NormalizeCanonical(p);
    LastPart(np);
    SealedTree(c, u);
    FolderKey(c, u, d);
    SegmentsCanonical(Dir(np));
    BackToFolder(c, u, root, Segments(Dir(np)), d, [Base(np)]);
  }

  lemma FolderKey(c: Cipher, u: Table, d: Id)
    requires Sealed(c, u) && d in u && u[d].isDir
    ensures u[d].key.Some?
  {
    assert SealedRow(c, u, d);
  }

  /** And one the way down to which ends is not converted. */
  lemma DecryptionEnds(c: Cipher, u: Table, root: Id, p: string, np: string, d: Id, n: string, rest: seq<string>)
    requires Sealed(c, u) && root in u && u[root].parent.None? && Normalize(p) == Ok(np) && np != "/"
    requires EndsAt(u, np, d, n, rest)
    ensures u[d].key.Some?
    ensures PlainFor(c, u, root, p) ==
            if c.dec(u[d].key.value, n).None? then Err(Integrity)
            else if Lookup(u, Join(u[d].path, n)).Some? then Err(NotDir) else Err(NotFound)
  {
    hide Sealed, Tree, JoinAll, Segments, Canonical, Normalize, ValidName, Join, PlainPathOf;
    SealedTree(c, u);
    FolderKey(c, u, d);
    StoredCanonical(u, d);
    SegmentsCanonical(u[d].path);
    EndSegments(u, np, d, n, rest);
    BackToFolder(c, u, root, Segments(u[d].path), d, [n] + rest);
    ChildStored(u, d, n);
    assert ([n] + rest)[1..] == rest;
  }

  lemma DecryptedIff(c: Cipher, u: Table, root: Id, p: string, np: string)
    requires Sealed(c, u) && root in u && u[root].parent.None? && Normalize(p) == Ok(np) && np != "/"
    ensures PlainFor(c, u, root, p).Ok? <==>
              exists d :: d in u && u[d].isDir && u[d].path == Dir(np) && u[d].key.Some?
                          && c.dec(u[d].key.value, Base(np)).Some?
  {
    hide Sealed, Tree, Dir, Base, Canonical, Normalize, PlainFor, EndsAt, PlainPathOf;
    NormalizeCanonical(p);
    SealedTree(c, u);
    var d, n, rest := ParentOrEnd(u, root, np);
    if FolderAt(u, Dir(np)) {
      d :| d in u && u[d].isDir && u[d].path == Dir(np);
      DecryptsInFolder(c, u, root, p, np, d);
      forall e | e in u && u[e].path == Dir(np)
        ensures e == d
      {
        SameFolder(u, d, e);
      }
    } else {
      DecryptionEnds(c, u, root, p, np, d, n, rest);
    }
  }

  // ---------- the paths that stop a sweep ----------

  /** A row that no longer resolves is passed over. */
  predicate PassedOver(r: Result<string>) {
    r == Err(NotFound) || r == Err(NotDir)
  }

  ghost predicate EndsUnder(t: Table, np: string, d: Id, n: string) {
    exists rest :: EndsAt(t, np, d, n, rest)
  }

  lemma EndsThere(t: Table, np: string, d: Id, n: string, rest: seq<string>)
    requires EndsAt(t, np, d, n, rest)
    ensures d in t && t[d].isDir && EndsUnder(t, np, d, n)
  {
  }

  /** The token of the last name of `np`, or of the name the way down to it ends at, makes a path too long. */
  ghost predicate TooLong(c: Cipher, t: Table, keys: map<Id, Key>, plan: Plan, np: string, d: Id, n: string) {
    && d in t && t[d].isDir && d in keys && d in plan.paths && |TokenUnder(c, keys, plan, d, n)| > 768
    && ((t[d].path == Dir(np) && n == Base(np)) || (Lookup(t, Join(t[d].path, n)).None? && EndsUnder(t, np, d, n)))
  }

  /** An encrypting sweep stops at a satellite path exactly when its token path gets too long. */
  lemma EncryptionStopsIff(c: Cipher, t: Table, keys: map<Id, Key>, root: Id, plan: Plan, p: string, np: string)
    requires EncryptPlan(c, t, keys, root, plan) && Normalize(p) == Ok(np) && np != "/"
    ensures var r := CipherFor(c, t, keys, root, p);
            r.Err? && !PassedOver(r) <==> exists d, n :: TooLong(c, t, keys, plan, np, d, n)
  {
    hide EncryptPlan, Tree, Dir, Base, Canonical, Normalize, CipherFor, EndsAt, TokenUnder, Join, Lookup;
    NormalizeCanonical(p);
    PlanTree(c, t, keys, root, plan);
    var d, n, rest := ParentOrEnd(t, root, np);
    if FolderAt(t, Dir(np)) {
      d :| d in t && t[d].isDir && t[d].path == Dir(np);
      ConvertsInFolder(c, t, keys, root, plan, p, np, d);
      assert CipherFor(c, t, keys, root, p).Err? ==> TooLong(c, t, keys, plan, np, d, Base(np));
    } else {
      ConversionEnds(c, t, keys, root, plan, p, np, d, n, rest);
      var r := CipherFor(c, t, keys, root, p);
      EndsThere(t, np, d, n, rest);
      assert r.Err? && !PassedOver(r) ==> TooLong(c, t, keys, plan, np, d, n);
    }
    forall e, m | TooLong(c, t, keys, plan, np, e, m)
      ensures CipherFor(c, t, keys, root, p) == Err(NameBudget)
    {
      if t[e].path == Dir(np) && m == Base(np) {
        ConvertsInFolder(c, t, keys, root, plan, p, np, e);
      } else {
        var tail :| EndsAt(t, np, e, m, tail);
        ConversionEnds(c, t, keys, root, plan, p, np, e, m, tail);
      }
    }
  }

  /** The last name of `np`, or the one the way down to it ends at, is no token of its folder. */
  ghost predicate NoToken(c: Cipher, u: Table, np: string, d: Id, n: string) {
    && d in u && u[d].isDir && u[d].key.Some? && c.dec(u[d].key.value, n).None?
    && ((u[d].path == Dir(np) && n == Base(np)) || EndsUnder(u, np, d, n))
  }

  /** A decrypting sweep stops at a satellite path exactly when such a name is no token, also where the row would have
      been passed over: names are decrypted before they are looked up. */
  lemma DecryptionStopsIff(c: Cipher, u: Table, root: Id, p: string, np: string)
    requires Sealed(c, u) && root in u && u[root].parent.None? && Normalize(p) == Ok(np) && np != "/"
    ensures var r := PlainFor(c, u, root, p);
            r.Err? && !PassedOver(r) <==> exists d, n :: NoToken(c, u, np, d, n)
  {
    hide Sealed, Tree, Dir, Base, Canonical, Normalize, PlainFor, EndsAt, PlainPathOf, Join, Lookup;
    NormalizeCanonical(p);
    SealedTree(c, u);
    var d, n, rest := ParentOrEnd(u, root, np);
    if FolderAt(u, Dir(np)) {
      d :| d in u && u[d].isDir && u[d].path == Dir(np);
      DecryptsInFolder(c, u, root, p, np, d);
      assert PlainFor(c, u, root, p).Err? ==> NoToken(c, u, np, d, Base(np));
    } else {
      DecryptionEnds(c, u, root, p, np, d, n, rest);
      var r := PlainFor(c, u, root, p);
      EndsThere(u, np, d, n, rest);
      assert r.Err? && !PassedOver(r) ==> NoToken(c, u, np, d, n);
    }
    forall e, m | NoToken(c, u, np, e, m)
      ensures PlainFor(c, u, root, p) == Err(Integrity)
    {
      if u[e].path == Dir(np) && m == Base(np) {
        DecryptsInFolder(c, u, root, p, np, e);
      } else {
        var tail :| EndsAt(u, np, e, m, tail);
        DecryptionEnds(c, u, root, p, np, e, m, tail);
      }
    }
  }

  // ---------- the loops of the code ----------

  /** byName: parent id to stored name to row. */
  type NameIndex = map<Id, map<string, Id>>

  function ByName(names: NameIndex, p: Id, n: string): Option<Id> {
    if p in names && n in names[p] then Some(names[p][n]) else None
  }

  /** The index leads to rows with that parent and name, and holds every row that has a parent. */
  ghost predicate NamesIndexed(t: Table, seen: set<Id>, names: NameIndex) {
    && (forall p: Id, n: string :: ByName(names, p, n).Some? ==>
          var x := ByName(names, p, n).value; x in t && t[x].parent == Some(p) && t[x].name == n)
    && forall x :: x in seen && x in t && t[x].parent.Some? ==> ByName(names, t[x].parent.value, t[x].name).Some?
  }

  /** The part of loadTree that fills byName. */
  method IndexNames(t: Table, ids: seq<Id>) returns (names: NameIndex)
    requires forall x :: x in ids <==> x in t
    ensures NamesIndexed(t, t.Keys, names)
  {
    names := map[];
    ghost var seen: set<Id> := {};
    for i := 0 to |ids|
      invariant seen == set x | x in ids[..i]
      invariant NamesIndexed(t, seen, names)
    {
      var x := ids[i];
      assert x in ids;
      if t[x].parent.Some? {
        AddName(t, seen, names, x);
        var p := t[x].parent.value;
        names := names[p := (if p in names then names[p] else map[])[t[x].name := x]];
      }
      seen := seen + {x};
    }
    assert seen == t.Keys;
  }

  lemma AddName(t: Table, seen: set<Id>, names: NameIndex, x: Id)
    requires NamesIndexed(t, seen, names) && x in t && t[x].parent.Some?
    ensures var p := t[x].parent.value;
            NamesIndexed(t, seen + {x}, names[p := (if p in names then names[p] else map[])[t[x].name := x]])
  {
    var p, n := t[x].parent.value, t[x].name;
    var more := names[p := (if p in names then names[p] else map[])[n := x]];
    forall q: Id, m: string
      ensures ByName(more, q, m) == if q == p && m == n then Some(x) else ByName(names, q, m)
    {
    }
  }

  /** In a tree no two rows of a folder share a name, so the index finds the one there is. */
  lemma NamesFind(t: Table, names: NameIndex, p: Id, n: string)
    requires Tree(t) && NamesIndexed(t, t.Keys, names)
    ensures ByName(names, p, n) == Child(t, p, n)
  {
    if ByName(names, p, n).Some? && Child(t, p, n).Some? {
      assert RowOk(t, ByName(names, p, n).value) && RowOk(t, Child(t, p, n).value);
    }
  }

  /** What the code has at hand after loading a tree: its root, if there are rows, and the index. */
  ghost predicate LoadedTree(t: Table, root: Option<Id>, names: NameIndex) {
    && Tree(t) && NamesIndexed(t, t.Keys, names)
    && (root.Some? ==> root.value in t && t[root.value].parent.None?)
    && (root.None? ==> t == map[])
  }

  function RootId(root: Option<Id>): Id {
    if root.Some? then root.value else 0
  }

  lemma JoinIs(p: string, n: string)
    ensures Join(p, n) == (if p == "/" then "" else p) + "/" + n
    ensures n != "" ==> Join(p, n) != "/"
  {
  }

  /** cipherFor. */
  method CipherForPath(c: Cipher, t: Table, root: Option<Id>, names: NameIndex, keys: map<Id, Key>, stored: string)
    returns (r: Result<string>)
    requires LoadedTree(t, root, names)
    ensures r == CipherFor(c, t, keys, RootId(root), stored)
  {
    hide Tree, NamesIndexed, Normalize, Canonical;
    var np := NormalizePath(stored);
    if np.Err? {
      return Err(np.error);
    }
    if np.value == "/" {
      return Ok("/");
    }
    if root.None? {
      return Err(NotFound);
    }
    NormalizeCanonical(stored);
    LastPart(np.value);
    SegmentsCanonical(np.value);
    var segs := Segments(np.value);
    var parent := root.value;
    var ct := "";
    ghost var cur := "/";
    for i := 0 to |segs|
      invariant ct == if i == 0 then "" else cur
      invariant if i == 0 then cur == "/" else cur != "/"
      invariant CipherForWalk(c, t, keys, root.value, "/", segs) ==
                CipherForWalk(c, t, keys, parent, cur, segs[i..])
    {
      assert segs[i..][0] == segs[i] && segs[i..][1..] == segs[i + 1..];
      if parent !in keys {
        return Err(MissingKey);
      }
      var tok := c.enc(keys[parent], segs[i]);
      TokenNotEmpty(c, keys[parent], segs[i]);
      ct := ct + "/" + tok;
      assert ct == Join(cur, tok) && ct != "/";
      if |ct| > MAX_CIPHER_PATH {
        return Err(NameBudget);
      }
      if i < |segs| - 1 {
        NamesFind(t, names, parent, segs[i]);
        var next := ByName(names, parent, segs[i]);
        if next.None? {
          return Err(NotFound);
        }
        if !t[next.value].isDir {
          return Err(NotDir);
        }
        parent := next.value;
      }
      cur := ct;
    }
    assert segs[|segs|..] == [];
    return Ok(ct);
  }

  lemma TokenNotEmpty(c: Cipher, k: Key, n: string)
    requires ValidName(n)
    ensures c.enc(k, n) != ""
  {
    assert ValidName(c.enc(k, n));
  }

  /** plainFor. */
  method PlainForPath(c: Cipher, u: Table, root: Option<Id>, names: NameIndex, stored: string)
    returns (r: Result<string>)
    requires LoadedTree(u, root, names)
    ensures r == PlainFor(c, u, RootId(root), stored)
  {
    hide Tree, NamesIndexed, Normalize, Canonical, Dir, Base, Segments, Child, ByName, Join;
    var np := NormalizePath(stored);
    if np.Err? {
      return Err(np.error);
    }
    if np.value == "/" {
      return Ok("/");
    }
    NormalizeCanonical(stored);
    LastPart(np.value);
    SegmentsCanonical(np.value);
    var toks := Segments(np.value);
    if root.None? {
      return Err(NotFound);
    }
    var parent := root.value;
    var plain := "";
    ghost var out := "/";
    for i := 0 to |toks|
      invariant parent in u
      invariant plain == if i == 0 then "" else out
      invariant if i == 0 then out == "/" else out != "/"
      invariant PlainForWalk(c, u, root.value, "/", toks) == PlainForWalk(c, u, parent, out, toks[i..])
    {
      assert toks[i..][0] == toks[i] && toks[i..][1..] == toks[i + 1..];
      var seg := DecryptSegment(c, u[parent], toks[i]);
      if seg.Err? {
        return Err(seg.error);
      }
      plain := plain + "/" + seg.value;
      assert seg.value != "";
      assert plain == Join(out, seg.value) && plain != "/" by {
        JoinIs(out, seg.value);
      }
      if i < |toks| - 1 {
        NamesFind(u, names, parent, toks[i]);
        var next := ByName(names, parent, toks[i]);
        if next.None? {
          return Err(NotFound);
        }
        if !u[next.value].isDir {
          return Err(NotDir);
        }
        parent := next.value;
      }
      out := plain;
    }
    assert toks[|toks|..] == [];
    return Ok(plain);
  }

  /** A path in the direction of the sweep. */
  ghost function Converted(c: Cipher, t: Table, keys: map<Id, Key>, root: Id, encrypting: bool, stored: string)
    : Result<string>
  {
    if encrypting then CipherFor(c, t, keys, root, stored) else PlainFor(c, t, root, stored)
  }

  /** convertPath: nothing for a path that no longer resolves; any other error stops the sweep. */
  method ConvertPath(c: Cipher, t: Table, root: Option<Id>, names: NameIndex, keys: map<Id, Key>, encrypting: bool,
                     stored: string)
    returns (r: Result<Option<string>>)
    requires LoadedTree(t, root, names)
    ensures var out := Converted(c, t, keys, RootId(root), encrypting, stored);
            r == if out.Ok? then Ok(Some(out.value))
                 else if out.error == NotFound || out.error == NotDir then Ok(None) else Err(out.error)
  {
    var out;
    if encrypting {
      out := CipherForPath(c, t, root, names, keys, stored);
    } else {
      out := PlainForPath(c, t, root, names, stored);
    }
    if out.Err? {
      return if out.error == NotFound || out.error == NotDir then Ok(None) else Err(out.error);
    }
    return Ok(Some(out.value));
  }

  // ---------- the rows of a sweep ----------

  datatype Kind = LockRow | VersionRow | PropertyRow

  /** A row of a table keyed by path. `tag` is what its unique key holds besides the path: nothing for a lock, the
      revision of a version, namespace and name of a property. */
  datatype Sat = Sat(kind: Kind, path: string, tag: string)

  predicate Moves(r: Result<string>, stored: string, path: string) {
    r == Ok(path) && path != stored
  }

  predicate Stays(r: Result<string>, stored: string) {
    r == Ok(stored) || PassedOver(r)
  }

  /** What a sweep plans for the satellite rows: no path stops it, and the rows with another path in the new scheme get
      that one. */
  ghost predicate SatsPlanned(c: Cipher, t: Table, keys: map<Id, Key>, root: Id, encrypting: bool, sats: map<Id, Sat>,
                              ids: seq<Id>, paths: map<Id, string>) {
    && NoRepeats(ids) && (forall l :: l in ids <==> l in paths)
    && (forall l :: l in paths ==>
          l in sats && Moves(Converted(c, t, keys, root, encrypting, sats[l].path), sats[l].path, paths[l]))
    && forall l :: l in sats && l !in paths ==>
         Stays(Converted(c, t, keys, root, encrypting, sats[l].path), sats[l].path)
  }

  /** The rows passed over. */
  ghost function Passed(c: Cipher, t: Table, keys: map<Id, Key>, root: Id, encrypting: bool, sats: map<Id, Sat>)
    : set<Id>
  {
    set l | l in sats && PassedOver(Converted(c, t, keys, root, encrypting, sats[l].path))
  }

  /** The loops of planLocks, planVersions and planProps over the rows `ids` of their queries. */
  method PlanSats(c: Cipher, t: Table, root: Option<Id>, names: NameIndex, keys: map<Id, Key>, encrypting: bool,
                  sats: map<Id, Sat>, ids: seq<Id>)
    returns (r: Result<(seq<Id>, map<Id, string>, nat)>)
    requires LoadedTree(t, root, names) && NoRepeats(ids) && forall l :: l in ids <==> l in sats
    ensures r.Ok? ==> SatsPlanned(c, t, keys, RootId(root), encrypting, sats, r.value.0, r.value.1)
    ensures r.Ok? ==> r.value.2 == |Passed(c, t, keys, RootId(root), encrypting, sats)|
    ensures r.Err? ==> r.error != NotFound && r.error != NotDir
    ensures r.Err? ==> exists l :: l in sats
                                   && Converted(c, t, keys, RootId(root), encrypting, sats[l].path) == Err(r.error)
  {
    hide LoadedTree, Converted, SatsPlanned, Passed;
    var moved: seq<Id>, paths: map<Id, string>, skipped := [], map[], 0;
    ghost var seen: map<Id, Sat> := map[];
    NoSats(c, t, keys, RootId(root), encrypting);
    for i := 0 to |ids|
      invariant forall l :: l in seen <==> l in ids[..i]
      invariant forall l :: l in seen ==> l in sats && seen[l] == sats[l]
      invariant SatsPlanned(c, t, keys, RootId(root), encrypting, seen, moved, paths)
      invariant skipped == |Passed(c, t, keys, RootId(root), encrypting, seen)|
    {
      var l := ids[i];
      NewId(ids, i);
      var out := ConvertPath(c, t, root, names, keys, encrypting, sats[l].path);
      if out.Err? {
        return Err(out.error);
      }
      NextPassed(c, t, keys, RootId(root), encrypting, seen, l, sats[l]);
      if out.value.None? {
        OneStays(c, t, keys, RootId(root), encrypting, seen, moved, paths, l, sats[l]);
        skipped := skipped + 1;
      } else if out.value.value == sats[l].path {
        OneStays(c, t, keys, RootId(root), encrypting, seen, moved, paths, l, sats[l]);
      } else {
        OneMoves(c, t, keys, RootId(root), encrypting, seen, moved, paths, l, sats[l], out.value.value);
        moved := moved + [l];
        paths := paths[l := out.value.value];
      }
      seen := seen[l := sats[l]];
    }
    assert seen == sats;
    return Ok((moved, paths, skipped));
  }

  lemma NoSats(c: Cipher, t: Table, keys: map<Id, Key>, root: Id, encrypting: bool)
    ensures SatsPlanned(c, t, keys, root, encrypting, map[], [], map[])
    ensures Passed(c, t, keys, root, encrypting, map[]) == {}
  {
  }

  /** One more row that does not stop the sweep. */
  lemma OneStays(c: Cipher, t: Table, keys: map<Id, Key>, root: Id, encrypting: bool, seen: map<Id, Sat>,
                 ids: seq<Id>, paths: map<Id, string>, l: Id, s: Sat)
    requires SatsPlanned(c, t, keys, root, encrypting, seen, ids, paths) && l !in seen
    requires Stays(Converted(c, t, keys, root, encrypting, s.path), s.path)
    ensures SatsPlanned(c, t, keys, root, encrypting, seen[l := s], ids, paths)
  {
    hide Converted, Stays, Moves;
  }

  lemma OneMoves(c: Cipher, t: Table, keys: map<Id, Key>, root: Id, encrypting: bool, seen: map<Id, Sat>,
                 ids: seq<Id>, paths: map<Id, string>, l: Id, s: Sat, p: string)
    requires SatsPlanned(c, t, keys, root, encrypting, seen, ids, paths) && l !in seen
    requires Moves(Converted(c, t, keys, root, encrypting, s.path), s.path, p)
    ensures SatsPlanned(c, t, keys, root, encrypting, seen[l := s], ids + [l], paths[l := p])
  {
    hide Converted, Stays, Moves;
    assert l !in ids;
  }

  lemma NextPassed(c: Cipher, t: Table, keys: map<Id, Key>, root: Id, encrypting: bool, seen: map<Id, Sat>, l: Id,
                   s: Sat)
    requires l !in seen
    ensures |Passed(c, t, keys, root, encrypting, seen[l := s])| ==
            |Passed(c, t, keys, root, encrypting, seen)|
            + if PassedOver(Converted(c, t, keys, root, encrypting, s.path)) then 1 else 0
  {
    hide Converted;
    var now, was := Passed(c, t, keys, root, encrypting, seen[l := s]), Passed(c, t, keys, root, encrypting, seen);
    assert now == if PassedOver(Converted(c, t, keys, root, encrypting, s.path)) then was + {l} else was;
  }

  lemma NewId(ids: seq<Id>, i: nat)
    requires NoRepeats(ids) && i < |ids|
    ensures ids[i] !in ids[..i]
    ensures forall l :: l in ids[..i + 1] <==> l in ids[..i] || l == ids[i]
  {
  }
}
