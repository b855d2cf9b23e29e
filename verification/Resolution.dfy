/** What cipherPath answers for every path of a scheme-1 user, stored or not, and what the translating lookup makes of
    it (internal/files/nametranslate.go:145-188, nametranslate_stores.go:40-54). */
module Resolution {
  import opened Common
  import opened Paths
  import opened Filecache
  import opened NameTranslation
  import opened Refinement
  import opened AnchoredNames
  import opened Satellites

  /** The walk gets to every folder of the view. */
  lemma WalkToFolder(c: Cipher, t: Table, root: Id, d: Id, rest: seq<string>)
    requires Sealed(c, t) && WithinBudget(c, t) && d in t && t[d].isDir && rest != []
    requires root in t && t[root].parent.None?
    ensures Walk(c, t, t[root], "/", Segments(PlainPathOf(c, t, d)) + rest) == Walk(c, t, t[d], t[d].path, rest)
  {
    hide Sealed, WithinBudget, Tree, Walk, PlainPathOf, Segments, JoinAll, Normalize, Canonical;
    SealedTree(c, t);
    RootOnly(c, t, root);
    PlainCanonical(c, t, d);
    var plain := PlainPathOf(c, t, d);
    NormalizeCanonical(plain);
    SegmentsCanonical(plain);
    var segs := Segments(plain);
    if plain == "/" {
      RootStoredAt(c, t, d, root);
      assert segs == [] && segs + rest == rest;
    } else {
      ResolveFinds(c, t, plain, d);
      LookupStored(t, d);
      LookupStored(t, root);
      assert Walk(c, t, t[root], "/", segs) == Ok(t[d].path);
      assert segs != [];
      WalkSplit(c, t, t[root], "/", segs, rest, d);
    }
  }

  lemma RootOnly(c: Cipher, t: Table, root: Id)
    requires Sealed(c, t) && root in t && t[root].parent.None?
    ensures t[root].path == "/" && t[root].isDir && UniquePaths(t) && Lookup(t, "/") == Some(root)
  {
    assert RowOk(t, root);
    LookupStored(t, root);
  }

  lemma RootStoredAt(c: Cipher, t: Table, d: Id, root: Id)
    requires Sealed(c, t) && d in t && PlainPathOf(c, t, d) == "/" && root in t && t[root].parent.None?
    ensures d == root && t[d].path == "/"
  {
    PlainShape(c, t, d);
    assert RowOk(t, d) && RowOk(t, root);
  }

  /** A path whose parent folder is in the view resolves to its token in that folder, whether or not it is stored, if
      name and token path are within their limits. */
  lemma ResolvesInFolder(c: Cipher, t: Table, p: string, np: string, d: Id)
    requires Sealed(c, t) && WithinBudget(c, t) && Normalize(p) == Ok(np) && np != "/"
    requires d in t && t[d].isDir && PlainPathOf(c, t, d) == Dir(np)
    ensures t[d].key.Some?
    ensures var ct := Join(t[d].path, c.enc(t[d].key.value, Base(np)));
            CipherPath(c, t, NCGOFN1, p) == if |Base(np)| > 255 || |ct| > 768 then Err(NameBudget) else Ok(ct)
  {
    hide Sealed, WithinBudget, Tree, PlainPathOf, Segments, JoinAll, Normalize, Canonical, Dir, Base, Join;
    SealedTree(c, t);
    FolderKey(c, t, d);
    NormalizeCanonical(p);
    LastPart(np);
    var root := RootOf(t, d);
    PathShape(t, root);
    RootOnly(c, t, root);
    WalkToFolder(c, t, root, d, [Base(np)]);
  }

  /** A path the way down to which ends in the view does not resolve: a file in the way, a folder that is missing, or,
      before it is missed, a name or token path over its limit. */
  lemma ResolutionEnds(c: Cipher, t: Table, p: string, np: string, d: Id, n: string, rest: seq<string>)
    requires Sealed(c, t) && WithinBudget(c, t) && Normalize(p) == Ok(np) && np != "/"
    requires EndsAt(View(c, t), np, d, n, rest)
    ensures d in t && t[d].key.Some?
    ensures var ct := Join(t[d].path, c.enc(t[d].key.value, n));
            CipherPath(c, t, NCGOFN1, p) ==
              if |n| > 255 || |ct| > 768 then Err(NameBudget)
              else if Lookup(View(c, t), Join(PlainPathOf(c, t, d), n)).Some? then Err(NotDir) else Err(NotFound)
  {
    hide Sealed, WithinBudget, Tree, PlainPathOf, Segments, JoinAll, Normalize, Canonical, Join, View, EndsAt;
    SealedTree(c, t);
    EndParts(c, t, np, d, n, rest);
    FolderKey(c, t, d);
    NormalizeCanonical(p);
    var root := RootOf(t, d);
    PathShape(t, root);
    RootOnly(c, t, root);
    WalkToFolder(c, t, root, d, [n] + rest);
    assert ([n] + rest)[1..] == rest;
    var ct := Join(t[d].path, c.enc(t[d].key.value, n));
    TokenIsName(c, t, d, n);
    if Lookup(t, ct).Some? {
      NoFolderThere(c, t, np, d, n, rest, Lookup(t, ct).value);
    }
  }

  lemma EndParts(c: Cipher, t: Table, np: string, d: Id, n: string, rest: seq<string>)
    requires Sealed(c, t) && EndsAt(View(c, t), np, d, n, rest)
    ensures d in t && t[d].isDir && View(c, t)[d].path == PlainPathOf(c, t, d) && ValidName(n) && rest != []
    ensures Segments(np) == Segments(PlainPathOf(c, t, d)) + ([n] + rest)
  {
    hide Sealed, View, Tree, PlainPathOf, JoinAll, Segments, FolderAt, ValidName, Canonical;
    ViewIsTree(c, t);
    ViewRow(c, t, d);
    EndSegments(View(c, t), np, d, n, rest);
  }

  /** The stored path of a name in a folder is taken by the row the view has there. */
  lemma TokenIsName(c: Cipher, t: Table, d: Id, n: string)
    requires Sealed(c, t) && d in t && t[d].isDir && t[d].key.Some? && ValidName(n)
    ensures Lookup(t, Join(t[d].path, c.enc(t[d].key.value, n))) ==
            Lookup(View(c, t), Join(PlainPathOf(c, t, d), n))
  {
    hide Sealed, View, Tree, PlainPathOf, Join, ValidName;
    var ct, pt := Join(t[d].path, c.enc(t[d].key.value, n)), Join(PlainPathOf(c, t, d), n);
    SealedTree(c, t);
    if Lookup(t, ct).Some? {
      var y := Lookup(t, ct).value;
      ChildAgrees(c, t, d, n, y);
      LookupView(c, t, y);
    }
    if Lookup(View(c, t), pt).Some? {
      var y := Lookup(View(c, t), pt).value;
      ViewRow(c, t, y);
      ChildAgrees(c, t, d, n, y);
      LookupStored(t, y);
    }
  }

  lemma NoFolderThere(c: Cipher, t: Table, np: string, d: Id, n: string, rest: seq<string>, y: Id)
    requires Sealed(c, t) && EndsAt(View(c, t), np, d, n, rest) && d in t && t[d].key.Some? && y in t
    requires Lookup(View(c, t), Join(PlainPathOf(c, t, d), n)) == Some(y)
    ensures !t[y].isDir
  {
    hide Sealed, PlainPathOf, Join, ValidName;
    ViewRow(c, t, d);
    ViewRow(c, t, y);
    assert View(c, t)[y].path == Join(View(c, t)[d].path, n);
    hide View;
  }

  /** The translating lookup in a folder of the view: the row that is there, or not found, or a name too long to be
      stored. */
  lemma GetInFolder(c: Cipher, t: Table, p: string, np: string, d: Id)
    requires Sealed(c, t) && WithinBudget(c, t) && Normalize(p) == Ok(np) && np != "/"
    requires d in t && t[d].isDir && PlainPathOf(c, t, d) == Dir(np)
    ensures t[d].key.Some?
    ensures var v, ct := View(c, t), Join(t[d].path, c.enc(t[d].key.value, Base(np)));
            && (forall x :: x in t && v[x].path == np ==> Get(c, t, NCGOFN1, p) == Ok((x, v[x])))
            && ((forall x :: x in t ==> v[x].path != np) ==>
                  Get(c, t, NCGOFN1, p) == if |Base(np)| > 255 || |ct| > 768 then Err(NameBudget) else Err(NotFound))
  {
    hide Sealed, WithinBudget, Tree, View, PlainPathOf, Normalize, Dir, Base, Join, Get, CipherPath;
    GetRefines(c, t, p);
    FoundInView(c, t, np);
    ResolvesInFolder(c, t, p, np, d);
    GetUnresolved(c, t, p);
  }

  /** And where there is no folder: a name too long, a file in the way, or not found. With the lemma before it this is
      every answer, because a path has its parent folder or the way down to it ends somewhere. */
  lemma GetOutside(c: Cipher, t: Table, p: string, np: string, d: Id, n: string, rest: seq<string>)
    requires Sealed(c, t) && WithinBudget(c, t) && Normalize(p) == Ok(np) && np != "/"
    requires EndsAt(View(c, t), np, d, n, rest)
    ensures d in t && t[d].key.Some?
    ensures var ct := Join(t[d].path, c.enc(t[d].key.value, n));
            Get(c, t, NCGOFN1, p) ==
              if |n| > 255 || |ct| > 768 then Err(NameBudget)
              else if Lookup(View(c, t), Join(PlainPathOf(c, t, d), n)).Some? then Err(NotDir) else Err(NotFound)
  {
    hide Sealed, WithinBudget, Tree, View, PlainPathOf, Normalize, Join, Get, CipherPath, EndsAt, Lookup;
    ResolutionEnds(c, t, p, np, d, n, rest);
    GetUnresolved(c, t, p);
  }

  lemma FoundInView(c: Cipher, t: Table, np: string)
    requires Sealed(c, t)
    ensures Lookup(View(c, t), np).Some? <==> exists x :: x in t && View(c, t)[x].path == np
    ensures forall x :: x in t && View(c, t)[x].path == np ==> Lookup(View(c, t), np) == Some(x)
  {
    hide Sealed, View, PlainPathOf;
    forall x | x in t && View(c, t)[x].path == np
      ensures Lookup(View(c, t), np) == Some(x)
    {
      ViewRow(c, t, x);
      LookupView(c, t, x);
    }
  }

  /** An answer that is no row is the error of the path, or not found. */
  lemma GetUnresolved(c: Cipher, t: Table, p: string)
    requires Sealed(c, t) && WithinBudget(c, t)
    ensures Get(c, t, NCGOFN1, p).Err? ==>
      Get(c, t, NCGOFN1, p) ==
        if CipherPath(c, t, NCGOFN1, p).Err? then Err(CipherPath(c, t, NCGOFN1, p).error) else Err(NotFound)
    ensures CipherPath(c, t, NCGOFN1, p).Err? ==> Get(c, t, NCGOFN1, p).Err?
  {
    hide Sealed, Tree, CipherPath, DecryptRow, View;
    SealedTree(c, t);
    if CipherPath(c, t, NCGOFN1, p).Ok? && Lookup(t, CipherPath(c, t, NCGOFN1, p).value).Some? {
      DecryptRowIsView(c, t, Lookup(t, CipherPath(c, t, NCGOFN1, p).value).value);
    }
  }
}
