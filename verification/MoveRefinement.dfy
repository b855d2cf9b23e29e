/** Deleting and moving subtrees through the translation (internal/files/nametranslate_stores.go:246-294). */
module MoveRefinement {
  import opened Common
  import opened Paths
  import opened Filecache
  import opened Sizes
  import opened SqlStore
  import opened NameTranslation
  import opened Refinement

  /** The view has the shape of the stored tree. */
  lemma ViewUnder(c: Cipher, t: Table, x: Id, a: Id)
    requires Sealed(c, t) && x in t
    ensures Tree(View(c, t)) && (Under(View(c, t), x, a) <==> Under(t, x, a))
  {
    ViewIsTree(c, t);
    SameUnder(t, View(c, t), x, a);
  }

  /** Lying under a stored row reads the same on ciphertext and on plaintext paths. */
  lemma BelowAgrees(c: Cipher, t: Table, x: Id, a: Id)
    requires Sealed(c, t) && x in t && a in t && t[a].parent.Some?
    ensures AtOrBelow(t[x].path, t[a].path) <==> AtOrBelow(PlainPathOf(c, t, x), PlainPathOf(c, t, a))
    ensures t[x].path == t[a].path <==> PlainPathOf(c, t, x) == PlainPathOf(c, t, a)
  {
    UnderIsPrefix(t, x, a);
    ViewUnder(c, t, x, a);
    ViewRow(c, t, x);
    ViewRow(c, t, a);
    UnderIsPrefix(View(c, t), x, a);
    TreeUnique(View(c, t));
    TreeUnique(t);
  }

  // ---------- DeleteSubtree ----------

  /** TranslatingStore.DeleteSubtree. */
  ghost function Delete(c: Cipher, t: Table, p: string): Result<Table>
    requires Tree(t)
  {
    var cp :- CipherPath(c, t, NCGOFN1, p);
    DeleteFrom(t, cp)
  }

  lemma DeletedSealed(c: Cipher, t: Table, a: Id)
    requires Sealed(c, t) && a in t && t[a].parent.Some?
    ensures Sealed(c, Deleted(t, a))
  {
    var u := Deleted(t, a);
    StoredCanonical(t, a);
    PathShape(t, a);
    SealedTree(c, t);
    LookupStored(t, a);
    DeleteExact(t, t[a].path);
    forall x | x in u
      ensures SealedRow(c, u, x)
    {
      assert RowOk(u, x) && SealedRow(c, t, x);
    }
  }

  lemma DeletedView(c: Cipher, t: Table, a: Id)
    requires Sealed(c, t) && a in t && t[a].parent.Some?
    ensures Sealed(c, Deleted(t, a)) && Tree(View(c, t))
    ensures View(c, Deleted(t, a)) == Deleted(View(c, t), a)
  {
    var u := Deleted(t, a);
    DeletedSealed(c, t, a);
    ViewIsTree(c, t);
    var v, w := View(c, u), Deleted(View(c, t), a);
    forall x | x in t
      ensures x in v <==> x in w
      ensures x in v ==> v[x] == w[x]
    {
      ViewUnder(c, t, x, a);
      if x in u {
        ViewShared(c, u, t, x);
      }
    }
    SameRows(v, w);
  }

  /** Delete through the translation removes exactly the plaintext subtree. */
  lemma DeleteRefines(c: Cipher, t: Table, p: string)
    requires Sealed(c, t) && WithinBudget(c, t) && Normalize(p).Ok?
    ensures Tree(View(c, t))
    ensures Delete(c, t, p).Ok? <==> DeleteFrom(View(c, t), Normalize(p).value).Ok?
    ensures Delete(c, t, p).Ok? ==> Sealed(c, Delete(c, t, p).value)
    ensures Delete(c, t, p).Ok? ==> DeleteFrom(View(c, t), Normalize(p).value) == Ok(View(c, Delete(c, t, p).value))
  {
    var np := Normalize(p).value;
    ViewIsTree(c, t);
    SealedTree(c, t);
    if Lookup(View(c, t), np).Some? {
      var a := Lookup(View(c, t), np).value;
      ViewRow(c, t, a);
      ResolveFinds(c, t, p, a);
      LookupStored(t, a);
      DeleteAt(c, t, p, a);
    } else if Delete(c, t, p).Ok? {
      DeleteFound(c, t, p);
    }
  }

  /** On any sealed tree, within budget or not, a successful delete is the plaintext delete on the view. */
  lemma DeleteSound(c: Cipher, t: Table, p: string)
    requires Sealed(c, t) && Delete(c, t, p).Ok?
    ensures Normalize(p).Ok? && Tree(View(c, t)) && Sealed(c, Delete(c, t, p).value)
    ensures DeleteFrom(View(c, t), Normalize(p).value) == Ok(View(c, Delete(c, t, p).value))
  {
    hide Sealed, View, Tree, PlainPathOf, Normalize;
    ViewIsTree(c, t);
    SealedTree(c, t);
    ResolvedNormal(c, t, p);
    var y := Lookup(t, CipherPath(c, t, NCGOFN1, p).value).value;
    ResolveAgrees(c, t, p, y);
    LookupView(c, t, y);
    DeleteAt(c, t, p, y);
  }

  lemma ResolvedNormal(c: Cipher, t: Table, p: string)
    requires CipherPath(c, t, NCGOFN1, p).Ok?
    ensures Normalize(p).Ok?
  {
    hide Normalize;
  }

  lemma DeleteFound(c: Cipher, t: Table, p: string)
    requires Sealed(c, t) && Delete(c, t, p).Ok? && Normalize(p).Ok?
    ensures Lookup(View(c, t), Normalize(p).value).Some?
  {
    var y := Lookup(t, CipherPath(c, t, NCGOFN1, p).value).value;
    ResolveAgrees(c, t, p, y);
    LookupView(c, t, y);
  }

  lemma DeleteAt(c: Cipher, t: Table, p: string, a: Id)
    requires Sealed(c, t) && Tree(View(c, t)) && Normalize(p).Ok? && Lookup(View(c, t), Normalize(p).value) == Some(a)
    requires CipherPath(c, t, NCGOFN1, p) == Ok(t[a].path) && Lookup(t, t[a].path) == Some(a)
    ensures Delete(c, t, p).Ok? <==> DeleteFrom(View(c, t), Normalize(p).value).Ok?
    ensures Delete(c, t, p).Ok? ==> Sealed(c, Delete(c, t, p).value)
    ensures Delete(c, t, p).Ok? ==> DeleteFrom(View(c, t), Normalize(p).value) == Ok(View(c, Delete(c, t, p).value))
  {
    ViewRow(c, t, a);
    RootAgrees(c, t, a);
    PathShape(t, a);
    hide CipherPath, View, Sealed, Deleted, Tree, PlainPathOf, PlainName, Normalize;
    if t[a].path != "/" {
      DeletedView(c, t, a);
    }
  }

  // ---------- RenameSubtree ----------

  /** The two ciphertext paths TranslatingStore.RenameSubtree hands to the raw store. */
  ghost function RenamePaths(c: Cipher, t: Table, src: string, dst: string): Result<(string, string)> {
    if src == "/" || dst == "/" then Ok((src, dst))
    else
      var ctSrc :- CipherPath(c, t, NCGOFN1, src);
      var d :- CipherParent(c, t, dst);
      var ctDst :- TokenPath(c, t, d, Base(dst));
      Ok((ctSrc, ctDst))
  }

  ghost function Rename(c: Cipher, t: Table, src: string, dst: string, now: int): Result<Table> {
    var paths :- RenamePaths(c, t, src, dst);
    RenameIn(t, paths.0, paths.1, now)
  }

  /** Moving a joined path is joining the moved parent, unless the path is the source itself. */
  lemma MovedPathJoin(p: string, n: string, src: string, dst: string)
    requires p != "" && src != "" && src != "/" && dst != "" && dst != "/" && '/' !in n && Join(p, n) != src
    ensures MovedPath(Join(p, n), src, dst) == Join(MovedPath(p, src, dst), n)
  {
    BelowJoin(p, n, src);
    if AtOrBelow(p, src) {
      RebaseJoin(p, n, src, dst);
    }
  }

  /** The situation after the guards: `s` is the source row, `d` the destination folder, and the stored
      and the plaintext paths of both ends correspond. */
  ghost predicate Move(c: Cipher, t: Table, src: string, dst: string, ctSrc: string, ctDst: string, s: Id, d: Id) {
    && Sealed(c, t) && s in t && d in t
    && Canonical(src) && src != "/" && Canonical(dst) && dst != "/"
    && Canonical(ctSrc) && ctSrc != "/" && Canonical(ctDst) && ctDst != "/"
    && t[s].path == ctSrc && PlainPathOf(c, t, s) == src && t[s].parent.Some?
    && t[d].isDir && t[d].key.Some? && PlainPathOf(c, t, d) == Dir(dst) && t[d].path == Dir(ctDst)
    && Base(ctDst) == c.enc(t[d].key.value, Base(dst))
    && RenameGuard(t, ctSrc, ctDst) == Ok(d)
    && RenameGuard(View(c, t), src, dst) == Ok(d)
    && !Below(dst, src)
  }

  lemma MoveNotBelow(c: Cipher, t: Table, src: string, dst: string, ctSrc: string, ctDst: string, s: Id, d: Id)
    requires Move(c, t, src, dst, ctSrc, ctDst, s, d)
    ensures !Below(ctDst, ctSrc) && !AtOrBelow(Dir(dst), src)
  {
    CanonicalNonRoot(src);
    CanonicalNonRoot(dst);
    CanonicalNonRoot(ctSrc);
    CanonicalNonRoot(ctDst);
    hide Canonical, Below, Join, Dir, Base, RenameGuard, View, Sealed, PlainPathOf;
    BelowJoin(Dir(dst), Base(dst), src);
    BelowJoin(Dir(ctDst), Base(ctDst), ctSrc);
    BelowAgrees(c, t, d, s);
  }

  lemma MovedSealed(c: Cipher, t: Table, src: string, dst: string, ctSrc: string, ctDst: string, s: Id, d: Id, now: int)
    requires Move(c, t, src, dst, ctSrc, ctDst, s, d)
    ensures Sealed(c, Renamed(t, ctSrc, ctDst, d, now))
  {
    var u := Renamed(t, ctSrc, ctDst, d, now);
    MoveNotBelow(c, t, src, dst, ctSrc, ctDst, s, d);
    RenameKeepsTree(t, ctSrc, ctDst, now);
    forall x | x in u
      ensures SealedRow(c, u, x)
    {
      MovedSealedRow(c, t, src, dst, ctSrc, ctDst, s, d, now, x);
    }
  }

  lemma MovedSealedRow(c: Cipher, t: Table, src: string, dst: string, ctSrc: string, ctDst: string, s: Id, d: Id,
                       now: int, x: Id)
    requires Move(c, t, src, dst, ctSrc, ctDst, s, d) && x in t
    ensures SealedRow(c, Renamed(t, ctSrc, ctDst, d, now), x)
  {
    var u := Renamed(t, ctSrc, ctDst, d, now);
    CanonicalNonRoot(dst);
    SealedTree(c, t);
    assert SealedRow(c, t, x);
    MovedFields(t, ctSrc, ctDst, d, now, x);
    MovedFields(t, ctSrc, ctDst, d, now, d);
    if t[x].parent.Some? {
      MovedFields(t, ctSrc, ctDst, d, now, t[x].parent.value);
    }
    hide Move, Sealed, Canonical, Dir, Base, Tree, Renamed, UniquePaths;
  }

  /** What a rename leaves of a row besides its path. */
  lemma MovedFields(t: Table, src: string, dst: string, d: Id, now: int, x: Id)
    requires x in t
    ensures var u := Renamed(t, src, dst, d, now);
            && x in u && u[x].key == t[x].key && u[x].isDir == t[x].isDir && u[x].scheme == t[x].scheme
            && u[x].name == (if t[x].path == src then Base(dst) else t[x].name)
            && u[x].parent == (if t[x].path == src then Some(d) else t[x].parent)
  {
  }

  lemma MovedName(c: Cipher, t: Table, src: string, dst: string, ctSrc: string, ctDst: string, s: Id, d: Id,
                  now: int, x: Id)
    requires Move(c, t, src, dst, ctSrc, ctDst, s, d) && x in t
    requires Sealed(c, Renamed(t, ctSrc, ctDst, d, now))
    ensures PlainName(c, Renamed(t, ctSrc, ctDst, d, now), x) == if x == s then Base(dst) else PlainName(c, t, x)
    ensures var u := Renamed(t, ctSrc, ctDst, d, now); u[x].parent == if x == s then Some(d) else t[x].parent
  {
    var u := Renamed(t, ctSrc, ctDst, d, now);
    CanonicalNonRoot(dst);
    SealedTree(c, t);
    assert x != s <==> t[x].path != ctSrc;
    assert SealedRow(c, u, x) && SealedRow(c, t, x);
    MovedFields(t, ctSrc, ctDst, d, now, x);
    MovedFields(t, ctSrc, ctDst, d, now, d);
    if t[x].parent.Some? {
      MovedFields(t, ctSrc, ctDst, d, now, t[x].parent.value);
    }
    hide Move, Sealed, Canonical, Dir, Base, Tree, Renamed, UniquePaths;
  }

  /** Plaintext paths move as stored paths do: down the chain of the renamed table. */
  lemma {:induction false} MovedPlainPath(c: Cipher, t: Table, src: string, dst: string, ctSrc: string,
                                          ctDst: string, s: Id, d: Id, now: int, x: Id)
    requires Move(c, t, src, dst, ctSrc, ctDst, s, d) && x in t
    requires Sealed(c, Renamed(t, ctSrc, ctDst, d, now))
    ensures PlainPathOf(c, Renamed(t, ctSrc, ctDst, d, now), x) == MovedPath(PlainPathOf(c, t, x), src, dst)
    decreases |Renamed(t, ctSrc, ctDst, d, now)[x].path|
  {
    var u := Renamed(t, ctSrc, ctDst, d, now);
    MovedName(c, t, src, dst, ctSrc, ctDst, s, d, now, x);
    MoveNotBelow(c, t, src, dst, ctSrc, ctDst, s, d);
    CanonicalNonRoot(src);
    CanonicalNonRoot(dst);
    PlainShape(c, t, x);
    if u[x].parent.None? {
      RootStays(src, dst);
      PlainShape(c, u, x);
    } else {
      var p := u[x].parent.value;
      PlainStep(c, u, x);
      MovedPlainPath(c, t, src, dst, ctSrc, ctDst, s, d, now, p);
      if x != s {
        PlainStep(c, t, x);
        PlainShape(c, t, p);
        BelowAgrees(c, t, x, s);
        MovedChild(c, t, src, dst, ctSrc, s, x, p);
      }
    }
  }

  lemma RootStays(src: string, dst: string)
    requires src != "" && src != "/"
    ensures MovedPath("/", src, dst) == "/"
  {
  }

  lemma MovedChild(c: Cipher, t: Table, src: string, dst: string, ctSrc: string, s: Id, x: Id, p: Id)
    requires Sealed(c, t) && s in t && x in t && x != s && t[x].parent == Some(p) && p in t
    requires PlainPathOf(c, t, s) == src && src != "" && src != "/" && dst != "" && dst != "/"
    ensures MovedPath(PlainPathOf(c, t, x), src, dst) ==
            Join(MovedPath(PlainPathOf(c, t, p), src, dst), PlainName(c, t, x))
  {
    PlainStep(c, t, x);
    PlainShape(c, t, p);
    if PlainPathOf(c, t, x) == src {
      PlainPathInjective(c, t, x, s);
    }
    MovedPathJoin(PlainPathOf(c, t, p), PlainName(c, t, x), src, dst);
  }

  /** Row by row, the view of the renamed table is the renamed view. */
  lemma MovedRow(c: Cipher, t: Table, src: string, dst: string, ctSrc: string, ctDst: string, s: Id, d: Id, now: int,
                 x: Id)
    requires Move(c, t, src, dst, ctSrc, ctDst, s, d) && x in t
    requires Sealed(c, Renamed(t, ctSrc, ctDst, d, now))
    ensures View(c, Renamed(t, ctSrc, ctDst, d, now))[x] == RenamedRow(View(c, t)[x], src, dst, d, now)
  {
    var u := Renamed(t, ctSrc, ctDst, d, now);
    ViewRow(c, t, x);
    ViewRow(c, u, x);
    MovedName(c, t, src, dst, ctSrc, ctDst, s, d, now, x);
    MovedPlainPath(c, t, src, dst, ctSrc, ctDst, s, d, now, x);
    BelowAgrees(c, t, x, s);
    SealedTree(c, t);
    hide Canonical, Dir, Base, RenameGuard, View, PlainPathOf, PlainName, Sealed, Tree, Below, Rebase;
  }

  lemma MovedView(c: Cipher, t: Table, src: string, dst: string, ctSrc: string, ctDst: string, s: Id, d: Id, now: int)
    requires Move(c, t, src, dst, ctSrc, ctDst, s, d)
    ensures Sealed(c, Renamed(t, ctSrc, ctDst, d, now))
    ensures View(c, Renamed(t, ctSrc, ctDst, d, now)) == Renamed(View(c, t), src, dst, d, now)
  {
    var u := Renamed(t, ctSrc, ctDst, d, now);
    MovedSealed(c, t, src, dst, ctSrc, ctDst, s, d, now);
    var v, w := View(c, u), Renamed(View(c, t), src, dst, d, now);
    assert forall x :: x in v <==> x in w;
    forall x | x in v
      ensures v[x] == w[x]
    {
      MovedRow(c, t, src, dst, ctSrc, ctDst, s, d, now, x);
    }
    SameRows(v, w);
  }

  /** What the guards of the translated rename establish. */
  lemma MoveEstablished(c: Cipher, t: Table, src: string, dst: string) returns (s: Id, d: Id)
    requires Sealed(c, t) && Canonical(src) && Canonical(dst) && src != "/" && dst != "/" && !Below(dst, src)
    requires RenamePaths(c, t, src, dst).Ok?
    requires RenameGuard(t, RenamePaths(c, t, src, dst).value.0, RenamePaths(c, t, src, dst).value.1).Ok?
    ensures Move(c, t, src, dst, RenamePaths(c, t, src, dst).value.0, RenamePaths(c, t, src, dst).value.1, s, d)
  {
    var (ctSrc, ctDst) := RenamePaths(c, t, src, dst).value;
    d := CipherParent(c, t, dst).value;
    s := Lookup(t, ctSrc).value;
    NormalizeCanonical(src);
    ParentAgrees(c, t, dst);
    SourceAgrees(c, t, src, s);
    TokenShape(c, t, d, dst);
    TokenTaken(c, t, d, dst);
    ViewRow(c, t, d);
    ViewRow(c, t, s);
    assert PlainPathOf(c, t, d) == Dir(dst);
    StoredCanonical(t, s);
    CanonicalNonRoot(ctDst);
    hide Canonical, Dir, Base, View, PlainPathOf, PlainName, Sealed, Tree, Below, CipherPath, CipherParent,
         TokenPath, Normalize;
    assert RenameGuard(View(c, t), src, dst) == Ok(d);
  }

  lemma SourceAgrees(c: Cipher, t: Table, src: string, s: Id)
    requires Sealed(c, t) && Canonical(src) && src != "/" && CipherPath(c, t, NCGOFN1, src).Ok?
    requires s in t && t[s].path == CipherPath(c, t, NCGOFN1, src).value
    ensures PlainPathOf(c, t, s) == src && Lookup(View(c, t), src) == Some(s) && t[s].parent.Some? && t[s].path != "/"
  {
    NormalizeCanonical(src);
    ResolveAgrees(c, t, src, s);
    LookupView(c, t, s);
    RootAgrees(c, t, s);
    PathShape(t, s);
  }

  /** Renaming through the translation re-tokens one name and rewrites ciphertext prefixes, and the
      decrypted tree is exactly the plaintext tree with `src` moved to `dst`. */
  lemma RenameRefines(c: Cipher, t: Table, src: string, dst: string, now: int)
    requires Sealed(c, t) && Canonical(src) && Canonical(dst) && !Below(dst, src) && Rename(c, t, src, dst, now).Ok?
    ensures Sealed(c, Rename(c, t, src, dst, now).value)
    ensures RenameIn(View(c, t), src, dst, now) == Ok(View(c, Rename(c, t, src, dst, now).value))
  {
    var s, d := MoveEstablished(c, t, src, dst);
    var (ctSrc, ctDst) := RenamePaths(c, t, src, dst).value;
    MovedView(c, t, src, dst, ctSrc, ctDst, s, d, now);
    hide Canonical, Dir, Base, View, Sealed, Below, RenameGuard, Renamed, RenamePaths;
  }

  /** The translated rename inherits the missing guard: it leaves a sealed tree exactly when the plaintext
      destination is not below the plaintext source. */
  lemma RenameExact(c: Cipher, t: Table, src: string, dst: string, now: int)
    requires Sealed(c, t) && Canonical(src) && Canonical(dst) && Rename(c, t, src, dst, now).Ok?
    ensures Sealed(c, Rename(c, t, src, dst, now).value) <==> !Below(dst, src)
  {
    hide Canonical, Sealed, Below, Renamed;
    if !Below(dst, src) {
      RenameRefines(c, t, src, dst, now);
    } else {
      var (ctSrc, ctDst) := RenamePaths(c, t, src, dst).value;
      BelowInBoth(c, t, src, dst);
      SealedTree(c, t);
      RenameKeepsTree(t, ctSrc, ctDst, now);
      NoTreeNotSealed(c, Rename(c, t, src, dst, now).value);
    }
  }

  lemma NoTreeNotSealed(c: Cipher, t: Table)
    requires !Tree(t)
    ensures !Sealed(c, t)
  {
  }

  /** A destination below the source in plaintext is below it in ciphertext. */
  lemma BelowInBoth(c: Cipher, t: Table, src: string, dst: string)
    requires Sealed(c, t) && Canonical(src) && Canonical(dst) && Below(dst, src)
    requires RenamePaths(c, t, src, dst).Ok?
    requires RenameGuard(t, RenamePaths(c, t, src, dst).value.0, RenamePaths(c, t, src, dst).value.1).Ok?
    ensures var (ctSrc, ctDst) := RenamePaths(c, t, src, dst).value;
            Canonical(ctSrc) && Canonical(ctDst) && Below(ctDst, ctSrc)
  {
    hide Canonical, Sealed, Below, Dir, Base, CipherPath, CipherParent, TokenPath, PlainPathOf, View, Tree;
    var (ctSrc, ctDst) := RenamePaths(c, t, src, dst).value;
    var s, d := Lookup(t, ctSrc).value, CipherParent(c, t, dst).value;
    SealedTree(c, t);
    SourceAgrees(c, t, src, s);
    ParentAgrees(c, t, dst);
    StoredCanonical(t, s);
    TokenShape(c, t, d, dst);
    CanonicalNonRoot(dst);
    CanonicalNonRoot(src);
    BelowJoin(Dir(dst), Base(dst), src);
    BelowAgrees(c, t, d, s);
    PathShape(t, s);
    PathShape(t, d);
    BelowJoin(t[d].path, Base(ctDst), ctSrc);
  }

  /** Conversely, within budget every plaintext rename is possible, unless the new entry itself is too long. */
  lemma RenameComplete(c: Cipher, t: Table, src: string, dst: string, now: int)
    requires Sealed(c, t) && WithinBudget(c, t) && Canonical(src) && Canonical(dst)
    requires RenameIn(View(c, t), src, dst, now).Ok?
    ensures Rename(c, t, src, dst, now).Ok? || Rename(c, t, src, dst, now) == Err(NameBudget)
  {
    var s, d := Lookup(View(c, t), src).value, Lookup(View(c, t), Dir(dst)).value;
    NormalizeCanonical(src);
    ViewRow(c, t, s);
    ViewRow(c, t, d);
    ResolveFinds(c, t, src, s);
    RootAgrees(c, t, s);
    ParentFound(c, t, dst);
    TokenShape(c, t, d, dst);
    TokenTaken(c, t, d, dst);
    SealedTree(c, t);
    LookupStored(t, s);
    hide Canonical, Dir, Base, View, Sealed, Below, Renamed, CipherPath, CipherParent, TokenPath, PlainPathOf,
         PlainName, WithinBudget;
  }

  /** Only the moved entry is checked against the length budget: the whole tree stays within it exactly
      when the longest path below the source still fits after the change of prefix. */
  lemma RenameBudget(c: Cipher, t: Table, src: string, dst: string, now: int)
    requires Sealed(c, t) && WithinBudget(c, t) && Canonical(src) && Canonical(dst) && !Below(dst, src)
    requires src != "/" && dst != "/"
    requires Rename(c, t, src, dst, now).Ok? && Sealed(c, Rename(c, t, src, dst, now).value)
    ensures var (ctSrc, ctDst) := RenamePaths(c, t, src, dst).value;
            WithinBudget(c, Rename(c, t, src, dst, now).value) <==>
              forall x :: x in t && Below(t[x].path, ctSrc) ==> |t[x].path| - |ctSrc| + |ctDst| <= MAX_CIPHER_PATH
  {
    var (ctSrc, ctDst) := RenamePaths(c, t, src, dst).value;
    hide Base, Canonical, View, Sealed, Below, Renamed, RenamePaths, WithinBudget, Tree, PlainPathOf, Lookup, Move;
    PathsBudget(c, t, src, dst);
    RenameOk(t, ctSrc, ctDst, now);
    hide RenameGuard, RenameIn;
    var s, d := MoveEstablished(c, t, src, dst);
    MoveTarget(c, t, src, dst, ctSrc, ctDst, s, d);
    MoveBudget(c, t, src, dst, ctSrc, ctDst, s, d, now);
  }

  lemma PathsBudget(c: Cipher, t: Table, src: string, dst: string)
    requires RenamePaths(c, t, src, dst).Ok? && src != "/" && dst != "/"
    ensures |Base(dst)| <= MAX_NAME_RUNES && |RenamePaths(c, t, src, dst).value.1| <= MAX_CIPHER_PATH
  {
    hide Base, CipherPath, CipherParent, Join, ValidName;
  }

  lemma RenameOk(t: Table, src: string, dst: string, now: int)
    requires RenameIn(t, src, dst, now).Ok?
    ensures RenameGuard(t, src, dst).Ok?
      && RenameIn(t, src, dst, now).value == Renamed(t, src, dst, RenameGuard(t, src, dst).value, now)
  {
    hide Renamed;
  }

  lemma MoveTarget(c: Cipher, t: Table, src: string, dst: string, ctSrc: string, ctDst: string, s: Id, d: Id)
    requires Move(c, t, src, dst, ctSrc, ctDst, s, d)
    ensures RenameGuard(t, ctSrc, ctDst) == Ok(d)
  {
  }

  lemma MoveBudget(c: Cipher, t: Table, src: string, dst: string, ctSrc: string, ctDst: string, s: Id, d: Id, now: int)
    requires Move(c, t, src, dst, ctSrc, ctDst, s, d) && WithinBudget(c, t)
    requires Sealed(c, Renamed(t, ctSrc, ctDst, d, now))
    requires |Base(dst)| <= MAX_NAME_RUNES && |ctDst| <= MAX_CIPHER_PATH
    ensures WithinBudget(c, Renamed(t, ctSrc, ctDst, d, now)) <==>
              forall x :: x in t && Below(t[x].path, ctSrc) ==> |t[x].path| - |ctSrc| + |ctDst| <= MAX_CIPHER_PATH
  {
    var u := Renamed(t, ctSrc, ctDst, d, now);
    assert u.Keys == t.Keys;
    hide Below, Move, PlainName, Renamed, Base, Sealed;
    forall x | x in t
      ensures |PlainName(c, u, x)| <= MAX_NAME_RUNES
      ensures |u[x].path| <= MAX_CIPHER_PATH <==>
              (Below(t[x].path, ctSrc) ==> |t[x].path| - |ctSrc| + |ctDst| <= MAX_CIPHER_PATH)
    {
      BudgetAt(c, t, src, dst, ctSrc, ctDst, s, d, now, x);
    }
    BudgetIff(c, t, u, ctSrc, ctDst);
  }

  lemma BudgetIff(c: Cipher, t: Table, u: Table, ctSrc: string, ctDst: string)
    requires Sealed(c, u) && u.Keys == t.Keys
    requires forall x :: x in t ==> |PlainName(c, u, x)| <= MAX_NAME_RUNES
    requires forall x :: x in t ==>
      (|u[x].path| <= MAX_CIPHER_PATH <==> (Below(t[x].path, ctSrc) ==>
        |t[x].path| - |ctSrc| + |ctDst| <= MAX_CIPHER_PATH))
    ensures WithinBudget(c, u) <==>
              forall x :: x in t && Below(t[x].path, ctSrc) ==> |t[x].path| - |ctSrc| + |ctDst| <= MAX_CIPHER_PATH
  {
    hide Below, PlainName, Sealed;
  }

  lemma BudgetAt(c: Cipher, t: Table, src: string, dst: string, ctSrc: string, ctDst: string, s: Id, d: Id, now: int,
                 x: Id)
    requires Move(c, t, src, dst, ctSrc, ctDst, s, d) && x in t && WithinBudget(c, t)
    requires Sealed(c, Renamed(t, ctSrc, ctDst, d, now))
    requires |Base(dst)| <= MAX_NAME_RUNES && |ctDst| <= MAX_CIPHER_PATH
    ensures var u := Renamed(t, ctSrc, ctDst, d, now);
            && |PlainName(c, u, x)| <= MAX_NAME_RUNES
            && (|u[x].path| <= MAX_CIPHER_PATH <==> (Below(t[x].path, ctSrc) ==>
              |t[x].path| - |ctSrc| + |ctDst| <= MAX_CIPHER_PATH))
  {
    MovedName(c, t, src, dst, ctSrc, ctDst, s, d, now, x);
    MovedLength(t, ctSrc, ctDst, d, now, x);
    assert |PlainName(c, t, x)| <= MAX_NAME_RUNES && |t[x].path| <= MAX_CIPHER_PATH;
    hide Move, Below, Canonical, PlainName, Renamed, RenameGuard, Base, Sealed, WithinBudget;
  }

  lemma MovedLength(t: Table, src: string, dst: string, d: Id, now: int, x: Id)
    requires x in t
    ensures var p := Renamed(t, src, dst, d, now)[x].path;
            && (Below(t[x].path, src) ==> |p| == |t[x].path| - |src| + |dst|)
            && (!Below(t[x].path, src) ==> |p| == if t[x].path == src then |dst| else |t[x].path|)
  {
  }

  // ---------- UpdateMeta ----------

  /** reCipherRow: the row handed to the raw store for a row in plaintext view. */
  ghost function ReCipher(c: Cipher, t: Table, f: Row): Result<Row> {
    hide Normalize, Base;
    var np :- Normalize(f.path);
    if np == "/" || f.scheme != NCGOFN1 then Ok(f)
    else if f.parent.None? then Err(Invalid)
    else if f.parent.value !in t then Err(NotFound)
    else
      var name := if f.name == "" then Base(np) else f.name;
      var ct :- TokenPath(c, t, f.parent.value, name);
      Ok(f.(name := c.enc(t[f.parent.value].key.value, name), path := ct))
  }

  /** Writing back a row read through the boundary, whatever other columns changed, leaves its stored name
      and path as they were. */
  lemma WriteBackKeepsTokens(c: Cipher, t: Table, x: Id, f: Row)
    requires Sealed(c, t) && x in t
    requires var r := View(c, t)[x];
             f.name == r.name && f.path == r.path && f.parent == r.parent && f.scheme == r.scheme
    ensures WithinBudget(c, t) ==> ReCipher(c, t, f).Ok?
    ensures ReCipher(c, t, f).Ok? ==> ReCipher(c, t, f).value == f.(name := t[x].name, path := t[x].path)
  {
    hide Canonical, View, Sealed, Tree, PlainPathOf, WithinBudget, Normalize, Join, Base, SealedRow, PlainName,
         TokenPath;
    ViewRow(c, t, x);
    PlainNormal(c, t, x);
    RootStored(c, t, x);
    if t[x].parent.Some? {
      TokensOf(c, t, x);
    }
  }

  lemma RootStored(c: Cipher, t: Table, x: Id)
    requires Sealed(c, t) && x in t
    ensures PlainPathOf(c, t, x) == "/" <==> t[x].parent.None?
    ensures t[x].parent.None? ==> t[x].path == "/" && t[x].name == "" && PlainName(c, t, x) == ""
  {
    hide PlainPathOf;
    PlainShape(c, t, x);
    assert RowOk(t, x);
  }

  /** UpdateMeta through the translation, for the row with id `x`. */
  ghost function Update(c: Cipher, t: Table, x: Id, f: Row): Result<Table> {
    if x == 0 then Err(Invalid)
    else
      var g :- ReCipher(c, t, f);
      if x !in t then Ok(t)
      else if MetaFits(t, x, g) then Ok(t[x := g.(scheme := t[x].scheme)])
      else Err(Conflict)
  }

  /** Writing back a row with another size, time or, for a file, key changes just that in the view. */
  lemma UpdateRefines(c: Cipher, t: Table, x: Id, size: int, mtime: int, key: Option<Key>)
    requires Sealed(c, t) && x in t && (t[x].isDir ==> key == t[x].key)
    ensures var f := View(c, t)[x].(size := size, mtime := mtime, key := key);
            && (WithinBudget(c, t) ==> Update(c, t, x, f).Ok?)
            && (Update(c, t, x, f).Ok? ==>
                  && Update(c, t, x, f).value == t[x := t[x].(size := size, mtime := mtime, key := key)]
                  && Sealed(c, Update(c, t, x, f).value) && View(c, Update(c, t, x, f).value) == View(c, t)[x := f])
  {
    hide ReCipher, View, Sealed, Tree, WithinBudget;
    var f := View(c, t)[x].(size := size, mtime := mtime, key := key);
    var u := t[x := t[x].(size := size, mtime := mtime, key := key)];
    ViewRow(c, t, x);
    WriteBackKeepsTokens(c, t, x, f);
    RowFits(c, t, x);
    SameShapeSealed(c, t, u);
    forall y | y in t
      ensures View(c, u)[y] == View(c, t)[x := f][y]
    {
      ViewRow(c, t, y);
      ViewRow(c, u, y);
      SameShapePlain(c, t, u, y);
    }
    SameRows(View(c, u), View(c, t)[x := f]);
  }

  /** A write-back of any encrypted row: it goes under the token of its name in the folder its parent id names, whatever
      the rest of its path says, and is refused when another row has that place in the view. */
  lemma UpdatePlaces(c: Cipher, t: Table, x: Id, f: Row, np: string, d: Id, n: string)
    requires Sealed(c, t) && x in t && f.scheme == 1 && Normalize(f.path) == Ok(np) && np != "/"
    requires f.parent == Some(d) && d in t && t[d].isDir && n == (if f.name == "" then Base(np) else f.name)
    requires ValidName(n)
    ensures t[d].key.Some?
    ensures var r, tok := Update(c, t, x, f), c.enc(t[d].key.value, n);
            var ct := Join(t[d].path, tok);
            && (r == Err(NameBudget) <==> |n| > 255 || |ct| > 768)
            && (r == Err(Conflict) <==>
                  |n| <= 255 && |ct| <= 768 && HeldByOther(c, t, x, Join(PlainPathOf(c, t, d), n)))
            && (r.Err? ==> r == Err(NameBudget) || r == Err(Conflict))
            && (r.Ok? ==> r.value == t[x := f.(name := tok, path := ct, scheme := t[x].scheme)])
  {
    hide Sealed, Tree, PlainPathOf, Normalize, Base, ValidName, Join, Canonical;
    RowFits(c, t, x);
    FolderHasKey(c, t, d);
    if TokenPath(c, t, d, n).Ok? {
      forall y | y in t
        ensures t[y].path == TokenPath(c, t, d, n).value <==> PlainPathOf(c, t, y) == Join(PlainPathOf(c, t, d), n)
      {
        TokenPathAgrees(c, t, d, n, y);
      }
    }
  }

  /** Another row has the plaintext path. */
  ghost predicate HeldByOther(c: Cipher, t: Table, x: Id, p: string)
    requires Sealed(c, t)
  {
    exists y :: y in t && y != x && PlainPathOf(c, t, y) == p
  }

  lemma FolderHasKey(c: Cipher, t: Table, d: Id)
    requires Sealed(c, t) && d in t && t[d].isDir
    ensures t[d].key.Some?
  {
    assert SealedRow(c, t, d);
  }

  /** A row without a parent, or with one that is gone, is not written back. */
  lemma UpdateRefuses(c: Cipher, t: Table, x: Id, f: Row)
    requires x != 0 && f.scheme == 1 && Normalize(f.path).Ok? && Normalize(f.path).value != "/"
    ensures f.parent.None? ==> Update(c, t, x, f) == Err(Invalid)
    ensures f.parent.Some? && f.parent.value !in t ==> Update(c, t, x, f) == Err(NotFound)
  {
    hide Normalize;
  }

  // ---------- rows and users without encrypted names ----------

  /** A scheme-0 row, of a plaintext user or left over under a scheme-1 user, is written back as it is: just its size,
      time and key change. */
  lemma PlainWriteBack(c: Cipher, t: Table, x: Id, f: Row)
    requires Tree(t) && x in t && f == t[x].(size := f.size, mtime := f.mtime, key := f.key) && f.scheme != NCGOFN1
    ensures Update(c, t, x, f) == Ok(t[x := f])
  {
    hide Tree, Canonical, Normalize;
    StoredCanonical(t, x);
    NormalizeCanonical(t[x].path);
    TreeRowFits(t, x);
  }

  lemma TreeRowFits(t: Table, x: Id)
    requires Tree(t) && x in t
    ensures x != 0 && MetaFits(t, x, t[x])
  {
    assert RowOk(t, x);
  }

  /** For a plaintext user the translating lookup is the raw lookup, as far as the row found is scheme 0. */
  lemma PlainGet(c: Cipher, t: Table, scheme: int, p: string)
    requires Tree(t) && scheme != NCGOFN1
    ensures Normalize(p).Err? ==> Get(c, t, scheme, p) == Err(InvalidPath)
    ensures Normalize(p).Ok? ==>
      var seen := Lookup(t, Normalize(p).value);
      && (seen.None? ==> Get(c, t, scheme, p) == Err(NotFound))
      && (seen.Some? && t[seen.value].scheme != NCGOFN1 ==> Get(c, t, scheme, p) == Ok((seen.value, t[seen.value])))
  {
    hide Tree;
  }

  /** Reading a row and writing it back with another size, time or key changes just that, for such a user. */
  lemma PlainReadWrite(c: Cipher, t: Table, scheme: int, p: string, size: int, mtime: int, key: Option<Key>)
    requires Tree(t) && scheme != NCGOFN1 && (forall x :: x in t ==> t[x].scheme != NCGOFN1)
    requires Get(c, t, scheme, p).Ok?
    ensures var (x, r) := Get(c, t, scheme, p).value;
            && x in t && Update(c, t, x, r.(size := size, mtime := mtime, key := key)) ==
                          Ok(t[x := t[x].(size := size, mtime := mtime, key := key)])
  {
    hide Tree, Get, Update;
    PlainGet(c, t, scheme, p);
    var (x, r) := Get(c, t, scheme, p).value;
    PlainWriteBack(c, t, x, r.(size := size, mtime := mtime, key := key));
  }

  /** Dual read: above a row nothing is encrypted, so its path is the stored one. */
  lemma {:induction false} PlainChain(c: Cipher, t: Table, x: Id)
    requires Tree(t) && x in t && forall y :: y in t && Under(t, x, y) ==> t[y].scheme != NCGOFN1
    ensures DecryptedPath(c, t, x) == Ok(t[x].path)
    decreases |t[x].path|
  {
    assert RowOk(t, x) && Under(t, x, x);
    if t[x].parent.Some? {
      PathShape'(t, x);
      var p := t[x].parent.value;
      forall y | y in t && Under(t, p, y)
        ensures t[y].scheme != NCGOFN1
      {
        assert Under(t, x, y);
      }
      PlainChain(c, t, p);
    }
  }

  /** An encrypted row below folders that are not: only its own name is decrypted. */
  lemma DualRead(c: Cipher, t: Table, x: Id)
    requires Tree(t) && x in t && t[x].scheme == NCGOFN1 && t[x].parent.Some? && t[x].parent.value in t
    requires forall y :: y in t && Under(t, t[x].parent.value, y) ==> t[y].scheme != NCGOFN1
    ensures var p := t[x].parent.value;
            DecryptRow(c, t, x) ==
              if t[p].key.None? then Err(MissingKey)
              else if c.dec(t[p].key.value, t[x].name).None? then Err(Integrity)
              else
                var n := c.dec(t[p].key.value, t[x].name).value;
                Ok(t[x].(name := n, path := Join(t[p].path, n)))
  {
    hide Under;
    PathShape'(t, x);
    PlainChain(c, t, t[x].parent.value);
  }

  /** Paths of a plaintext user are not translated in either direction. */
  lemma PlainPaths(c: Cipher, t: Table, scheme: int, p: string)
    requires scheme != NCGOFN1
    ensures CipherPath(c, t, scheme, p) == Normalize(p) && PlainPath(c, t, scheme, p) == Normalize(p)
  {
    hide Normalize;
  }

  lemma RowFits(c: Cipher, t: Table, x: Id)
    requires Sealed(c, t) && x in t
    ensures x != 0 && MetaFits(t, x, t[x])
  {
    assert RowOk(t, x);
  }

  /** The tables differ in sizes, times and the keys of files only. */
  ghost predicate SameShaped(t: Table, u: Table) {
    u.Keys == t.Keys && forall x :: x in t ==> SameShapedRow(t[x], u[x])
  }

  predicate SameShapedRow(r: Row, q: Row) {
    q == r.(size := q.size, mtime := q.mtime, key := q.key) && (r.isDir ==> q.key == r.key)
  }

  lemma SameShapeSealed(c: Cipher, t: Table, u: Table)
    requires Sealed(c, t) && SameShaped(t, u)
    ensures Sealed(c, u)
  {
    hide Tree, SealedRow;
    SameTree(t, u);
    forall x | x in u
      ensures SealedRow(c, u, x)
    {
      SameShapeSealedRow(c, t, u, x);
    }
  }

  lemma SameShapeSealedRow(c: Cipher, t: Table, u: Table, x: Id)
    requires Tree(t) && x in t && SealedRow(c, t, x) && SameShaped(t, u)
    ensures SealedRow(c, u, x)
  {
    hide Tree, ValidName;
    if t[x].parent.Some? {
      DirectoryParent(t, x);
    }
  }

  lemma DirectoryParent(t: Table, x: Id)
    requires Tree(t) && x in t && t[x].parent.Some?
    ensures t[x].parent.value in t && t[t[x].parent.value].isDir
  {
    assert RowOk(t, x);
  }

  lemma {:induction false} SameShapePlain(c: Cipher, t: Table, u: Table, x: Id)
    requires Sealed(c, t) && Sealed(c, u) && SameShaped(t, u) && x in t
    ensures PlainName(c, u, x) == PlainName(c, t, x) && PlainPathOf(c, u, x) == PlainPathOf(c, t, x)
    decreases |t[x].path|
  {
    if t[x].parent.Some? {
      PlainStep(c, t, x);
      PlainStep(c, u, x);
      SameShapePlain(c, t, u, t[x].parent.value);
    }
  }

  lemma TokensOf(c: Cipher, t: Table, x: Id)
    requires Sealed(c, t) && x in t && t[x].parent.Some?
    ensures var p := t[x].parent.value;
            && p in t && t[p].key.Some? && PlainName(c, t, x) != "" && t[x].scheme == NCGOFN1
            && c.enc(t[p].key.value, PlainName(c, t, x)) == t[x].name
            && (WithinBudget(c, t) ==> TokenPath(c, t, p, PlainName(c, t, x)).Ok?)
            && (TokenPath(c, t, p, PlainName(c, t, x)).Ok? ==>
              TokenPath(c, t, p, PlainName(c, t, x)).value == t[x].path)
  {
    hide Tree, Join, PlainPathOf, PlainName;
    PlainStep(c, t, x);
    assert SealedRow(c, t, x);
  }
}
