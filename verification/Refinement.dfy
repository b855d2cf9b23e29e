/** The translating store (internal/files/nametranslate_stores.go) behaves as the plaintext store: its
    operations on a sealed table are the raw operations on the table's plaintext view. */
module Refinement {
  import opened Common
  import opened Paths
  import opened Filecache
  import opened SqlStore
  import opened NameTranslation

  // ---------- facts about stored paths ----------

  lemma {:induction false} StoredCanonical(t: Table, x: Id)
    requires Tree(t) && x in t
    ensures Canonical(t[x].path)
    decreases |t[x].path|
  {
    assert RowOk(t, x);
    match t[x].parent
    case None =>
      assert ValidNames([]) && Render([]) == "/";
    case Some(p) =>
      PathShape'(t, x);
      StoredCanonical(t, p);
      CanonicalJoin(t[p].path, t[x].name);
  }

  lemma CanonicalJoin(p: string, n: string)
    requires Canonical(p) && ValidName(n)
    ensures Canonical(Join(p, n))
  {
    SegmentsCanonical(p);
    JoinAllSnoc("/", Segments(p), n);
    assert ValidNames(Segments(p) + [n]) && Join(p, n) == Render(Segments(p) + [n]);
  }

  lemma ViewRow(c: Cipher, t: Table, x: Id)
    requires Sealed(c, t) && x in t
    ensures View(c, t)[x] == t[x].(name := PlainName(c, t, x), path := PlainPathOf(c, t, x))
  {
  }

  lemma LookupView(c: Cipher, t: Table, x: Id)
    requires Sealed(c, t) && x in t
    ensures Lookup(View(c, t), PlainPathOf(c, t, x)) == Some(x)
  {
    ViewIsTree(c, t);
    TreeUnique(View(c, t));
    LookupStored(View(c, t), x);
    assert View(c, t)[x].path == PlainPathOf(c, t, x);
  }

  lemma SealedTree(c: Cipher, t: Table)
    requires Sealed(c, t)
    ensures Tree(t) && UniquePaths(t)
  {
  }

  /** The root of a sealed tree is stored at "/" and seen at "/". */
  lemma RootAgrees(c: Cipher, t: Table, x: Id)
    requires Sealed(c, t) && x in t
    ensures t[x].path == "/" <==> PlainPathOf(c, t, x) == "/"
    ensures t[x].path == "/" ==> t[x].isDir && t[x].key.Some?
  {
    PathShape(t, x);
    PlainShape(c, t, x);
    assert RowOk(t, x) && SealedRow(c, t, x);
  }

  // ---------- path resolution ----------

  /** cipherPath and the view agree: when resolution succeeds, a row is stored at the ciphertext path
      exactly when it is seen at the plaintext path. */
  lemma ResolveAgrees(c: Cipher, t: Table, p: string, y: Id)
    requires Sealed(c, t) && y in t && CipherPath(c, t, NCGOFN1, p).Ok?
    ensures t[y].path == CipherPath(c, t, NCGOFN1, p).value <==> PlainPathOf(c, t, y) == Normalize(p).value
  {
    hide Walk, Sealed, Normalize, Segments, JoinAll, PlainPathOf, Canonical;
    var np := Normalize(p).value;
    NormalizeCanonical(p);
    SegmentsCanonical(np);
    RootAgrees(c, t, y);
    if np != "/" {
      var root := Lookup(t, "/").value;
      RootAgrees(c, t, root);
      WalkAgrees(c, t, root, Segments(np), y);
    }
  }

  /** Every row of a tree within budget resolves from its plaintext path to its stored path. */
  lemma ResolveFinds(c: Cipher, t: Table, p: string, y: Id)
    requires Sealed(c, t) && WithinBudget(c, t) && y in t && Normalize(p) == Ok(PlainPathOf(c, t, y))
    ensures CipherPath(c, t, NCGOFN1, p) == Ok(t[y].path)
  {
    SealedTree(c, t);
    hide Walk, Sealed, Tree, Normalize, Segments, JoinAll, PlainPathOf, Canonical, WithinBudget;
    var np := PlainPathOf(c, t, y);
    NormalizeCanonical(p);
    SegmentsCanonical(np);
    RootAgrees(c, t, y);
    if np != "/" {
      var root := RootOf(t, y);
      LookupStored(t, root);
      RootAgrees(c, t, root);
      WalkFinds(c, t, root, Segments(np), y);
    }
  }

  lemma {:induction false} WalkLengths(c: Cipher, t: Table, parent: Row, at: string, segs: seq<string>)
    requires segs != [] && Walk(c, t, parent, at, segs).Ok?
    ensures |Walk(c, t, parent, at, segs).value| <= MAX_CIPHER_PATH && |segs[|segs| - 1]| <= MAX_NAME_RUNES
    decreases |segs|
  {
    if |segs| > 1 {
      var ct := Join(at, CipherSegment(c, parent, segs[0]).value);
      WalkLengths(c, t, t[Lookup(t, ct).value], ct, segs[1..]);
    }
  }

  /** The length budget is what resolution needs: it holds exactly when every stored row can be reached by its
      plaintext path. */
  lemma BudgetIsResolvability(c: Cipher, t: Table)
    requires Sealed(c, t)
    ensures WithinBudget(c, t) <==> forall y :: y in t ==> CipherPath(c, t, NCGOFN1, PlainPathOf(c, t, y)).Ok?
  {
    hide Sealed, PlainPathOf, PlainName, CipherPath;
    if WithinBudget(c, t) {
      forall y | y in t
        ensures CipherPath(c, t, NCGOFN1, PlainPathOf(c, t, y)).Ok?
      {
        PlainNormal(c, t, y);
        ResolveFinds(c, t, PlainPathOf(c, t, y), y);
      }
    }
    forall y | y in t && CipherPath(c, t, NCGOFN1, PlainPathOf(c, t, y)).Ok?
      ensures |PlainName(c, t, y)| <= MAX_NAME_RUNES && |t[y].path| <= MAX_CIPHER_PATH
    {
      ResolvedFits(c, t, y);
    }
  }

  lemma PlainNormal(c: Cipher, t: Table, y: Id)
    requires Sealed(c, t) && y in t
    ensures Canonical(PlainPathOf(c, t, y)) && Normalize(PlainPathOf(c, t, y)) == Ok(PlainPathOf(c, t, y))
  {
    hide Canonical, Normalize, Sealed, PlainPathOf, View, Tree;
    ViewIsTree(c, t);
    StoredCanonical(View(c, t), y);
    ViewRow(c, t, y);
    NormalizeCanonical(PlainPathOf(c, t, y));
  }

  lemma ResolvedFits(c: Cipher, t: Table, y: Id)
    requires Sealed(c, t) && y in t && CipherPath(c, t, NCGOFN1, PlainPathOf(c, t, y)).Ok?
    ensures |PlainName(c, t, y)| <= MAX_NAME_RUNES && |t[y].path| <= MAX_CIPHER_PATH
  {
    hide Walk, Sealed, Normalize, Segments, PlainPathOf, Canonical, PlainName;
    var np := PlainPathOf(c, t, y);
    PlainNormal(c, t, y);
    ResolveAgrees(c, t, np, y);
    RootAgrees(c, t, y);
    PlainShape(c, t, y);
    SegmentsCanonical(np);
    if np == "/" {
      RootName(c, t, y);
    } else {
      WalkLengths(c, t, t[Lookup(t, "/").value], "/", Segments(np));
      LastSegment(c, t, y);
    }
  }

  lemma RootName(c: Cipher, t: Table, y: Id)
    requires Sealed(c, t) && y in t && t[y].parent.None?
    ensures PlainName(c, t, y) == ""
  {
  }

  lemma LastSegment(c: Cipher, t: Table, y: Id)
    requires Sealed(c, t) && y in t && t[y].parent.Some?
    ensures var segs := Segments(PlainPathOf(c, t, y)); segs != [] && segs[|segs| - 1] == PlainName(c, t, y)
  {
    hide Sealed, Segments, Canonical, PlainName, JoinAll;
    var p, n := t[y].parent.value, PlainName(c, t, y);
    PlainStep(c, t, y);
    PlainNormal(c, t, p);
    var segs := Segments(PlainPathOf(c, t, p));
    SegmentsCanonical(PlainPathOf(c, t, p));
    JoinAllSnoc("/", segs, n);
    SegmentsOfRender(segs + [n]);
  }

  /** TranslatingStore.GetByPath. */
  ghost function Get(c: Cipher, t: Table, scheme: int, p: string): Result<(Id, Row)>
    requires Tree(t)
  {
    var cp :- CipherPath(c, t, scheme, p);
    match Lookup(t, cp)
    case None => Err(NotFound)
    case Some(x) =>
      var row :- DecryptRow(c, t, x);
      Ok((x, row))
  }

  /** Whatever the translating lookup returns is the row the plaintext store holds at that path. */
  lemma GetSound(c: Cipher, t: Table, p: string)
    requires Sealed(c, t) && Get(c, t, NCGOFN1, p).Ok?
    ensures var x := Get(c, t, NCGOFN1, p).value.0;
            && Normalize(p).Ok? && Lookup(View(c, t), Normalize(p).value) == Some(x)
            && Get(c, t, NCGOFN1, p).value.1 == View(c, t)[x]
  {
    SealedTree(c, t);
    hide DecryptRow, Sealed, Tree, PlainPathOf, Normalize, Walk;
    var x := Get(c, t, NCGOFN1, p).value.0;
    ResolveAgrees(c, t, p, x);
    DecryptRowIsView(c, t, x);
    LookupView(c, t, x);
  }

  lemma BadPath(c: Cipher, t: Table, p: string)
    requires Normalize(p).Err?
    ensures CipherPath(c, t, NCGOFN1, p) == Err(Normalize(p).error)
  {
  }

  /** On a tree within budget the translating lookup is the plaintext lookup. */
  lemma GetRefines(c: Cipher, t: Table, p: string)
    requires Sealed(c, t) && WithinBudget(c, t)
    ensures match Normalize(p)
            case Err(e) => Get(c, t, NCGOFN1, p) == Err(e)
            case Ok(np) =>
              match Lookup(View(c, t), np)
              case None => Get(c, t, NCGOFN1, p).Err?
              case Some(x) => Get(c, t, NCGOFN1, p) == Ok((x, View(c, t)[x]))
  {
    SealedTree(c, t);
    hide CipherPath, DecryptRow, Sealed, Tree, PlainPathOf, Normalize;
    if Normalize(p).Err? {
      BadPath(c, t, p);
    }
    if Get(c, t, NCGOFN1, p).Ok? {
      GetSound(c, t, p);
    }
    if Normalize(p).Ok? && Lookup(View(c, t), Normalize(p).value).Some? {
      var x := Lookup(View(c, t), Normalize(p).value).value;
      ResolveFinds(c, t, p, x);
      LookupStored(t, x);
      DecryptRowIsView(c, t, x);
    }
  }

  // ---------- Insert ----------

  /** cipherParent: the stored row of the parent of a plaintext path. */
  ghost function CipherParent(c: Cipher, t: Table, np: string): (r: Result<Id>)
    ensures r.Ok? ==> r.value in t && t[r.value].isDir
  {
    match CipherPath(c, t, NCGOFN1, Dir(np))
    case Err(e) => if e == NotFound then Err(ParentMissing) else Err(e)
    case Ok(cp) =>
      match Lookup(t, cp)
      case None => Err(ParentMissing)
      case Some(x) => if t[x].isDir then Ok(x) else Err(NotDir)
  }

  /** joinTokenPath after cipherSegment: the stored path of `name` in folder `d`. */
  ghost function TokenPath(c: Cipher, t: Table, d: Id, name: string): Result<string>
    requires d in t
  {
    var tok :- CipherSegment(c, t[d], name);
    if |Join(t[d].path, tok)| > MAX_CIPHER_PATH then Err(NameBudget) else Ok(Join(t[d].path, tok))
  }

  /** The parent row found for a plaintext path is the one the view has there. */
  lemma ParentAgrees(c: Cipher, t: Table, np: string)
    requires Sealed(c, t) && Canonical(np) && np != "/" && CipherParent(c, t, np).Ok?
    ensures Lookup(View(c, t), Dir(np)) == Some(CipherParent(c, t, np).value)
    ensures t[CipherParent(c, t, np).value].key.Some?
    ensures PlainPathOf(c, t, CipherParent(c, t, np).value) == Dir(np)
  {
    hide Canonical, Normalize, Dir, View, PlainPathOf, Tree;
    var d := CipherParent(c, t, np).value;
    CanonicalNonRoot(np);
    NormalizeCanonical(Dir(np));
    ResolveAgrees(c, t, Dir(np), d);
    LookupView(c, t, d);
    assert SealedRow(c, t, d);
  }

  /** Conversely, within budget the parent is found when the view has it. */
  lemma ParentFound(c: Cipher, t: Table, np: string)
    requires Sealed(c, t) && WithinBudget(c, t) && Canonical(np) && np != "/" && Lookup(View(c, t), Dir(np)).Some?
    ensures var d := Lookup(View(c, t), Dir(np)).value;
            CipherParent(c, t, np) == if t[d].isDir then Ok(d) else Err(NotDir)
  {
    var d := Lookup(View(c, t), Dir(np)).value;
    CanonicalNonRoot(np);
    NormalizeCanonical(Dir(np));
    ResolveFinds(c, t, Dir(np), d);
    TreeUnique(t);
    LookupStored(t, d);
  }

  /** What the token path of a name says about the view. */
  lemma TokenPathAgrees(c: Cipher, t: Table, d: Id, name: string, y: Id)
    requires Sealed(c, t) && d in t && t[d].isDir && ValidName(name) && y in t && TokenPath(c, t, d, name).Ok?
    ensures t[y].path == TokenPath(c, t, d, name).value <==> PlainPathOf(c, t, y) == Join(PlainPathOf(c, t, d), name)
    ensures Canonical(TokenPath(c, t, d, name).value) && TokenPath(c, t, d, name).value != "/"
    ensures Dir(TokenPath(c, t, d, name).value) == t[d].path
    ensures Base(TokenPath(c, t, d, name).value) == c.enc(t[d].key.value, name) != ""
  {
    ChildAgrees(c, t, d, name, y);
    var tok := c.enc(t[d].key.value, name);
    assert ValidName(tok);
    StoredCanonical(t, d);
    PathShape(t, d);
    CanonicalJoin(t[d].path, tok);
    DirBaseOfJoin(t[d].path, tok);
  }

  /** The row TranslatingStore.Insert hands to the raw store, for a scheme-1 user and a canonical path. */
  ghost function SealedRowToInsert(c: Cipher, t: Table, f: Row, np: string): Result<Row> {
    if np == "/" then RowToInsert(t, f, np)
    else
      var d :- CipherParent(c, t, np);
      var name := if f.name == "" then Base(np) else f.name;
      var ct :- TokenPath(c, t, d, name);
      RowToInsert(t, f.(name := c.enc(t[d].key.value, name), scheme := NCGOFN1), ct)
  }

  ghost function Insert(c: Cipher, t: Table, id: Id, f: Row, np: string): Result<Table> {
    var r :- SealedRowToInsert(c, t, f, np);
    Ok(t[id := r])
  }

  /** Rows two sealed tables share have the same plaintext names and paths in both. */
  lemma {:induction false} PlainShared(c: Cipher, t: Table, u: Table, x: Id)
    requires Sealed(c, t) && Sealed(c, u) && x in t
    requires forall y :: y in t ==> y in u && u[y] == t[y]
    ensures PlainName(c, u, x) == PlainName(c, t, x) && PlainPathOf(c, u, x) == PlainPathOf(c, t, x)
    decreases |t[x].path|
  {
    if t[x].parent.Some? {
      PlainStep(c, t, x);
      PlainStep(c, u, x);
      PlainShared(c, t, u, t[x].parent.value);
    }
  }

  /** `r` is a sealed row for `name` in folder `d`, at a free path. */
  ghost predicate NewRow(c: Cipher, t: Table, r: Row, d: Id, name: string) {
    && d in t && t[d].isDir && t[d].key.Some? && ValidName(name)
    && r.parent == Some(d) && r.scheme == NCGOFN1 && (r.isDir ==> r.key.Some?)
    && r.name == c.enc(t[d].key.value, name) && r.path == Join(t[d].path, r.name)
    && forall x :: x in t ==> t[x].path != r.path
  }

  /** Adding one sealed row adds one row to the view. */
  lemma AddedView(c: Cipher, t: Table, u: Table, id: Id, d: Id, name: string)
    requires Sealed(c, t) && Sealed(c, u) && id !in t && u.Keys == t.Keys + {id} && d in t && ValidName(name)
    requires forall y :: y in t ==> u[y] == t[y]
    requires u[id].parent == Some(d) && u[d].key.Some? && u[id].name == c.enc(u[d].key.value, name)
    ensures View(c, u) == View(c, t)[id := u[id].(name := name, path := Join(PlainPathOf(c, t, d), name))]
  {
    AddedName(c, t, u, id, d, name);
    forall x | x in t
      ensures View(c, u)[x] == View(c, t)[x]
    {
      ViewShared(c, t, u, x);
    }
    SameMaps(View(c, u), View(c, t), id, u[id].(name := name, path := Join(PlainPathOf(c, t, d), name)));
  }

  lemma SameMaps(v: Table, w: Table, id: Id, r: Row)
    requires v.Keys == w.Keys + {id} && id in v && v[id] == r && id !in w && forall x :: x in w ==> v[x] == w[x]
    ensures v == w[id := r]
  {
  }

  lemma ViewShared(c: Cipher, t: Table, u: Table, x: Id)
    requires Sealed(c, t) && Sealed(c, u) && x in t
    requires forall y :: y in t ==> y in u && u[y] == t[y]
    ensures View(c, u)[x] == View(c, t)[x]
  {
    PlainShared(c, t, u, x);
  }

  lemma AddedName(c: Cipher, t: Table, u: Table, id: Id, d: Id, name: string)
    requires Sealed(c, t) && Sealed(c, u) && d in t && forall y :: y in t ==> y in u && u[y] == t[y]
    requires id in u && u[id].parent == Some(d) && ValidName(name)
    requires u[d].key.Some? && u[id].name == c.enc(u[d].key.value, name)
    ensures View(c, u)[id] == u[id].(name := name, path := Join(PlainPathOf(c, t, d), name))
  {
    PlainShared(c, t, u, d);
    PlainStep(c, u, id);
  }

  lemma AddedSealed(c: Cipher, t: Table, id: Id, r: Row, d: Id, name: string)
    requires Sealed(c, t) && id != 0 && id !in t && NewRow(c, t, r, d, name)
    ensures Sealed(c, t[id := r])
  {
    var u := t[id := r];
    assert RowOk(u, id);
    AddedRow(t, id, r);
    forall x | x in u
      ensures SealedRow(c, u, x)
    {
      if x in t {
        assert RowOk(t, x) && SealedRow(c, t, x);
      }
    }
  }

  lemma InsertUnder(c: Cipher, t: Table, f: Row, np: string, d: Id)
    requires Sealed(c, t) && WithinBudget(c, t) && Canonical(np) && np != "/"
    requires (f.name == "" || f.name == Base(np)) && (f.isDir ==> f.key.Some?)
    requires CipherParent(c, t, np) == Ok(d) && Lookup(View(c, t), Dir(np)) == Some(d)
    requires t[d].key.Some? && PlainPathOf(c, t, d) == Dir(np)
    ensures var s, v := SealedRowToInsert(c, t, f, np), RowToInsert(View(c, t), f, np);
            s.Err? ==> s == Err(NameBudget) || v == Err(s.error)
    ensures var s, v := SealedRowToInsert(c, t, f, np), RowToInsert(View(c, t), f.(scheme := NCGOFN1), np);
            s.Ok? ==> NewRow(c, t, s.value, d, Base(np)) && v == Ok(s.value.(name := Base(np), path := np))
    ensures SealedRowToInsert(c, t, f, np) == Err(Exists) <==> RowToInsert(View(c, t), f, np) == Err(Exists)
  {
    CanonicalNonRoot(np);
    TokenShape(c, t, d, np);
    TokenTaken(c, t, d, np);
    ViewRow(c, t, d);
    hide View, Sealed, PlainPathOf, PlainName, WithinBudget, Canonical, Dir, Base, CipherParent, Join;
  }

  /** The token path of a new entry is a canonical path in the right folder. */
  lemma TokenShape(c: Cipher, t: Table, d: Id, np: string)
    requires Sealed(c, t) && Canonical(np) && np != "/" && d in t && t[d].isDir && PlainPathOf(c, t, d) == Dir(np)
    ensures t[d].key.Some?
    ensures TokenPath(c, t, d, Base(np)).Err? ==> TokenPath(c, t, d, Base(np)) == Err(NameBudget)
    ensures TokenPath(c, t, d, Base(np)).Ok? ==>
      var ct := TokenPath(c, t, d, Base(np)).value;
      && Canonical(ct) && ct != "/" && Lookup(t, Dir(ct)) == Some(d)
      && Base(ct) == c.enc(t[d].key.value, Base(np)) && Base(ct) != "" && ct == Join(t[d].path, Base(ct))
  {
    CanonicalNonRoot(np);
    SealedTree(c, t);
    assert SealedRow(c, t, d);
    if TokenPath(c, t, d, Base(np)).Ok? {
      TokenPathAgrees(c, t, d, Base(np), d);
      LookupStored(t, d);
    }
  }

  /** The token path of a new entry is taken exactly when its plaintext path is. */
  lemma TokenTaken(c: Cipher, t: Table, d: Id, np: string)
    requires Sealed(c, t) && Canonical(np) && np != "/" && d in t && t[d].isDir && PlainPathOf(c, t, d) == Dir(np)
    ensures WithinBudget(c, t) && Lookup(View(c, t), np).Some? ==> TokenPath(c, t, d, Base(np)).Ok?
    ensures TokenPath(c, t, d, Base(np)).Ok? ==> Lookup(t, TokenPath(c, t, d, Base(np)).value) == Lookup(View(c, t), np)
  {
    CanonicalNonRoot(np);
    var v := View(c, t);
    if Lookup(v, np).Some? {
      SeenStored(c, t, d, np, Lookup(v, np).value);
    }
    if TokenPath(c, t, d, Base(np)).Ok? && Lookup(t, TokenPath(c, t, d, Base(np)).value).Some? {
      var y := Lookup(t, TokenPath(c, t, d, Base(np)).value).value;
      TokenPathAgrees(c, t, d, Base(np), y);
      LookupView(c, t, y);
    }
  }

  lemma SeenStored(c: Cipher, t: Table, d: Id, np: string, y: Id)
    requires Sealed(c, t) && Canonical(np) && np != "/" && d in t && t[d].isDir && PlainPathOf(c, t, d) == Dir(np)
    requires y in t && View(c, t)[y].path == np
    ensures WithinBudget(c, t) ==> TokenPath(c, t, d, Base(np)).Ok?
    ensures TokenPath(c, t, d, Base(np)).Ok? ==> Lookup(t, TokenPath(c, t, d, Base(np)).value) == Some(y)
  {
    CanonicalNonRoot(np);
    ViewRow(c, t, y);
    SealedTree(c, t);
    LookupStored(t, y);
    hide View, Sealed, Tree, PlainName, PlainPathOf, Canonical, Join, Dir, Base, UniquePaths, Lookup, ValidName,
         WithinBudget;
    if WithinBudget(c, t) {
      FirstStep(c, t, d, Base(np), y);
    }
    if TokenPath(c, t, d, Base(np)).Ok? {
      TokenPathAgrees(c, t, d, Base(np), y);
    }
  }

  lemma ParentError(c: Cipher, t: Table, np: string)
    requires CipherParent(c, t, np).Err?
    ensures CipherParent(c, t, np) != Err(Exists)
  {
    var segs := Segments(match Normalize(Dir(np)) case Ok(q) => q case Err(_) => "/");
    if Lookup(t, "/").Some? {
      WalkErrors(c, t, t[Lookup(t, "/").value], "/", segs);
    }
  }

  lemma {:induction false} WalkErrors(c: Cipher, t: Table, parent: Row, at: string, segs: seq<string>)
    ensures Walk(c, t, parent, at, segs) != Err(Exists)
    decreases |segs|
  {
    if segs != [] && CipherSegment(c, parent, segs[0]).Ok? {
      var ct := Join(at, CipherSegment(c, parent, segs[0]).value);
      if |segs| > 1 && Lookup(t, ct).Some? {
        WalkErrors(c, t, t[Lookup(t, ct).value], ct, segs[1..]);
      }
    }
  }

  lemma InsertedView(c: Cipher, t: Table, id: Id, r: Row, d: Id, np: string)
    requires Sealed(c, t) && id != 0 && id !in t && d in t && NewRow(c, t, r, d, Base(np))
    requires PlainPathOf(c, t, d) == Dir(np) && Join(Dir(np), Base(np)) == np
    ensures Sealed(c, t[id := r])
    ensures View(c, t[id := r]) == View(c, t)[id := r.(name := Base(np), path := np)]
  {
    AddedSealed(c, t, id, r, d, Base(np));
    AddedView(c, t, t[id := r], id, d, Base(np));
  }

  /** The name a new row is given: the caller's, or the last segment of the path. */
  function GivenName(f: Row, np: string): string {
    if f.name == "" then Base(np) else f.name
  }

  /** What a successful insert has found and written. */
  lemma InsertWrote(c: Cipher, t: Table, f: Row, np: string) returns (d: Id)
    requires Sealed(c, t) && Canonical(np) && np != "/" && SealedRowToInsert(c, t, f, np).Ok?
    ensures CipherParent(c, t, np) == Ok(d) && d in t && t[d].isDir && t[d].key.Some? && PlainPathOf(c, t, d) == Dir(np)
    ensures Lookup(View(c, t), Dir(np)) == Some(d) && GivenName(f, np) != "" && |GivenName(f, np)| <= MAX_NAME_RUNES
    ensures var r, tok := SealedRowToInsert(c, t, f, np).value, c.enc(t[d].key.value, GivenName(f, np));
            && r == f.(name := tok, scheme := NCGOFN1, path := Join(t[d].path, tok), parent := Some(d))
            && ValidName(tok) && |r.path| <= MAX_CIPHER_PATH && forall x :: x in t ==> t[x].path != r.path
  {
    hide Sealed, View, PlainPathOf, Canonical, Dir, Base, CipherParent, Join, Tree, ValidName;
    CanonicalNonRoot(np);
    ParentAgrees(c, t, np);
    d := CipherParent(c, t, np).value;
    NamesNotEmpty(np);
    var tok := c.enc(t[d].key.value, GivenName(f, np));
    TokenAt(c, t, d, tok);
  }

  lemma NamesNotEmpty(np: string)
    requires ValidName(Base(np))
    ensures Base(np) != ""
  {
  }

  lemma TokenAt(c: Cipher, t: Table, d: Id, tok: string)
    requires Sealed(c, t) && d in t && ValidName(tok)
    ensures var ct := Join(t[d].path, tok);
            Canonical(ct) && ct != "/" && Dir(ct) == t[d].path && Base(ct) == tok && tok != ""
              && Lookup(t, t[d].path) == Some(d)
  {
    hide Dir, Base, Canonical;
    PathShape(t, d);
    StoredCanonical(t, d);
    CanonicalJoin(t[d].path, tok);
    DirBaseOfJoin(t[d].path, tok);
    LookupStored(t, d);
  }

  /** Without any premise on the caller's row: the stored table stays a tree, and it stays sealed exactly when the
      name is a proper one and a new directory brings its key. The view then gains the one row at that name. */
  lemma InsertExact(c: Cipher, t: Table, id: Id, f: Row, np: string)
    requires Sealed(c, t) && Canonical(np) && np != "/" && id != 0 && id !in t && Insert(c, t, id, f, np).Ok?
    ensures Tree(Insert(c, t, id, f, np).value)
    ensures Sealed(c, Insert(c, t, id, f, np).value) <==> ValidName(GivenName(f, np)) && (f.isDir ==> f.key.Some?)
    ensures Sealed(c, Insert(c, t, id, f, np).value) ==>
      var name := GivenName(f, np);
      var r := f.(name := name, path := Join(Dir(np), name), parent := Lookup(View(c, t), Dir(np)), scheme := NCGOFN1);
      View(c, Insert(c, t, id, f, np).value) == View(c, t)[id := r]
  {
    hide Sealed, View, PlainPathOf, Canonical, Dir, Base, CipherParent, Join, Tree, ValidName, SealedRowToInsert,
         GivenName;
    var d := InsertWrote(c, t, f, np);
    var r, u := SealedRowToInsert(c, t, f, np).value, Insert(c, t, id, f, np).value;
    SealedTree(c, t);
    NewRowTree(t, id, r, d);
    var name := GivenName(f, np);
    if ValidName(name) && (f.isDir ==> f.key.Some?) {
      AddedSealed(c, t, id, r, d, name);
      AddedView(c, t, u, id, d, name);
    }
    if Sealed(c, u) {
      SealedNewRow(c, t, u, id, d, name);
    }
  }

  lemma NewRowTree(t: Table, id: Id, r: Row, d: Id)
    requires Tree(t) && id != 0 && id !in t && d in t && t[d].isDir && r.parent == Some(d) && ValidName(r.name)
    requires r.path == Join(t[d].path, r.name) && forall x :: x in t ==> t[x].path != r.path
    ensures Tree(t[id := r])
  {
    hide Join, Tree, ValidName;
    AddedRow(t, id, r);
  }

  lemma SealedNewRow(c: Cipher, t: Table, u: Table, id: Id, d: Id, name: string)
    requires Sealed(c, u) && id in u && u[id].parent == Some(d) && d in u && u[d].key.Some? && name != ""
    requires u[id].name == c.enc(u[d].key.value, name)
    ensures ValidName(name) && (u[id].isDir ==> u[id].key.Some?)
  {
    hide Tree, ValidName;
    assert SealedRow(c, u, id);
  }

  /** On any sealed tree, within budget or not, a successful insert of a well-formed row is the plaintext
      insert on the view. */
  lemma InsertSound(c: Cipher, t: Table, id: Id, f: Row, np: string)
    requires Sealed(c, t) && Canonical(np) && np != "/" && id != 0 && id !in t && Insert(c, t, id, f, np).Ok?
    requires (f.name == "" || f.name == Base(np)) && (f.isDir ==> f.key.Some?)
    ensures Sealed(c, Insert(c, t, id, f, np).value)
    ensures InsertInto(View(c, t), id, f.(scheme := NCGOFN1), np) == Ok(View(c, Insert(c, t, id, f, np).value))
  {
    hide Sealed, View, PlainPathOf, Canonical, Dir, Base, CipherParent, Join, Tree, ValidName, TokenPath;
    CanonicalNonRoot(np);
    var d := InsertWrote(c, t, f, np);
    InsertExact(c, t, id, f, np);
    TokenTaken(c, t, d, np);
    TokenShape(c, t, d, np);
    ViewRow(c, t, d);
  }

  /** Insert through the translation adds exactly the plaintext path: it fails with "exists" exactly when
      the plaintext store would, and fails otherwise only where the plaintext store fails or for length. */
  lemma InsertRefines(c: Cipher, t: Table, id: Id, f: Row, np: string)
    requires Sealed(c, t) && WithinBudget(c, t) && Canonical(np) && np != "/" && id != 0 && id !in t
    requires (f.name == "" || f.name == Base(np)) && (f.isDir ==> f.key.Some?)
    ensures Insert(c, t, id, f, np).Ok? ==> Sealed(c, Insert(c, t, id, f, np).value)
    ensures Insert(c, t, id, f, np).Ok? ==>
      InsertInto(View(c, t), id, f.(scheme := NCGOFN1), np) == Ok(View(c, Insert(c, t, id, f, np).value))
    ensures Insert(c, t, id, f, np).Err? ==>
      Insert(c, t, id, f, np) == Err(NameBudget) || InsertInto(View(c, t), id, f, np).Err?
    ensures Insert(c, t, id, f, np) == Err(Exists) <==> InsertInto(View(c, t), id, f, np) == Err(Exists)
  {
    CanonicalNonRoot(np);
    hide View, Sealed, NewRow, CipherParent, Canonical, Dir, Base, WithinBudget, TokenPath, PlainPathOf;
    if Lookup(View(c, t), Dir(np)).Some? {
      ParentFound(c, t, np);
      ViewRow(c, t, Lookup(View(c, t), Dir(np)).value);
    }
    if CipherParent(c, t, np).Ok? {
      ParentAgrees(c, t, np);
      var d := CipherParent(c, t, np).value;
      InsertUnder(c, t, f, np, d);
      if SealedRowToInsert(c, t, f, np).Ok? {
        var r := SealedRowToInsert(c, t, f, np).value;
        InsertedView(c, t, id, r, d, np);
      }
    } else {
      ParentError(c, t, np);
    }
  }
}
