/** Whole runs of the translating store (internal/files/nametranslate_stores.go:101-294): after any sequence of
    operations whose successful ones keep to the callers' discipline, the decrypted tree is the one a plaintext
    store has after the operations that succeeded. */
module StoreRuns {
  import opened Common
  import opened Paths
  import opened Filecache
  import opened SqlStore
  import opened NameTranslation
  import opened Refinement
  import opened MoveRefinement

  /** The operations of a scheme-1 user, in plaintext. `Touch` writes a row back after it was read, with another
      size, time or, for a file, key. */
  datatype Op =
    | Create(id: Id, row: Row, path: string)
    | Remove(path: string)
    | Relocate(src: string, dst: string, now: int)
    | Touch(id: Id, size: int, mtime: int, key: Option<Key>)

  /** How callers use the store: fresh ids, rows named as their path and directories with their key, no move
      of a folder into itself, and folder keys that stay. */
  ghost predicate Disciplined(t: Table, op: Op) {
    match op
    case Create(id, f, p) =>
      && id != 0 && id !in t && (f.isDir ==> f.key.Some?)
      && (Normalize(p).Ok? ==> Normalize(p).value != "/" && (f.name == "" || f.name == Base(Normalize(p).value)))
    case Remove(_) => true
    case Relocate(src, dst, _) =>
      Normalize(src).Ok? && Normalize(dst).Ok? ==> !Below(Normalize(dst).value, Normalize(src).value)
    case Touch(x, _, _, key) => x in t && t[x].isDir ==> key == t[x].key
  }

  function Touched(r: Row, op: Op): Row
    requires op.Touch?
  {
    r.(size := op.size, mtime := op.mtime, key := op.key)
  }

  /** The operation on the translating store. */
  ghost function Apply(c: Cipher, t: Table, op: Op): Result<Table>
    requires Sealed(c, t)
  {
    match op
    case Create(id, f, p) =>
      var np :- Normalize(p);
      Insert(c, t, id, f, np)
    case Remove(p) => Delete(c, t, p)
    case Relocate(src, dst, now) =>
      var s :- Normalize(src);
      var d :- Normalize(dst);
      Rename(c, t, s, d, now)
    case Touch(x, _, _, _) => if x !in t then Err(NotFound) else Update(c, t, x, Touched(View(c, t)[x], op))
  }

  /** The same operation on a store of plaintext rows. */
  ghost function PlainApply(v: Table, op: Op): Result<Table>
    requires Tree(v)
  {
    match op
    case Create(id, f, p) =>
      var np :- Normalize(p);
      InsertInto(v, id, f.(scheme := NCGOFN1), np)
    case Remove(p) =>
      var np :- Normalize(p);
      DeleteFrom(v, np)
    case Relocate(src, dst, now) =>
      var s :- Normalize(src);
      var d :- Normalize(dst);
      RenameIn(v, s, d, now)
    case Touch(x, _, _, _) => if x !in v then Err(NotFound) else Ok(v[x := Touched(v[x], op)])
  }

  /** Every successful operation keeps the table sealed and is the plaintext operation on the view. */
  lemma StepRefines(c: Cipher, t: Table, op: Op)
    requires Sealed(c, t) && Disciplined(t, op) && Apply(c, t, op).Ok?
    ensures Sealed(c, Apply(c, t, op).value) && Tree(View(c, t))
    ensures PlainApply(View(c, t), op) == Ok(View(c, Apply(c, t, op).value))
  {
    hide Sealed, Tree, View, Normalize, Insert, Delete, Rename, Update, InsertInto, DeleteFrom, RenameIn, Below;
    ViewIsTree(c, t);
    match op
    case Create(id, f, p) =>
      NormalizeCanonical(p);
      InsertSound(c, t, id, f, Normalize(p).value);
    case Remove(p) =>
      DeleteSound(c, t, p);
    case Relocate(src, dst, now) =>
      NormalizeCanonical(src);
      NormalizeCanonical(dst);
      RenameRefines(c, t, Normalize(src).value, Normalize(dst).value, now);
    case Touch(x, size, mtime, key) =>
      UpdateRefines(c, t, x, size, mtime, key);
  }

  /** For inserts and renames the discipline is exactly what the refinement needs: an accepted operation leaves a
      sealed table and the plaintext result if and only if it keeps to it. */
  lemma DisciplineNeeded(c: Cipher, t: Table, op: Op)
    requires Sealed(c, t) && Apply(c, t, op).Ok? && (op.Create? || op.Relocate?)
    requires op.Create? ==> op.id != 0 && op.id !in t && Normalize(op.path) != Ok("/")
    ensures Tree(View(c, t))
    ensures var u := Apply(c, t, op).value;
            (Sealed(c, u) && PlainApply(View(c, t), op) == Ok(View(c, u))) <==> Disciplined(t, op)
  {
    hide Sealed, Tree, View, Normalize, Insert, Rename, InsertInto, RenameIn, Below, Base;
    ViewIsTree(c, t);
    if Disciplined(t, op) {
      StepRefines(c, t, op);
    }
    match op
    case Create(id, f, p) =>
      NormalizeCanonical(p);
      CreateNeeds(c, t, id, f, Normalize(p).value);
    case Relocate(src, dst, now) =>
      NormalizeCanonical(src);
      NormalizeCanonical(dst);
      RenameExact(c, t, Normalize(src).value, Normalize(dst).value, now);
  }

  lemma CreateNeeds(c: Cipher, t: Table, id: Id, f: Row, np: string)
    requires Sealed(c, t) && Canonical(np) && np != "/" && id != 0 && id !in t && Insert(c, t, id, f, np).Ok?
    ensures var u := Insert(c, t, id, f, np).value;
            Sealed(c, u) && InsertInto(View(c, t), id, f.(scheme := NCGOFN1), np) == Ok(View(c, u)) ==>
              (f.isDir ==> f.key.Some?) && (f.name == "" || f.name == Base(np))
  {
    hide Sealed, Tree, View, Canonical, Insert, Base, Dir, Join, ValidName, Lookup;
    var u := Insert(c, t, id, f, np).value;
    CanonicalNonRoot(np);
    InsertExact(c, t, id, f, np);
    if Sealed(c, u) && InsertInto(View(c, t), id, f.(scheme := NCGOFN1), np) == Ok(View(c, u)) {
      assert View(c, u)[id].path == np;
      SameLeaf(Dir(np), GivenName(f, np), Base(np));
    }
  }

  lemma SameLeaf(d: string, m: string, n: string)
    requires d != "" && ValidName(m) && ValidName(n) && Join(d, m) == Join(d, n)
    ensures m == n
  {
    hide Join;
    JoinInjective(d, m, d, n);
  }

  /** Along the run, every operation the store accepts keeps to the discipline at the point where it is applied. */
  ghost predicate Orderly(c: Cipher, t: Table, ops: seq<Op>)
    requires Sealed(c, t)
    decreases |ops|
  {
    hide Sealed, Tree, Apply, Disciplined;
    ops != [] ==>
      if Apply(c, t, ops[0]).Err? then Orderly(c, t, ops[1..])
      else Disciplined(t, ops[0]) && (StepRefines(c, t, ops[0]); Orderly(c, Apply(c, t, ops[0]).value, ops[1..]))
  }

  /** The table after a run: everything the store accepts is carried out, and what it refuses changes nothing. */
  ghost function Run(c: Cipher, t: Table, ops: seq<Op>): (u: Table)
    requires Sealed(c, t) && Orderly(c, t, ops)
    ensures Sealed(c, u)
    decreases |ops|
  {
    hide Sealed, Tree, Apply, Disciplined;
    if ops == [] then t
    else if Apply(c, t, ops[0]).Err? then Run(c, t, ops[1..])
    else StepRefines(c, t, ops[0]); Run(c, Apply(c, t, ops[0]).value, ops[1..])
  }

  /** The operations of the run that succeeded, in order. */
  ghost function Performed(c: Cipher, t: Table, ops: seq<Op>): seq<Op>
    requires Sealed(c, t) && Orderly(c, t, ops)
    decreases |ops|
  {
    hide Sealed, Tree, Apply, Disciplined;
    if ops == [] then []
    else if Apply(c, t, ops[0]).Err? then Performed(c, t, ops[1..])
    else StepRefines(c, t, ops[0]); [ops[0]] + Performed(c, Apply(c, t, ops[0]).value, ops[1..])
  }

  /** The plaintext store through a list of operations, or its first error. */
  ghost function PlainRun(v: Table, ops: seq<Op>): Result<Table>
    decreases |ops|
  {
    hide PlainApply;
    if ops == [] then Ok(v)
    else if !Tree(v) then Err(Invalid)
    else
      var w :- PlainApply(v, ops[0]);
      PlainRun(w, ops[1..])
  }

  /** The plaintext store performs the same operations without an error and ends in the view. */
  lemma {:induction false} RunRefines(c: Cipher, t: Table, ops: seq<Op>)
    requires Sealed(c, t) && Orderly(c, t, ops)
    ensures PlainRun(View(c, t), Performed(c, t, ops)) == Ok(View(c, Run(c, t, ops)))
    decreases |ops|
  {
    hide Sealed, Tree, View, Apply, PlainApply, Disciplined;
    if ops != [] {
      if Apply(c, t, ops[0]).Ok? {
        StepRefines(c, t, ops[0]);
        var u := Apply(c, t, ops[0]).value;
        RunRefines(c, u, ops[1..]);
        var rest := Performed(c, u, ops[1..]);
        assert ([ops[0]] + rest)[1..] == rest;
      } else {
        RunRefines(c, t, ops[1..]);
      }
    }
  }

  // ---------- the length budget along a run ----------

  /** A rename that pushes something below the source over the path limit. */
  ghost predicate Overflows(c: Cipher, t: Table, op: Op) {
    && op.Relocate? && Normalize(op.src).Ok? && Normalize(op.dst).Ok?
    && TooLong(c, t, Normalize(op.src).value, Normalize(op.dst).value)
  }

  ghost predicate TooLong(c: Cipher, t: Table, src: string, dst: string) {
    var paths := RenamePaths(c, t, src, dst);
    paths.Ok? && exists x :: x in t && Below(t[x].path, paths.value.0)
                             && |t[x].path| - |paths.value.0| + |paths.value.1| > MAX_CIPHER_PATH
  }

  /** A step keeps the budget exactly when it is no such rename. */
  lemma StepBudget(c: Cipher, t: Table, op: Op)
    requires Sealed(c, t) && WithinBudget(c, t) && Disciplined(t, op) && Apply(c, t, op).Ok?
    ensures Sealed(c, Apply(c, t, op).value)
    ensures WithinBudget(c, Apply(c, t, op).value) <==> !Overflows(c, t, op)
  {
    hide Sealed, Tree, View, Normalize, Insert, Delete, Rename, Update, WithinBudget, Below, TooLong;
    StepRefines(c, t, op);
    match op
    case Create(id, f, p) =>
      NormalizeCanonical(p);
      InsertBudget(c, t, id, f, Normalize(p).value);
    case Remove(p) =>
      DeleteBudget(c, t, p);
    case Relocate(src, dst, now) =>
      NormalizeCanonical(src);
      NormalizeCanonical(dst);
      MoveKeepsBudget(c, t, Normalize(src).value, Normalize(dst).value, now);
    case Touch(x, size, mtime, key) =>
      UpdateRefines(c, t, x, size, mtime, key);
      TouchBudget(c, t, Apply(c, t, op).value);
  }

  lemma MoveKeepsBudget(c: Cipher, t: Table, src: string, dst: string, now: int)
    requires Sealed(c, t) && WithinBudget(c, t) && Canonical(src) && Canonical(dst) && !Below(dst, src)
    requires Rename(c, t, src, dst, now).Ok? && Sealed(c, Rename(c, t, src, dst, now).value)
    ensures WithinBudget(c, Rename(c, t, src, dst, now).value) <==> !TooLong(c, t, src, dst)
  {
    hide Sealed, Tree, Below, Canonical, WithinBudget, RenamePaths;
    NotTheRoot(c, t, src, dst, now);
    RenameBudget(c, t, src, dst, now);
  }

  lemma NotTheRoot(c: Cipher, t: Table, src: string, dst: string, now: int)
    requires Rename(c, t, src, dst, now).Ok?
    ensures src != "/" && dst != "/" && RenamePaths(c, t, src, dst).Ok?
  {
    hide Renamed, CipherPath, CipherParent, TokenPath;
  }

  lemma InsertBudget(c: Cipher, t: Table, id: Id, f: Row, np: string)
    requires Sealed(c, t) && WithinBudget(c, t) && Canonical(np) && np != "/" && id != 0 && id !in t
    requires Insert(c, t, id, f, np).Ok? && Sealed(c, Insert(c, t, id, f, np).value)
    ensures WithinBudget(c, Insert(c, t, id, f, np).value)
  {
    hide Sealed, Tree, View, PlainPathOf, PlainName, Canonical, Dir, Base, CipherParent, Join, SealedRowToInsert,
         GivenName;
    var u := Insert(c, t, id, f, np).value;
    var d := InsertWrote(c, t, f, np);
    InsertExact(c, t, id, f, np);
    ViewRow(c, u, id);
    forall x | x in t
      ensures PlainName(c, u, x) == PlainName(c, t, x)
    {
      PlainShared(c, t, u, x);
    }
  }

  lemma DeleteBudget(c: Cipher, t: Table, p: string)
    requires Sealed(c, t) && WithinBudget(c, t) && Delete(c, t, p).Ok? && Sealed(c, Delete(c, t, p).value)
    ensures WithinBudget(c, Delete(c, t, p).value)
  {
    hide Sealed, View, PlainPathOf, PlainName, Under, Tree;
    SealedTree(c, t);
    var u := Delete(c, t, p).value;
    forall x | x in u
      ensures |PlainName(c, u, x)| <= MAX_NAME_RUNES && |u[x].path| <= MAX_CIPHER_PATH
    {
      PlainShared(c, u, t, x);
    }
  }

  lemma TouchBudget(c: Cipher, t: Table, u: Table)
    requires Sealed(c, t) && WithinBudget(c, t) && Sealed(c, u) && SameShaped(t, u)
    ensures WithinBudget(c, u)
  {
    hide Sealed, PlainName, PlainPathOf;
    forall x | x in u
      ensures |PlainName(c, u, x)| <= MAX_NAME_RUNES && |u[x].path| <= MAX_CIPHER_PATH
    {
      SameShapePlain(c, t, u, x);
    }
  }

  /** No rename of the run overflows. */
  ghost predicate NeverOverflows(c: Cipher, t: Table, ops: seq<Op>)
    requires Sealed(c, t) && Orderly(c, t, ops)
    decreases |ops|
  {
    hide Sealed, Tree, Apply, Disciplined, Overflows;
    ops != [] ==>
      if Apply(c, t, ops[0]).Err? then NeverOverflows(c, t, ops[1..])
      else
        !Overflows(c, t, ops[0]) && (StepRefines(c, t, ops[0]); NeverOverflows(c, Apply(c, t, ops[0]).value, ops[1..]))
  }

  lemma {:induction false} RunBudget(c: Cipher, t: Table, ops: seq<Op>)
    requires Sealed(c, t) && WithinBudget(c, t) && Orderly(c, t, ops) && NeverOverflows(c, t, ops)
    ensures WithinBudget(c, Run(c, t, ops))
    decreases |ops|
  {
    hide Sealed, Tree, Apply, Disciplined, Overflows, WithinBudget;
    if ops != [] {
      if Apply(c, t, ops[0]).Ok? {
        StepBudget(c, t, ops[0]);
        RunBudget(c, Apply(c, t, ops[0]).value, ops[1..]);
      } else {
        RunBudget(c, t, ops[1..]);
      }
    }
  }

  /** After any orderly run without such a rename, every plaintext path is answered as the plaintext store
      answers it. */
  lemma RunAnswers(c: Cipher, t: Table, ops: seq<Op>, p: string)
    requires Sealed(c, t) && WithinBudget(c, t) && Orderly(c, t, ops) && NeverOverflows(c, t, ops) && Normalize(p).Ok?
    ensures Tree(Run(c, t, ops)) && PlainRun(View(c, t), Performed(c, t, ops)).Ok?
    ensures var v := PlainRun(View(c, t), Performed(c, t, ops)).value;
            var seen, got := Lookup(v, Normalize(p).value), Get(c, Run(c, t, ops), NCGOFN1, p);
            && (seen.None? ==> got.Err?)
            && (seen.Some? ==> got == Ok((seen.value, v[seen.value])))
  {
    hide Sealed, Tree, View, Run, Performed, PlainRun, Orderly, NeverOverflows, WithinBudget, Get, Normalize;
    RunRefines(c, t, ops);
    RunBudget(c, t, ops);
    SealedTree(c, Run(c, t, ops));
    GetRefines(c, Run(c, t, ops), p);
  }

  /** An operation that fails on a tree within budget fails in the plaintext store too, or is too long. */
  lemma StepComplete(c: Cipher, t: Table, op: Op)
    requires Sealed(c, t) && WithinBudget(c, t) && Disciplined(t, op) && Apply(c, t, op).Err?
    ensures Tree(View(c, t))
    ensures Apply(c, t, op) == Err(NameBudget) || PlainApply(View(c, t), op).Err?
  {
    hide Sealed, Tree, View, Normalize, Insert, Delete, Rename, Update, InsertInto, DeleteFrom, RenameIn, Below,
         WithinBudget;
    ViewIsTree(c, t);
    match op
    case Create(id, f, p) =>
      if Normalize(p).Ok? {
        NormalizeCanonical(p);
        InsertRefines(c, t, id, f, Normalize(p).value);
        SchemeIgnored(View(c, t), id, f, Normalize(p).value);
      }
    case Remove(p) =>
      if Normalize(p).Ok? {
        DeleteRefines(c, t, p);
      }
    case Relocate(src, dst, now) =>
      if Normalize(src).Ok? && Normalize(dst).Ok? {
        NormalizeCanonical(src);
        NormalizeCanonical(dst);
        var s, d := Normalize(src).value, Normalize(dst).value;
        if RenameIn(View(c, t), s, d, now).Ok? {
          RenameComplete(c, t, s, d, now);
        }
      }
    case Touch(x, size, mtime, key) =>
      if x in t {
        UpdateRefines(c, t, x, size, mtime, key);
      }
  }

  lemma SchemeIgnored(v: Table, id: Id, f: Row, np: string)
    ensures InsertInto(v, id, f, np).Err? <==> InsertInto(v, id, f.(scheme := NCGOFN1), np).Err?
  {
  }
}
