/** What a committed name sweep does to the files table (internal/files/namesweep.go:426-583, 1148-1265). */
module NameSweep {
  import opened Common
  import opened Paths
  import opened Filecache
  import opened NameTranslation
  import opened Refinement
  import opened SweepPlan

  // ---------- encrypting ----------

  /** Every folder has its key in memory; keys that were stored are the stored ones, the rest are minted. */
  ghost predicate Keyed(t: Table, keys: map<Id, Key>) {
    forall x :: x in t && t[x].isDir ==> x in keys && (t[x].key.Some? ==> t[x].key.value == keys[x])
  }

  function EncryptedName(c: Cipher, t: Table, keys: map<Id, Key>, p: Id, x: Id): Result<string> {
    if p !in keys then Err(MissingKey)
    else if x !in t then Err(NotFound)
    else if |t[x].name| > MAX_NAME_RUNES then Err(NameBudget)
    else Ok(c.enc(keys[p], t[x].name))
  }

  function EncryptConv(c: Cipher, t: Table, keys: map<Id, Key>): Conversion {
    (p: Id, x: Id) => EncryptedName(c, t, keys, p, x)
  }

  /** nkOf: a folder opens with its key. */
  function EncryptOpening(keys: map<Id, Key>): Opening {
    (x: Id) => if x in keys then Ok(()) else Err(MissingKey)
  }

  /** `plan` is what encryptPaths computed for the whole of the plaintext tree `t`. */
  ghost predicate EncryptPlan(c: Cipher, t: Table, keys: map<Id, Key>, root: Id, plan: Plan) {
    && Tree(t) && Keyed(t, keys) && root in t && t[root].parent.None?
    && PlanFor(t, root, EncryptConv(c, t, keys), Some(MAX_CIPHER_PATH), plan)
    && plan.names.Keys == t.Keys
  }

  function SweptRow(r: Row, x: Id, keys: map<Id, Key>, name: string, path: string): Row {
    r.(name := name, path := path, scheme := NCGOFN1, key := if r.isDir && x in keys then Some(keys[x]) else r.key)
  }

  /** The files table after the commit. */
  ghost function Swept(t: Table, keys: map<Id, Key>, plan: Plan): Table
    requires t.Keys <= plan.names.Keys && t.Keys <= plan.paths.Keys
  {
    map x | x in t :: SweptRow(t[x], x, keys, plan.names[x], plan.paths[x])
  }

  lemma PlanCovers(c: Cipher, t: Table, keys: map<Id, Key>, root: Id, plan: Plan)
    requires EncryptPlan(c, t, keys, root, plan)
    ensures plan.names.Keys == t.Keys && plan.paths.Keys == t.Keys && root in t
  {
  }

  lemma PlanStep(c: Cipher, t: Table, keys: map<Id, Key>, root: Id, plan: Plan, x: Id)
    requires EncryptPlan(c, t, keys, root, plan) && x in t
    ensures x in plan.names && x in plan.paths
    ensures x == root <==> t[x].parent.None?
    ensures x == root ==> plan.names[x] == "" && plan.paths[x] == "/" && t[x].path == "/" && t[x].isDir
    ensures x != root ==>
      var p := t[x].parent.value;
      && p in t && t[p].isDir && p in keys && p in plan.paths && |t[p].path| < |t[x].path|
      && ValidName(t[x].name) && |t[x].name| <= MAX_NAME_RUNES && t[x].path == Join(t[p].path, t[x].name)
      && plan.names[x] == c.enc(keys[p], t[x].name) && plan.paths[x] == Join(plan.paths[p], plan.names[x])
      && |plan.paths[x]| <= MAX_CIPHER_PATH && ValidName(plan.names[x])
  {
    assert RowOk(t, x) && RowOk(t, root);
    if x != root {
      assert PlanRow(t, EncryptConv(c, t, keys), Some(MAX_CIPHER_PATH), plan, x);
      PathShape(t, x);
      PathShape(t, root);
      TreeUnique(t);
      PathShape'(t, x);
    }
  }

  lemma {:induction false} PlanShape(c: Cipher, t: Table, keys: map<Id, Key>, root: Id, plan: Plan, x: Id)
    requires EncryptPlan(c, t, keys, root, plan) && x in t
    ensures x in plan.paths && plan.paths[x] != "" && (plan.paths[x] == "/" <==> x == root)
    decreases |t[x].path|
  {
    hide EncryptPlan;
    PlanCovers(c, t, keys, root, plan);
    PlanStep(c, t, keys, root, plan, x);
    if x != root {
      PlanShape(c, t, keys, root, plan, t[x].parent.value);
    }
  }

  /** Different rows get different ciphertext paths. */
  lemma {:induction false} PlanInjective(c: Cipher, t: Table, keys: map<Id, Key>, root: Id, plan: Plan, x: Id, y: Id)
    requires EncryptPlan(c, t, keys, root, plan) && x in t && y in t && x in plan.paths && y in plan.paths
    requires plan.paths[x] == plan.paths[y]
    ensures x == y
    decreases |t[x].path|
  {
    assert UniquePaths(t);
    hide EncryptPlan, Tree;
    PlanStep(c, t, keys, root, plan, x);
    PlanStep(c, t, keys, root, plan, y);
    PlanShape(c, t, keys, root, plan, x);
    PlanShape(c, t, keys, root, plan, y);
    if x != root && y != root {
      var p, q := t[x].parent.value, t[y].parent.value;
      PlanShape(c, t, keys, root, plan, p);
      PlanShape(c, t, keys, root, plan, q);
      JoinInjective(plan.paths[p], plan.names[x], plan.paths[q], plan.names[y]);
      PlanInjective(c, t, keys, root, plan, p, q);
      assert c.dec(keys[p], plan.names[x]) == Some(t[x].name) && c.dec(keys[p], plan.names[y]) == Some(t[y].name);
    }
  }

  /** The committed tree is a uniform scheme-1 tree within budget. */
  lemma SweptSealed(c: Cipher, t: Table, keys: map<Id, Key>, root: Id, plan: Plan)
    requires EncryptPlan(c, t, keys, root, plan)
    ensures Sealed(c, Swept(t, keys, plan))
  {
    var u := Swept(t, keys, plan);
    forall x, y | x in u && y in u && u[x].path == u[y].path
      ensures x == y
    {
      PlanInjective(c, t, keys, root, plan, x, y);
    }
    forall x | x in u
      ensures RowOk(u, x) && SealedRow(c, u, x)
    {
      SweptRowSealed(c, t, keys, root, plan, x);
    }
  }

  lemma SweptRowSealed(c: Cipher, t: Table, keys: map<Id, Key>, root: Id, plan: Plan, x: Id)
    requires EncryptPlan(c, t, keys, root, plan) && x in t
    ensures RowOk(Swept(t, keys, plan), x) && SealedRow(c, Swept(t, keys, plan), x)
  {
    PlanStep(c, t, keys, root, plan, x);
    hide Tree, PlanFor;
    var u := Swept(t, keys, plan);
    if x != root {
      var p := t[x].parent.value;
      assert c.dec(keys[p], plan.names[x]) == Some(t[x].name);
    }
  }

  lemma {:induction false} SweptPlain(c: Cipher, t: Table, keys: map<Id, Key>, root: Id, plan: Plan, x: Id)
    requires EncryptPlan(c, t, keys, root, plan) && x in t && Sealed(c, Swept(t, keys, plan))
    ensures PlainName(c, Swept(t, keys, plan), x) == t[x].name
    ensures PlainPathOf(c, Swept(t, keys, plan), x) == t[x].path
    decreases |t[x].path|
  {
    var u := Swept(t, keys, plan);
    PlanStep(c, t, keys, root, plan, x);
    if x != root {
      var p := t[x].parent.value;
      PlanStep(c, t, keys, root, plan, p);
      SweptPlain(c, t, keys, root, plan, p);
      PlainStep(c, u, x);
      assert c.dec(keys[p], plan.names[x]) == Some(t[x].name);
    } else {
      assert RowOk(t, x);
    }
  }

  /** Encrypting preserves meaning, row by row: the plaintext view of the committed tree is the tree as it
      was, with the scheme marked and the folder keys filled in. */
  lemma SweepKeepsView(c: Cipher, t: Table, keys: map<Id, Key>, root: Id, plan: Plan, x: Id)
    requires EncryptPlan(c, t, keys, root, plan) && x in t
    ensures Sealed(c, Swept(t, keys, plan)) && WithinBudget(c, Swept(t, keys, plan))
    ensures View(c, Swept(t, keys, plan))[x] == SweptRow(t[x], x, keys, t[x].name, t[x].path)
  {
    SweptSealed(c, t, keys, root, plan);
    var u := Swept(t, keys, plan);
    forall y | y in u
      ensures |PlainName(c, u, y)| <= MAX_NAME_RUNES && |u[y].path| <= MAX_CIPHER_PATH
    {
      SweptBudget(c, t, keys, root, plan, y);
    }
    SweptPlain(c, t, keys, root, plan, x);
    ViewRow(c, u, x);
    assert u[x] == SweptRow(t[x], x, keys, plan.names[x], plan.paths[x]);
    hide EncryptPlan, Sealed, View, Swept, PlainName, PlainPathOf;
  }

  lemma SweptBudget(c: Cipher, t: Table, keys: map<Id, Key>, root: Id, plan: Plan, y: Id)
    requires EncryptPlan(c, t, keys, root, plan) && y in t && Sealed(c, Swept(t, keys, plan))
    ensures |PlainName(c, Swept(t, keys, plan), y)| <= MAX_NAME_RUNES
      && |Swept(t, keys, plan)[y].path| <= MAX_CIPHER_PATH
  {
    SweptPlain(c, t, keys, root, plan, y);
    PlanStep(c, t, keys, root, plan, y);
    assert RowOk(t, y);
  }

  /** Every plaintext path, looked up through the translating store after the commit, gives the row the raw
      lookup gave before: same id, name, path and kind; absent paths stay absent. */
  lemma SweepKeepsLookups(c: Cipher, t: Table, keys: map<Id, Key>, root: Id, plan: Plan, p: string)
    requires EncryptPlan(c, t, keys, root, plan) && Normalize(p).Ok?
    ensures Tree(Swept(t, keys, plan))
    ensures var r := Get(c, Swept(t, keys, plan), NCGOFN1, p);
            match Lookup(t, Normalize(p).value)
            case None => r.Err?
            case Some(x) => r == Ok((x, SweptRow(t[x], x, keys, t[x].name, t[x].path)))
  {
    var u := Swept(t, keys, plan);
    SweepKeepsView(c, t, keys, root, plan, root);
    SealedTree(c, u);
    GetRefines(c, u, p);
    var np := Normalize(p).value;
    match Lookup(t, np) {
      case Some(x) =>
        SweepKeepsView(c, t, keys, root, plan, x);
        ViewRow(c, u, x);
        SweptPlain(c, t, keys, root, plan, x);
        LookupView(c, u, x);
      case None =>
        if Lookup(View(c, u), np).Some? {
          var y := Lookup(View(c, u), np).value;
          SweptPlain(c, t, keys, root, plan, y);
          ViewRow(c, u, y);
        }
    }
    hide EncryptPlan, Sealed, View, Swept, PlainName, PlainPathOf, Get, Normalize, Tree, WithinBudget;
  }

  // ---------- encryptPaths on a loaded tree ----------

  /** In a tree every row is reachable from the root through directories. */
  lemma {:induction false} TreeReachable(t: Table, root: Id, x: Id)
    requires Tree(t) && root in t && t[root].parent.None? && x in t
    ensures Reachable(t, root, x)
    decreases |t[x].path|
  {
    assert RowOk(t, x) && RowOk(t, root);
    if t[x].parent.None? {
      assert Chain(t, root, [root]);
    } else {
      PathShape'(t, x);
      TreeReachable(t, root, t[x].parent.value);
      var ch :| Chain(t, root, ch) && ch[|ch| - 1] == t[x].parent.value;
      ChainGrows(t, root, ch, x);
      assert (ch + [x])[|ch + [x]| - 1] == x;
    }
  }

  /** The path of a row in tokens: the tokens of the names above it, each under the key of its folder. */
  ghost function TokenPathOf(c: Cipher, t: Table, keys: map<Id, Key>, x: Id): string
    requires Tree(t) && Keyed(t, keys) && x in t
    decreases |t[x].path|
  {
    match t[x].parent
    case None => "/"
    case Some(p) =>
      PathShape'(t, x);
      assert RowOk(t, x);
      Join(TokenPathOf(c, t, keys, p), c.enc(keys[p], t[x].name))
  }

  /** The length limits on a row. */
  ghost predicate Fits(c: Cipher, t: Table, keys: map<Id, Key>, x: Id)
    requires Tree(t) && Keyed(t, keys) && x in t
  {
    |t[x].name| <= 255 && |TokenPathOf(c, t, keys, x)| <= 768
  }

  /** Every row is planned at its token path, and is within the limits. */
  lemma {:induction false} PlannedTokens(c: Cipher, t: Table, keys: map<Id, Key>, root: Id, plan: Plan, x: Id)
    requires EncryptPlan(c, t, keys, root, plan) && x in t
    ensures x in plan.paths && Fits(c, t, keys, x) && plan.paths[x] == TokenPathOf(c, t, keys, x)
    decreases |t[x].path|
  {
    PlanStep(c, t, keys, root, plan, x);
    if x != root {
      PlannedTokens(c, t, keys, root, plan, t[x].parent.value);
    } else {
      assert RowOk(t, x);
    }
    hide EncryptPlan, Tree, Join;
  }

  /** Where all rows are within the limits, every way down can be planned. */
  lemma {:induction false} FitsPlanned(c: Cipher, t: Table, keys: map<Id, Key>, root: Id, ch: seq<Id>)
    requires Tree(t) && Keyed(t, keys) && Chain(t, root, ch) && forall x :: x in t ==> Fits(c, t, keys, x)
    ensures ch[|ch| - 1] in t
    ensures PlannedPath(EncryptConv(c, t, keys), Some(MAX_CIPHER_PATH), ch) ==
            Ok(TokenPathOf(c, t, keys, ch[|ch| - 1]))
    decreases |ch|
  {
    hide Tree, Keyed, Join, Chain, UniquePaths;
    ChainStarts(t, root, ch);
    if |ch| > 1 {
      ChainShrinks(t, root, ch);
      FitsPlanned(c, t, keys, root, ch[..|ch| - 1]);
      var p, x := ch[|ch| - 2], ch[|ch| - 1];
      assert t[x].parent == Some(p);
      assert Fits(c, t, keys, x);
      ParentKeyed(t, keys, x);
    }
  }

  lemma ParentKeyed(t: Table, keys: map<Id, Key>, x: Id)
    requires Tree(t) && Keyed(t, keys) && x in t && t[x].parent.Some?
    ensures t[x].parent.value in keys
  {
    assert RowOk(t, x);
  }

  lemma ChainStarts(t: Table, root: Id, ch: seq<Id>)
    requires Chain(t, root, ch)
    ensures ch != [] && ch[0] == root && root in t && t[root].parent.None?
  {
  }

  /** encryptPaths on a well-formed tree with all keys at hand: it plans the whole tree at its token paths, if and only
      if no name is longer than 255 runes and no token path longer than 768 characters. */
  method EncryptPaths(c: Cipher, t: Table, idx: Index, keys: map<Id, Key>) returns (r: Result<Plan>)
    requires Tree(t) && Keyed(t, keys) && Indexed(t, idx)
    ensures idx.root.None? ==> t == map[] && r == Ok(Plan(map[], map[]))
    ensures idx.root.Some? && r.Ok? ==> EncryptPlan(c, t, keys, idx.root.value, r.value)
    ensures r.Ok? ==> forall x :: x in t ==> x in r.value.paths && r.value.paths[x] == TokenPathOf(c, t, keys, x)
    ensures r.Ok? <==> forall x :: x in t ==> Fits(c, t, keys, x)
    ensures r.Err? ==> r.error == NameBudget
  {
    hide Tree, PlanFor, Chain, PlannedPath, ChainFails, Fits, TokenPathOf;
    r := PlanPaths(t, idx, EncryptConv(c, t, keys), EncryptOpening(keys), Some(MAX_CIPHER_PATH));
    if idx.root.Some? && r.Err? {
      ghost var conv, open := EncryptConv(c, t, keys), EncryptOpening(keys);
      ghost var ch :| ChainFails(t, idx.root.value, conv, open, Some(MAX_CIPHER_PATH), ch, r.error);
      FailsByPath(c, t, keys, idx.root.value, ch, r.error);
      FailsByLength(c, t, keys, idx.root.value, ch);
      if forall x :: x in t ==> Fits(c, t, keys, x) {
        FitsPlanned(c, t, keys, idx.root.value, ch);
      }
    }
    if idx.root.Some? && r.Ok? {
      ghost var root := idx.root.value;
      forall x | x in t
        ensures x in r.value.names
      {
        TreeReachable(t, root, x);
      }
      forall x | x in r.value.names
        ensures x in t
      {
        ReachableStored(t, root, x);
      }
      assert r.value.names.Keys == t.Keys;
      forall x | x in t
        ensures x in r.value.paths && Fits(c, t, keys, x) && r.value.paths[x] == TokenPathOf(c, t, keys, x)
      {
        PlannedTokens(c, t, keys, root, r.value, x);
      }
    }
  }

  /** The only error on a way down is a length. */
  lemma {:induction false} FailsByLength(c: Cipher, t: Table, keys: map<Id, Key>, root: Id, ch: seq<Id>)
    requires Tree(t) && Keyed(t, keys) && Chain(t, root, ch)
    ensures var r := PlannedPath(EncryptConv(c, t, keys), Some(MAX_CIPHER_PATH), ch); r.Err? ==> r.error == NameBudget
    decreases |ch|
  {
    hide Tree, Keyed, Join, Chain, UniquePaths;
    ChainStarts(t, root, ch);
    if |ch| > 1 {
      ChainShrinks(t, root, ch);
      FailsByLength(c, t, keys, root, ch[..|ch| - 1]);
      ParentKeyed(t, keys, ch[|ch| - 1]);
    }
  }

  /** With all keys at hand every folder opens. */
  lemma FailsByPath(c: Cipher, t: Table, keys: map<Id, Key>, root: Id, ch: seq<Id>, e: Error)
    requires Tree(t) && Keyed(t, keys)
    requires ChainFails(t, root, EncryptConv(c, t, keys), EncryptOpening(keys), Some(MAX_CIPHER_PATH), ch, e)
    ensures Chain(t, root, ch) && PlannedPath(EncryptConv(c, t, keys), Some(MAX_CIPHER_PATH), ch) == Err(e)
  {
    hide PlannedPath;
    assert RowOk(t, root);
  }

  lemma ReachableStored(t: Table, root: Id, x: Id)
    requires Reachable(t, root, x)
    ensures x in t
  {
    var ch :| Chain(t, root, ch) && ch[|ch| - 1] == x;
    if |ch| > 1 {
      ChainShrinks(t, root, ch);
    }
  }

  // ---------- satellite rows ----------

  /** byName[p][n]. */
  ghost function Child(t: Table, p: Id, n: string): (r: Option<Id>)
    ensures r.Some? ==> r.value in t && t[r.value].parent == Some(p) && t[r.value].name == n
    ensures r.None? ==> forall x :: x in t && t[x].parent == Some(p) ==> t[x].name != n
  {
    if x :| x in t && t[x].parent == Some(p) && t[x].name == n then Some(x) else None
  }

  /** The segment loop of cipherFor: as cipherPath's, on the loaded tree, and without the rune budget. */
  ghost function CipherForWalk(c: Cipher, t: Table, keys: map<Id, Key>, parent: Id, at: string,
                               segs: seq<string>): Result<string>
    decreases |segs|
  {
    if segs == [] then Ok(at)
    else if parent !in keys then Err(MissingKey)
    else
      var ct := Join(at, c.enc(keys[parent], segs[0]));
      if |ct| > MAX_CIPHER_PATH then Err(NameBudget)
      else if |segs| == 1 then Ok(ct)
      else match Child(t, parent, segs[0])
        case None => Err(NotFound)
        case Some(x) => if t[x].isDir then CipherForWalk(c, t, keys, x, ct, segs[1..]) else Err(NotDir)
  }

  ghost function CipherFor(c: Cipher, t: Table, keys: map<Id, Key>, root: Id, p: string): Result<string> {
    match Normalize(p)
    case Err(e) => Err(e)
    case Ok(np) =>
      if np == "/" then Ok("/")
      else if root !in t then Err(NotFound)
      else CipherForWalk(c, t, keys, root, "/", Segments(np))
  }

  /** A plaintext name on the loaded tree and its token in the committed table lead to the same row. */
  lemma ChildCommitted(c: Cipher, t: Table, keys: map<Id, Key>, root: Id, plan: Plan, d: Id, n: string)
    requires EncryptPlan(c, t, keys, root, plan) && d in t && t[d].isDir && ValidName(n)
    ensures d in keys && d in plan.paths
    ensures Lookup(Swept(t, keys, plan), Join(plan.paths[d], c.enc(keys[d], n))) == Child(t, d, n)
  {
    var u := Swept(t, keys, plan);
    SweptSealed(c, t, keys, root, plan);
    SealedTree(c, u);
    PlanStep(c, t, keys, root, plan, d);
    var ct := Join(plan.paths[d], c.enc(keys[d], n));
    assert ValidName(c.enc(keys[d], n)) && c.dec(keys[d], c.enc(keys[d], n)) == Some(n);
    if Child(t, d, n).Some? {
      var x := Child(t, d, n).value;
      PlanStep(c, t, keys, root, plan, x);
      LookupStored(u, x);
    } else if Lookup(u, ct).Some? {
      var y := Lookup(u, ct).value;
      FoundIsChild(c, t, keys, root, plan, d, n, y);
    }
  }

  lemma FoundIsChild(c: Cipher, t: Table, keys: map<Id, Key>, root: Id, plan: Plan, d: Id, n: string, y: Id)
    requires EncryptPlan(c, t, keys, root, plan) && d in t && d in keys && d in plan.paths && ValidName(n) && y in t
    requires Swept(t, keys, plan)[y].path == Join(plan.paths[d], c.enc(keys[d], n))
    ensures t[y].parent == Some(d) && t[y].name == n
  {
    PlanStep(c, t, keys, root, plan, y);
    PlanShape(c, t, keys, root, plan, y);
    PlanShape(c, t, keys, root, plan, d);
    assert ValidName(c.enc(keys[d], n)) && c.dec(keys[d], c.enc(keys[d], n)) == Some(n);
    assert plan.paths[y] == Join(plan.paths[d], c.enc(keys[d], n));
    assert y != root;
    var p := t[y].parent.value;
    PlanShape(c, t, keys, root, plan, p);
    JoinInjective(plan.paths[p], plan.names[y], plan.paths[d], c.enc(keys[d], n));
    PlanInjective(c, t, keys, root, plan, p, d);
    assert c.dec(keys[d], plan.names[y]) == Some(t[y].name);
  }

  /** The path a satellite row was converted to is the path the translating stores compute for it after the
      commit, exactly when the leaf name is within 255 runes: cipherFor does not check that budget. */
  lemma {:induction false} SatelliteWalk(c: Cipher, t: Table, keys: map<Id, Key>, root: Id, plan: Plan, d: Id,
                                         segs: seq<string>)
    requires EncryptPlan(c, t, keys, root, plan) && d in t && t[d].isDir && d in plan.paths && segs != []
      && ValidNames(segs)
    requires CipherForWalk(c, t, keys, d, plan.paths[d], segs).Ok?
    ensures var u := Swept(t, keys, plan);
            Walk(c, u, u[d], plan.paths[d], segs) ==
              if |segs[|segs| - 1]| <= MAX_NAME_RUNES then CipherForWalk(c, t, keys, d, plan.paths[d], segs)
              else Err(NameBudget)
    decreases |segs|
  {
    hide EncryptPlan, Swept, Join, Child, ValidName, Lookup;
    PlanCovers(c, t, keys, root, plan);
    var u := Swept(t, keys, plan);
    SweptKey(c, t, keys, root, plan, d);
    ChildCommitted(c, t, keys, root, plan, d, segs[0]);
    if |segs| > 1 {
      var x := Child(t, d, segs[0]).value;
      PlanStep(c, t, keys, root, plan, x);
      PlanStep(c, t, keys, root, plan, d);
      SweptKey(c, t, keys, root, plan, x);
      SatelliteWalk(c, t, keys, root, plan, x, segs[1..]);
    }
  }

  lemma SatelliteFound(c: Cipher, t: Table, keys: map<Id, Key>, root: Id, plan: Plan, p: string)
    requires EncryptPlan(c, t, keys, root, plan) && CipherFor(c, t, keys, root, p).Ok?
    ensures var np := Normalize(p).value;
            CipherPath(c, Swept(t, keys, plan), NCGOFN1, p) == CipherFor(c, t, keys, root, p) <==>
              np == "/" || |Base(np)| <= MAX_NAME_RUNES
  {
    hide EncryptPlan, Sealed, Swept, Tree, Walk, CipherForWalk, Normalize, Segments, UniquePaths, Canonical, Base;
    PlanCovers(c, t, keys, root, plan);
    var np := Normalize(p).value;
    NormalizeCanonical(p);
    SegmentsCanonical(np);
    var u := Swept(t, keys, plan);
    PlanStep(c, t, keys, root, plan, root);
    SweptSealed(c, t, keys, root, plan);
    SealedTree(c, u);
    SweptKey(c, t, keys, root, plan, root);
    LookupStored(u, root);
    if np != "/" {
      BaseIsLast(np);
      SatelliteWalk(c, t, keys, root, plan, root, Segments(np));
    }
  }

  lemma BaseIsLast(np: string)
    requires Canonical(np) && np != "/"
    ensures Segments(np) != [] && Segments(np)[|Segments(np)| - 1] == Base(np)
  {
    SegmentsCanonical(np);
    var segs := Segments(np);
    var init, n := segs[..|segs| - 1], segs[|segs| - 1];
    assert segs == init + [n];
    JoinAllSnoc("/", init, n);
    assert Canonical(Render(init));
    SegmentsCanonical(Render(init));
    DirBaseOfJoin(Render(init), n);
  }

  lemma SweptKey(c: Cipher, t: Table, keys: map<Id, Key>, root: Id, plan: Plan, d: Id)
    requires EncryptPlan(c, t, keys, root, plan) && d in t
    ensures var u := Swept(t, keys, plan);
            && u.Keys == t.Keys && d in plan.paths && u[d].isDir == t[d].isDir && u[d].path == plan.paths[d]
              && u[d].parent == t[d].parent
            && u[d].scheme == NCGOFN1 && u[d].name == plan.names[d]
            && (t[d].isDir ==> d in keys && u[d].key == Some(keys[d])) && (!t[d].isDir ==> u[d].key == t[d].key)
  {
  }

  // ---------- decrypting ----------

  function DecryptedName(c: Cipher, u: Table, p: Id, x: Id): Result<string> {
    if p !in u || x !in u then Err(NotFound)
    else if u[x].scheme == NCGOFN1 then DecryptSegment(c, u[p], u[x].name)
    else Ok(u[x].name)
  }

  function DecryptConv(c: Cipher, u: Table): Conversion {
    (p: Id, x: Id) => DecryptedName(c, u, p, x)
  }

  /** `plan` is what decryptPaths computed for the whole table. */
  ghost predicate DecryptPlan(c: Cipher, u: Table, root: Id, plan: Plan) {
    PlanFor(u, root, DecryptConv(c, u), None, plan) && plan.names.Keys == u.Keys
  }

  /** The name of a row can be given back: it is plaintext, or a token its folder's key opens. */
  ghost predicate Readable(c: Cipher, u: Table, x: Id)
    requires x in u
  {
    u[x].parent.Some? && u[x].scheme == 1 ==>
      && u[x].parent.value in u && u[u[x].parent.value].key.Some?
      && c.dec(u[u[x].parent.value].key.value, u[x].name).Some?
  }

  /** The plan has that name for the row, behind the path of its folder. */
  ghost predicate GivenBack(c: Cipher, u: Table, plan: Plan, x: Id)
    requires x in u && Readable(c, u, x)
  {
    && x in plan.names && x in plan.paths
    && match u[x].parent
       case None => plan.names[x] == "" && plan.paths[x] == "/"
       case Some(p) =>
         && p in plan.paths && plan.paths[x] == Join(plan.paths[p], plan.names[x])
         && plan.names[x] == if u[x].scheme == 1 then c.dec(u[p].key.value, u[x].name).value else u[x].name
  }

  /** decryptPaths on a well-formed tree, rows of both schemes mixed: it gives every row its name back, if and only if
      all tokens can be opened. */
  method DecryptPaths(c: Cipher, u: Table, idx: Index) returns (r: Result<Plan>)
    requires Tree(u) && Indexed(u, idx)
    ensures idx.root.None? ==> u == map[] && r == Ok(Plan(map[], map[]))
    ensures idx.root.Some? && r.Ok? ==> DecryptPlan(c, u, idx.root.value, r.value)
    ensures r.Ok? <==> forall x :: x in u ==> Readable(c, u, x)
    ensures r.Ok? ==> forall x :: x in u ==> GivenBack(c, u, r.value, x)
  {
    hide Tree, PlanFor, Chain, PlannedPath, ChainFails, Readable, GivenBack, Reachable;
    r := PlanPaths(u, idx, DecryptConv(c, u), (x: Id) => Ok(()), None);
    if idx.root.Some? && r.Err? {
      ghost var ch :| ChainFails(u, idx.root.value, DecryptConv(c, u), (x: Id) => Ok(()), None, ch, r.error);
      NotOpened(c, u, idx.root.value, ch, r.error);
      if forall x :: x in u ==> Readable(c, u, x) {
        ReadablePlanned(c, u, idx.root.value, ch);
      }
    }
    if idx.root.Some? && r.Ok? {
      ghost var root := idx.root.value;
      forall x | x in u
        ensures x in r.value.names
      {
        TreeReachable(u, root, x);
      }
      forall x | x in r.value.names
        ensures x in u
      {
        ReachableStored(u, root, x);
      }
      assert r.value.names.Keys == u.Keys;
      forall x | x in u
        ensures Readable(c, u, x) && GivenBack(c, u, r.value, x)
      {
        PlannedBack(c, u, root, r.value, x);
      }
    }
  }

  lemma NotOpened(c: Cipher, u: Table, root: Id, ch: seq<Id>, e: Error)
    requires ChainFails(u, root, DecryptConv(c, u), (x: Id) => Ok(()), None, ch, e)
    ensures |ch| > 0 && Chain(u, root, ch) && PlannedPath(DecryptConv(c, u), None, ch) == Err(e)
  {
    hide PlannedPath;
  }

  lemma {:induction false} ReadablePlanned(c: Cipher, u: Table, root: Id, ch: seq<Id>)
    requires |ch| > 0 && Chain(u, root, ch) && forall x :: x in u ==> Readable(c, u, x)
    ensures PlannedPath(DecryptConv(c, u), None, ch).Ok?
    decreases |ch|
  {
    hide Join, Chain, Readable;
    if |ch| > 1 {
      ChainShrinks(u, root, ch);
      ReadablePlanned(c, u, root, ch[..|ch| - 1]);
      NameOpens(c, u, ch[|ch| - 1]);
    }
  }

  lemma NameOpens(c: Cipher, u: Table, x: Id)
    requires x in u && u[x].parent.Some? && u[x].parent.value in u
    ensures DecryptedName(c, u, u[x].parent.value, x).Ok? <==> Readable(c, u, x)
    ensures Readable(c, u, x) ==>
              DecryptedName(c, u, u[x].parent.value, x) ==
              Ok(if u[x].scheme == 1 then c.dec(u[u[x].parent.value].key.value, u[x].name).value else u[x].name)
  {
  }

  lemma PlannedBack(c: Cipher, u: Table, root: Id, plan: Plan, x: Id)
    requires Tree(u) && DecryptPlan(c, u, root, plan) && x in u && root in u && u[root].parent.None?
    ensures Readable(c, u, x) && GivenBack(c, u, plan, x)
  {
    assert RowOk(u, x) && RowOk(u, root);
    if x != root {
      BackStep(c, u, root, plan, x);
      NameOpens(c, u, x);
    }
    hide Tree, PlanFor, Join;
  }

  /** A row after the decrypting commit: folder keys leave with the mode, file keys stay. */
  function RestoredRow(r: Row, name: string, path: string): Row {
    r.(name := name, path := path, scheme := 0, key := if r.isDir then None else r.key)
  }

  /** Encrypting and then decrypting gives every row its name, path and scheme back. */
  lemma {:induction false} SweepRoundTrip(c: Cipher, t: Table, keys: map<Id, Key>, root: Id, plan: Plan, back: Plan,
                                          x: Id)
    requires EncryptPlan(c, t, keys, root, plan) && x in t && t[x].scheme == 0
    requires DecryptPlan(c, Swept(t, keys, plan), root, back)
    ensures x in back.names && x in back.paths
    ensures RestoredRow(Swept(t, keys, plan)[x], back.names[x], back.paths[x]) ==
            t[x].(key := if t[x].isDir then None else t[x].key)
  {
    RoundTripName(c, t, keys, root, plan, back, x);
  }

  lemma {:induction false} RoundTripName(c: Cipher, t: Table, keys: map<Id, Key>, root: Id, plan: Plan, back: Plan,
                                         x: Id)
    requires EncryptPlan(c, t, keys, root, plan) && x in t && DecryptPlan(c, Swept(t, keys, plan), root, back)
    ensures x in back.names && x in back.paths && back.names[x] == t[x].name && back.paths[x] == t[x].path
    decreases |t[x].path|
  {
    PlanStep(c, t, keys, root, plan, x);
    SweptKey(c, t, keys, root, plan, x);
    if x != root {
      BackStep(c, Swept(t, keys, plan), root, back, x);
      TokenBack(c, t, keys, root, plan, x);
      RoundTripName(c, t, keys, root, plan, back, t[x].parent.value);
    } else {
      assert RowOk(t, x);
    }
    hide EncryptPlan, Swept, Tree, PlanFor, Join, ValidName;
  }

  lemma BackStep(c: Cipher, u: Table, root: Id, back: Plan, x: Id)
    requires DecryptPlan(c, u, root, back) && x in u && x != root
    ensures x in back.names && x in back.paths && u[x].parent.Some? && u[x].parent.value in back.paths
    ensures DecryptedName(c, u, u[x].parent.value, x) == Ok(back.names[x])
    ensures back.paths[x] == Join(back.paths[u[x].parent.value], back.names[x])
  {
    assert PlanRow(u, DecryptConv(c, u), None, back, x);
  }

  lemma TokenBack(c: Cipher, t: Table, keys: map<Id, Key>, root: Id, plan: Plan, x: Id)
    requires EncryptPlan(c, t, keys, root, plan) && x in t && x != root
    ensures t[x].parent.Some? && DecryptedName(c, Swept(t, keys, plan), t[x].parent.value, x) == Ok(t[x].name)
  {
    hide EncryptPlan, Swept;
    PlanCovers(c, t, keys, root, plan);
    PlanStep(c, t, keys, root, plan, x);
    var p := t[x].parent.value;
    SweptKey(c, t, keys, root, plan, x);
    SweptKey(c, t, keys, root, plan, p);
    assert c.dec(keys[p], plan.names[x]) == Some(t[x].name);
  }

  /** The segment loop of plainFor on the loaded scheme-1 table. */
  ghost function PlainForWalk(c: Cipher, u: Table, parent: Id, plain: string, toks: seq<string>): Result<string>
    decreases |toks|
  {
    if toks == [] then Ok(plain)
    else if parent !in u then Err(NotFound)
    else match DecryptSegment(c, u[parent], toks[0])
      case Err(e) => Err(e)
      case Ok(seg) =>
        if |toks| == 1 then Ok(Join(plain, seg))
        else match Child(u, parent, toks[0])
          case None => Err(NotFound)
          case Some(x) => if u[x].isDir then PlainForWalk(c, u, x, Join(plain, seg), toks[1..]) else Err(NotDir)
  }

  ghost function PlainFor(c: Cipher, u: Table, root: Id, p: string): Result<string> {
    match Normalize(p)
    case Err(e) => Err(e)
    case Ok(np) => if np == "/" then Ok("/") else PlainForWalk(c, u, root, "/", Segments(np))
  }

  lemma {:induction false} SatelliteTokens(c: Cipher, t: Table, keys: map<Id, Key>, root: Id, plan: Plan, d: Id,
                                           plain: string, segs: seq<string>)
    returns (toks: seq<string>)
    requires EncryptPlan(c, t, keys, root, plan) && d in t && t[d].isDir && d in plan.paths && segs != []
      && ValidNames(segs)
    requires CipherForWalk(c, t, keys, d, plan.paths[d], segs).Ok?
    ensures |toks| == |segs| && ValidNames(toks)
      && CipherForWalk(c, t, keys, d, plan.paths[d], segs).value == JoinAll(plan.paths[d], toks)
    ensures PlainForWalk(c, Swept(t, keys, plan), d, plain, toks) == Ok(JoinAll(plain, segs))
    decreases |segs|
  {
    hide EncryptPlan, Swept, Join, Child;
    PlanCovers(c, t, keys, root, plan);
    var u := Swept(t, keys, plan);
    SweptKey(c, t, keys, root, plan, d);
    var tok := c.enc(keys[d], segs[0]);
    assert ValidName(tok) && c.dec(keys[d], tok) == Some(segs[0]);
    if |segs| == 1 {
      toks := [tok];
      assert toks[1..] == [] && segs[1..] == [];
    } else {
      var x := Child(t, d, segs[0]).value;
      PlanStep(c, t, keys, root, plan, x);
      PlanStep(c, t, keys, root, plan, d);
      ChildSwept(c, t, keys, root, plan, d, segs[0], x);
      var rest := SatelliteTokens(c, t, keys, root, plan, x, Join(plain, segs[0]), segs[1..]);
      toks := [tok] + rest;
      assert toks[1..] == rest;
    }
  }

  lemma ChildSwept(c: Cipher, t: Table, keys: map<Id, Key>, root: Id, plan: Plan, d: Id, n: string, x: Id)
    requires EncryptPlan(c, t, keys, root, plan) && d in t && t[d].isDir && d in plan.paths && ValidName(n)
      && Child(t, d, n) == Some(x)
    ensures d in keys && Child(Swept(t, keys, plan), d, c.enc(keys[d], n)) == Some(x)
      && Swept(t, keys, plan)[x].isDir == t[x].isDir
  {
    var u := Swept(t, keys, plan);
    PlanStep(c, t, keys, root, plan, x);
    PlanStep(c, t, keys, root, plan, d);
    var y := Child(u, d, c.enc(keys[d], n));
    assert u[x].parent == Some(d) && u[x].name == c.enc(keys[d], n);
    assert y.Some?;
    PlanStep(c, t, keys, root, plan, y.value);
    PlanInjective(c, t, keys, root, plan, x, y.value);
  }

  /** Satellite paths round trip: what cipherFor converted, plainFor of the next sweep converts back. */
  lemma SatelliteRoundTrip(c: Cipher, t: Table, keys: map<Id, Key>, root: Id, plan: Plan, p: string)
    requires EncryptPlan(c, t, keys, root, plan) && CipherFor(c, t, keys, root, p).Ok?
    ensures PlainFor(c, Swept(t, keys, plan), root, CipherFor(c, t, keys, root, p).value) == Normalize(p)
  {
    var np := Normalize(p).value;
    NormalizeCanonical(p);
    SegmentsCanonical(np);
    NormalizeCanonical(np);
    PlanStep(c, t, keys, root, plan, root);
    if np != "/" {
      var toks := SatelliteTokens(c, t, keys, root, plan, root, "/", Segments(np));
      var ct := Render(toks);
      assert Canonical(ct);
      SegmentsOfRender(toks);
      RenderSplits(toks);
      NormalizeCanonical(ct);
    }
    hide EncryptPlan, Swept, PlainForWalk, CipherForWalk, Normalize, Segments, Canonical;
  }
}
