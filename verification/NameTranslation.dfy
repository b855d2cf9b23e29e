/** Filename translation (internal/files/nametranslate.go): one deterministic token per path segment,
    keyed by the parent folder. */
module NameTranslation {
  import opened Common
  import opened Paths
  import opened Filecache

  const MAX_NAME_RUNES := 255
  const MAX_CIPHER_PATH := 768
  const NCGOFN1 := 1

  /** EncryptName and DecryptName under the key a folder's key uuid resolves to. */
  datatype NameCipher = NameCipher(enc: (Key, string) -> string, dec: (Key, string) -> Option<string>)

  /** What internal/storage/encrypt/nametoken.go provides: the token of a non-empty name is a proper path
      segment, decrypting it under the same key gives the name back, and the empty name is never sealed.
      Nothing else is said of foreign tokens. */
  ghost predicate Sound(c: NameCipher) {
    && (forall k: Key, n: string :: n != "" ==> ValidName(c.enc(k, n)) && c.dec(k, c.enc(k, n)) == Some(n))
    && forall k: Key, tok: string :: c.dec(k, tok) != Some("")
  }

  type Cipher = c: NameCipher | Sound(c)
    ghost witness (ClearSound(); Clear())

  /** A keyless cipher that shows the hypotheses to be consistent: names are their own tokens, unless they are
      no proper segment or start with a dash; those are escaped behind a dash. */
  function Clear(): NameCipher {
    NameCipher((k: Key, n: string) => ClearToken(n), (k: Key, t: string) => ClearName(t))
  }

  function ClearToken(n: string): string {
    if ValidName(n) && n[0] != '-' then n else "-" + Escape(n)
  }

  function ClearName(t: string): Option<string> {
    if t == "" then None
    else if t[0] != '-' then Some(t)
    else if Unescape(t[1..]) == "" then None
    else Some(Unescape(t[1..]))
  }

  function Escape(n: string): string {
    if n == "" then ""
    else
      (if n[0] == '/' then "_s" else if n[0] == '\\' then "_b" else if n[0] == '\0' then "_0"
       else if n[0] == '_' then "__" else [n[0]]) + Escape(n[1..])
  }

  function Unescape(t: string): string {
    if t == "" then ""
    else if t[0] != '_' || |t| == 1 then [t[0]] + Unescape(t[1..])
    else
      [if t[1] == 's' then '/' else if t[1] == 'b' then '\\' else if t[1] == '0' then '\0' else '_'] + Unescape(t[2..])
  }

  lemma {:induction false} EscapeUndone(n: string)
    ensures Unescape(Escape(n)) == n && '/' !in Escape(n) && '\\' !in Escape(n) && '\0' !in Escape(n)
    ensures n != "" ==> Escape(n) != ""
  {
    if n != "" {
      EscapeUndone(n[1..]);
      var rest := Escape(n[1..]);
      assert n == [n[0]] + n[1..];
      if n[0] == '/' || n[0] == '\\' || n[0] == '\0' || n[0] == '_' {
        assert Escape(n)[2..] == rest && Escape(n)[0] == '_';
      } else {
        assert Escape(n)[1..] == rest;
      }
    }
  }

  lemma ClearSound()
    ensures Sound(Clear())
  {
    hide ClearToken, ClearName, ValidName;
    forall n: string | n != ""
      ensures ValidName(ClearToken(n)) && ClearName(ClearToken(n)) == Some(n)
    {
      ClearUndone(n);
    }
    forall t: string
      ensures ClearName(t) != Some("")
    {
      ClearNamesProper(t);
    }
  }

  lemma ClearUndone(n: string)
    requires n != ""
    ensures ValidName(ClearToken(n)) && ClearName(ClearToken(n)) == Some(n)
  {
    hide Escape, Unescape;
    EscapeUndone(n);
    var e := "-" + Escape(n);
    assert e[0] == '-' && e[1..] == Escape(n);
    assert forall i :: 0 < i < |e| ==> e[i] == e[1..][i - 1];
  }

  lemma ClearNamesProper(t: string)
    ensures ClearName(t) != Some("")
  {
  }

  /** Ordinary names are their own tokens. */
  lemma ClearOrdinary(n: string)
    requires ValidName(n) && n[0] != '-'
    ensures ClearToken(n) == n && ClearName(n) == Some(n)
  {
  }

  // ---------- cipherPath ----------

  function CipherSegment(c: Cipher, parent: Row, name: string): Result<string> {
    if |name| > MAX_NAME_RUNES then Err(NameBudget)
    else if parent.key.None? then Err(MissingKey)
    else Ok(c.enc(parent.key.value, name))
  }

  /** The segment loop, started at the folder `parent` whose stored path is `at`. */
  ghost function Walk(c: Cipher, t: Table, parent: Row, at: string, segs: seq<string>): Result<string>
    decreases |segs|
  {
    if segs == [] then Ok(at) else
    var tok :- CipherSegment(c, parent, segs[0]);
    var ct := Join(at, tok);
    if |ct| > MAX_CIPHER_PATH then Err(NameBudget)
    else if |segs| == 1 then Ok(ct)
    else match Lookup(t, ct)
      case None => Err(NotFound)
      case Some(x) => if t[x].isDir then Walk(c, t, t[x], ct, segs[1..]) else Err(NotDir)
  }

  /** cipherPath for a user with the given name_scheme. */
  ghost function CipherPath(c: Cipher, t: Table, scheme: int, p: string): Result<string> {
    var np :- Normalize(p);
    if np == "/" then Ok("/")
    else if scheme != NCGOFN1 then Ok(np)
    else match Lookup(t, "/")
      case None => Err(NotFound)
      case Some(root) => Walk(c, t, t[root], "/", Segments(np))
  }

  // ---------- PlainPath ----------

  function DecryptSegment(c: Cipher, parent: Row, tok: string): Result<string> {
    if parent.key.None? then Err(MissingKey)
    else match c.dec(parent.key.value, tok)
      case None => Err(Integrity)
      case Some(n) => Ok(n)
  }

  ghost function PlainWalk(c: Cipher, t: Table, parent: Row, at: string, plain: string,
                           toks: seq<string>): Result<string>
    decreases |toks|
  {
    if toks == [] then Ok(plain) else
    var seg :- DecryptSegment(c, parent, toks[0]);
    var ct, out := Join(at, toks[0]), Join(plain, seg);
    if |toks| == 1 then Ok(out)
    else match Lookup(t, ct)
      case None => Err(NotFound)
      case Some(x) => if t[x].isDir then PlainWalk(c, t, t[x], ct, out, toks[1..]) else Err(NotDir)
  }

  ghost function PlainPath(c: Cipher, t: Table, scheme: int, p: string): Result<string> {
    var np :- Normalize(p);
    if np == "/" then Ok("/")
    else if scheme != NCGOFN1 then Ok(np)
    else match Lookup(t, "/")
      case None => Err(NotFound)
      case Some(root) => PlainWalk(c, t, t[root], "/", "/", Segments(np))
  }

  // ---------- round trip on every table ----------

  /** The tokens a successful walk produced, and what the reverse walk makes of them. */
  lemma {:induction false} WalkRoundTrip(c: Cipher, t: Table, parent: Row, at: string, plain: string, segs: seq<string>)
    returns (toks: seq<string>)
    requires segs != [] && ValidNames(segs) && Walk(c, t, parent, at, segs).Ok?
    ensures |toks| == |segs| && ValidNames(toks)
    ensures Walk(c, t, parent, at, segs).value == JoinAll(at, toks)
    ensures PlainWalk(c, t, parent, at, plain, toks) == Ok(JoinAll(plain, segs))
    decreases |segs|
  {
    var tok := c.enc(parent.key.value, segs[0]);
    var ct := Join(at, tok);
    assert ValidName(tok) && c.dec(parent.key.value, tok) == Some(segs[0]);
    if |segs| == 1 {
      toks := [tok];
      assert toks[1..] == [] && segs[1..] == [];
    } else {
      var x := Lookup(t, ct).value;
      var rest := WalkRoundTrip(c, t, t[x], ct, Join(plain, segs[0]), segs[1..]);
      toks := [tok] + rest;
      assert toks[1..] == rest;
    }
  }

  /** Whenever cipherPath succeeds, PlainPath of the result is the normalised path: on every table,
      whether or not the leaf is stored. */
  lemma PathRoundTrip(c: Cipher, t: Table, scheme: int, p: string)
    requires CipherPath(c, t, scheme, p).Ok?
    ensures PlainPath(c, t, scheme, CipherPath(c, t, scheme, p).value) == Normalize(p)
  {
    var np := Normalize(p).value;
    NormalizeCanonical(p);
    NormalizeCanonical(np);
    if np != "/" && scheme == NCGOFN1 {
      SegmentsCanonical(np);
      var root := Lookup(t, "/").value;
      var segs := Segments(np);
      var toks := WalkRoundTrip(c, t, t[root], "/", "/", segs);
      var ct := Render(toks);
      assert Canonical(ct);
      SegmentsOfRender(toks);
      RenderSplits(toks);
      NormalizeCanonical(ct);
    }
  }

  /** Distinct normalised paths never share a ciphertext path. */
  lemma CipherPathInjective(c: Cipher, t: Table, scheme: int, p: string, q: string)
    requires CipherPath(c, t, scheme, p).Ok? && CipherPath(c, t, scheme, q) == CipherPath(c, t, scheme, p)
    ensures Normalize(p) == Normalize(q)
  {
    PathRoundTrip(c, t, scheme, p);
    PathRoundTrip(c, t, scheme, q);
  }

  // ---------- the plaintext view of a sealed tree ----------

  ghost predicate SealedRow(c: Cipher, t: Table, x: Id)
    requires x in t
  {
    var r := t[x];
    && (r.isDir ==> r.key.Some?)
    && (r.parent.Some? ==>
          && r.parent.value in t
          && t[r.parent.value].key.Some?
          && r.scheme == NCGOFN1
          && var k := t[r.parent.value].key.value;
             c.dec(k, r.name).Some? && ValidName(c.dec(k, r.name).value) && c.enc(k, c.dec(k, r.name).value) == r.name)
  }

  /** A uniform scheme-1 tree: every folder is keyed and every stored name is a token of its folder. */
  ghost predicate Sealed(c: Cipher, t: Table) {
    Tree(t) && forall x :: x in t ==> SealedRow(c, t, x)
  }

  ghost function PlainName(c: Cipher, t: Table, x: Id): string
    requires Sealed(c, t) && x in t
  {
    assert SealedRow(c, t, x);
    match t[x].parent
    case None => ""
    case Some(p) => c.dec(t[p].key.value, t[x].name).value
  }

  /** The plaintext path of a stored row: names decrypted up the parent chain. */
  ghost function PlainPathOf(c: Cipher, t: Table, x: Id): string
    requires Sealed(c, t) && x in t
    decreases |t[x].path|
  {
    match t[x].parent
    case None => "/"
    case Some(p) => PathShape'(t, x); Join(PlainPathOf(c, t, p), PlainName(c, t, x))
  }

  /** The abstraction: the same rows with plaintext names and paths. */
  ghost function View(c: Cipher, t: Table): (v: Table)
    requires Sealed(c, t)
    ensures v.Keys == t.Keys
  {
    map x | x in t :: t[x].(name := PlainName(c, t, x), path := PlainPathOf(c, t, x))
  }

  lemma PlainStep(c: Cipher, t: Table, x: Id)
    requires Sealed(c, t) && x in t && t[x].parent.Some?
    ensures var p := t[x].parent.value;
            && p in t && |t[p].path| < |t[x].path| && t[p].key.Some? && t[p].isDir
            && ValidName(PlainName(c, t, x)) && t[x].name == c.enc(t[p].key.value, PlainName(c, t, x))
            && t[x].path == Join(t[p].path, t[x].name) && ValidName(t[x].name)
            && PlainPathOf(c, t, x) == Join(PlainPathOf(c, t, p), PlainName(c, t, x))
  {
    assert RowOk(t, x) && SealedRow(c, t, x);
    PathShape'(t, x);
  }

  lemma {:induction false} PlainShape(c: Cipher, t: Table, x: Id)
    requires Sealed(c, t) && x in t
    ensures PlainPathOf(c, t, x) != "" && (PlainPathOf(c, t, x) == "/" <==> t[x].parent.None?)
    decreases |t[x].path|
  {
    if t[x].parent.Some? {
      PlainStep(c, t, x);
      PlainShape(c, t, t[x].parent.value);
    }
  }

  lemma {:induction false} PlainPathInjective(c: Cipher, t: Table, x: Id, y: Id)
    requires Sealed(c, t) && x in t && y in t && PlainPathOf(c, t, x) == PlainPathOf(c, t, y)
    ensures x == y
    decreases |t[x].path|
  {
    PlainShape(c, t, x);
    PlainShape(c, t, y);
    if t[x].parent.None? {
      assert RowOk(t, x) && RowOk(t, y);
    } else {
      var p, q := t[x].parent.value, t[y].parent.value;
      PlainStep(c, t, x);
      PlainStep(c, t, y);
      PlainShape(c, t, p);
      PlainShape(c, t, q);
      JoinInjective(PlainPathOf(c, t, p), PlainName(c, t, x), PlainPathOf(c, t, q), PlainName(c, t, y));
      PlainPathInjective(c, t, p, q);
    }
  }

  /** The view of a sealed tree is a tree of the same shape. */
  lemma ViewIsTree(c: Cipher, t: Table)
    requires Sealed(c, t)
    ensures Tree(View(c, t))
  {
    var v := View(c, t);
    forall x, y | x in v && y in v && v[x].path == v[y].path
      ensures x == y
    {
      PlainPathInjective(c, t, x, y);
    }
    forall x | x in v
      ensures RowOk(v, x)
    {
      assert RowOk(t, x);
      if t[x].parent.Some? {
        PlainStep(c, t, x);
      }
    }
  }

  /** Decryption as the code runs it on one row: dual-read on the row's own scheme, errors included. */
  ghost function DecryptedPath(c: Cipher, t: Table, x: Id): Result<string>
    requires Tree(t) && x in t
    decreases |t[x].path|
  {
    match t[x].parent
    case None => Ok("/")
    case Some(p) =>
      PathShape'(t, x);
      var pp :- DecryptedPath(c, t, p);
      var name :- if t[x].scheme == NCGOFN1 then DecryptSegment(c, t[p], t[x].name) else Ok(t[x].name);
      Ok(Join(pp, name))
  }

  ghost function DecryptRow(c: Cipher, t: Table, x: Id): Result<Row>
    requires Tree(t) && x in t
  {
    var f := t[x];
    if f.scheme != NCGOFN1 then Ok(f)
    else match f.parent
      case None => Ok(f.(name := "", path := "/"))
      case Some(p) =>
        PathShape'(t, x);
        var pp :- DecryptedPath(c, t, p);
        var name :- DecryptSegment(c, t[p], f.name);
        Ok(f.(name := name, path := Join(pp, name)))
  }

  lemma {:induction false} DecryptedPathIsPlain(c: Cipher, t: Table, x: Id)
    requires Sealed(c, t) && x in t
    ensures DecryptedPath(c, t, x) == Ok(PlainPathOf(c, t, x))
    decreases |t[x].path|
  {
    if t[x].parent.Some? {
      PlainStep(c, t, x);
      assert SealedRow(c, t, x);
      DecryptedPathIsPlain(c, t, t[x].parent.value);
    }
  }

  /** decryptRow returns the row of the view, for every row of a sealed tree. */
  lemma DecryptRowIsView(c: Cipher, t: Table, x: Id)
    requires Sealed(c, t) && x in t
    ensures DecryptRow(c, t, x) == Ok(View(c, t)[x])
  {
    assert RowOk(t, x) && SealedRow(c, t, x);
    if t[x].parent.Some? {
      PlainStep(c, t, x);
      DecryptedPathIsPlain(c, t, t[x].parent.value);
    }
  }

  // ---------- resolution agrees with the view ----------

  /** A name and its token lead from the same folder to the same row. */
  lemma ChildAgrees(c: Cipher, t: Table, d: Id, n: string, y: Id)
    requires Sealed(c, t) && d in t && t[d].key.Some? && y in t && ValidName(n)
    ensures t[y].path == Join(t[d].path, c.enc(t[d].key.value, n)) <==>
            PlainPathOf(c, t, y) == Join(PlainPathOf(c, t, d), n)
  {
    var tok := c.enc(t[d].key.value, n);
    PathShape(t, d);
    PathShape(t, y);
    PlainShape(c, t, d);
    PlainShape(c, t, y);
    assert ValidName(tok) && c.dec(t[d].key.value, tok) == Some(n);
    if t[y].parent.Some? {
      var p := t[y].parent.value;
      PlainStep(c, t, y);
      PathShape(t, p);
      PlainShape(c, t, p);
      if t[y].path == Join(t[d].path, tok) {
        JoinInjective(t[p].path, t[y].name, t[d].path, tok);
      }
      if PlainPathOf(c, t, y) == Join(PlainPathOf(c, t, d), n) {
        JoinInjective(PlainPathOf(c, t, p), PlainName(c, t, y), PlainPathOf(c, t, d), n);
        PlainPathInjective(c, t, p, d);
      }
    }
  }

  /** If the walk from folder `d` succeeds, the row at the resulting ciphertext path, if any, is the row
      at the plaintext path. */
  lemma {:induction false} WalkAgrees(c: Cipher, t: Table, d: Id, segs: seq<string>, y: Id)
    requires Sealed(c, t) && d in t && y in t && segs != [] && ValidNames(segs)
    requires Walk(c, t, t[d], t[d].path, segs).Ok?
    ensures t[y].path == Walk(c, t, t[d], t[d].path, segs).value <==>
            PlainPathOf(c, t, y) == JoinAll(PlainPathOf(c, t, d), segs)
    decreases |segs|
  {
    var ct := Join(t[d].path, c.enc(t[d].key.value, segs[0]));
    if |segs| == 1 {
      ChildAgrees(c, t, d, segs[0], y);
      assert segs[1..] == [];
    } else {
      var x := Lookup(t, ct).value;
      ChildAgrees(c, t, d, segs[0], x);
      WalkAgrees(c, t, x, segs[1..], y);
    }
  }

  /** Every stored name and path is within the length budget the walk enforces. */
  ghost predicate WithinBudget(c: Cipher, t: Table)
    requires Sealed(c, t)
  {
    forall x :: x in t ==> |PlainName(c, t, x)| <= MAX_NAME_RUNES && |t[x].path| <= MAX_CIPHER_PATH
  }

  /** The walk finds every stored row of a tree within budget. */
  lemma {:induction false} WalkFinds(c: Cipher, t: Table, d: Id, segs: seq<string>, y: Id)
    requires Sealed(c, t) && WithinBudget(c, t) && d in t && t[d].isDir && y in t && segs != [] && ValidNames(segs)
    requires PlainPathOf(c, t, y) == JoinAll(PlainPathOf(c, t, d), segs)
    ensures Walk(c, t, t[d], t[d].path, segs) == Ok(t[y].path)
    decreases |segs|
  {
    hide Tree, Sealed, PlainName, WithinBudget, ValidName, Join, PlainPathOf, CipherSegment;
    PlainShape(c, t, d);
    var pd := PlainPathOf(c, t, d);
    if |segs| == 1 {
      assert segs[1..] == [];
      FirstStep(c, t, d, segs[0], y);
    } else {
      var x := IntermediateStored(c, t, pd, segs, y);
      FirstStep(c, t, d, segs[0], x);
      WalkFinds(c, t, x, segs[1..], y);
    }
  }

  lemma FirstStep(c: Cipher, t: Table, d: Id, n: string, y: Id)
    requires Sealed(c, t) && WithinBudget(c, t) && d in t && t[d].isDir && y in t && ValidName(n)
    requires PlainPathOf(c, t, y) == Join(PlainPathOf(c, t, d), n)
    ensures CipherSegment(c, t[d], n).Ok? && t[y].path == Join(t[d].path, CipherSegment(c, t[d], n).value)
    ensures |t[y].path| <= MAX_CIPHER_PATH && Lookup(t, t[y].path) == Some(y)
  {
    assert SealedRow(c, t, d);
    TreeUnique(t);
    PlainShape(c, t, d);
    ChildAgrees(c, t, d, n, y);
    LastName(c, t, PlainPathOf(c, t, d), n, y);
    LookupStored(t, y);
  }

  lemma LastName(c: Cipher, t: Table, pd: string, n: string, y: Id)
    requires Sealed(c, t) && y in t && pd != "" && ValidName(n) && PlainPathOf(c, t, y) == Join(pd, n)
    ensures PlainName(c, t, y) == n
  {
    PlainShape(c, t, y);
    PlainStep(c, t, y);
    PlainShape(c, t, t[y].parent.value);
    JoinInjective(PlainPathOf(c, t, t[y].parent.value), PlainName(c, t, y), pd, n);
  }

  lemma IntermediateStored(c: Cipher, t: Table, pd: string, segs: seq<string>, y: Id) returns (x: Id)
    requires Sealed(c, t) && y in t && |segs| > 1 && ValidNames(segs) && pd != ""
    requires PlainPathOf(c, t, y) == JoinAll(pd, segs)
    ensures x in t && t[x].isDir && PlainPathOf(c, t, x) == Join(pd, segs[0])
  {
    ViewIsTree(c, t);
    var v := View(c, t);
    var q := Join(pd, segs[0]);
    JoinAllBelow(q, segs[1..]);
    x := AncestorStored(v, y, q);
  }
}
