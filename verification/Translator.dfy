/** The translation loops and the translating store as the code runs them, on a mutable raw store
    (internal/files/nametranslate.go, internal/files/nametranslate_stores.go). */
module Translator {
  import opened Common
  import opened Paths
  import opened Filecache
  import opened SqlStore
  import opened NameTranslation
  import opened AnchoredNames
  import Refinement
  import MoveRefinement

  lemma ExtendCanonical(at: string, tok: string)
    requires Canonical(at) && ValidName(tok)
    ensures at != "" && Canonical(Join(at, tok)) && Join(at, tok) != "/"
      && Normalize(Join(at, tok)) == Ok(Join(at, tok))
  {
    SegmentsCanonical(at);
    Refinement.CanonicalJoin(at, tok);
    NormalizeCanonical(Join(at, tok));
  }

  /** The segment loop shared by cipherPath and CipherPathUnder: `ct` grows by "/" + token. */
  method WalkSegments(raw: Store, c: Cipher, anchor: Row, at: string, segs: seq<string>) returns (r: Result<string>)
    requires raw.Valid() && Canonical(at) && ValidNames(segs)
    ensures r == Walk(c, raw.rows, anchor, at, segs)
  {
    hide Tree, Canonical, Normalize;
    TreeUnique(raw.rows);
    var parent := anchor;
    var ct := if at == "/" then "" else at;
    ghost var cur := at;
    assert cur != "" by { SegmentsCanonical(at); }
    for i := 0 to |segs|
      invariant ct == if cur == "/" then "" else cur
      invariant Canonical(cur) && cur != ""
      invariant Walk(c, raw.rows, anchor, at, segs) == Walk(c, raw.rows, parent, cur, segs[i..])
    {
      assert segs[i..][0] == segs[i] && segs[i..][1..] == segs[i + 1..];
      var tok := CipherSegment(c, parent, segs[i]);
      if tok.Err? {
        return Err(tok.error);
      }
      assert ValidName(segs[i]);
      assert ValidName(tok.value);
      ExtendCanonical(cur, tok.value);
      ct := ct + "/" + tok.value;
      assert ct == Join(cur, tok.value);
      if |ct| > MAX_CIPHER_PATH {
        return Err(NameBudget);
      }
      if i < |segs| - 1 {
        var row := raw.GetByPath(ct);
        if row.Err? {
          return Err(row.error);
        }
        if !raw.rows[row.value].isDir {
          return Err(NotDir);
        }
        parent := raw.rows[row.value];
      } else {
        assert segs[i + 1..] == [];
        return Ok(ct);
      }
      cur := ct;
    }
    assert segs[|segs|..] == [];
    return Ok(if ct == "" then "/" else ct);
  }

  /** cipherPath. */
  method ResolvePath(raw: Store, c: Cipher, scheme: int, p: string) returns (r: Result<string>)
    requires raw.Valid()
    ensures r == NameTranslation.CipherPath(c, raw.rows, scheme, p)
  {
    hide Tree, Walk, Canonical, Normalize;
    var np := NormalizePath(p);
    if np.Err? {
      return Err(np.error);
    }
    if np.value == "/" {
      return Ok("/");
    }
    if scheme != NCGOFN1 {
      return Ok(np.value);
    }
    NormalizeCanonical(p);
    SegmentsCanonical(np.value);
    RootCanonical();
    TreeUnique(raw.rows);
    var root := raw.GetByPath("/");
    if root.Err? {
      return Err(NotFound);
    }
    r := WalkSegments(raw, c, raw.rows[root.value], "/", Segments(np.value));
  }

  /** CipherPathUnder. */
  method ResolvePathUnder(raw: Store, c: Cipher, anchor: Row, anchorPath: string,
                          rel: string)
    returns (r: Result<string>)
    requires raw.Valid()
    ensures r == AnchoredNames.CipherPathUnder(c, raw.rows, anchor, anchorPath, rel)
  {
    hide Tree, Walk, Canonical, Normalize;
    var base := NormalizePath(anchorPath);
    if base.Err? {
      return Err(base.error);
    }
    var rl := NormalizePath(rel);
    if rl.Err? {
      return Err(rl.error);
    }
    if rl.value == "/" {
      return Ok(base.value);
    }
    NormalizeCanonical(anchorPath);
    NormalizeCanonical(rel);
    SegmentsCanonical(rl.value);
    r := WalkSegments(raw, c, anchor, base.value, Segments(rl.value));
  }

  /** plainPathOf: up the parent chain, without the per-call cache. */
  method ReadPlainPath(raw: Store, c: Cipher, x: Id) returns (r: Result<string>)
    requires raw.Valid() && x in raw.rows
    ensures r == DecryptedPath(c, raw.rows, x)
    decreases |raw.rows[x].path|
  {
    var row := raw.rows[x];
    if row.parent.None? {
      return Ok("/");
    }
    PathShape'(raw.rows, x);
    var pp := ReadPlainPath(raw, c, row.parent.value);
    if pp.Err? {
      return pp;
    }
    var name := row.name;
    if row.scheme == NCGOFN1 {
      var n := DecryptSegment(c, raw.rows[row.parent.value], row.name);
      if n.Err? {
        return Err(n.error);
      }
      name := n.value;
    }
    return Ok(Join(pp.value, name));
  }

  /** decryptRow on the stored row `x`. */
  method ReadPlainRow(raw: Store, c: Cipher, x: Id) returns (r: Result<Row>)
    requires raw.Valid() && x in raw.rows
    ensures r == NameTranslation.DecryptRow(c, raw.rows, x)
  {
    var f := raw.rows[x];
    if f.scheme != NCGOFN1 {
      return Ok(f);
    }
    if f.parent.None? {
      return Ok(f.(name := "", path := "/"));
    }
    PathShape'(raw.rows, x);
    var pp := ReadPlainPath(raw, c, f.parent.value);
    if pp.Err? {
      return Err(pp.error);
    }
    var name := DecryptSegment(c, raw.rows[f.parent.value], f.name);
    if name.Err? {
      return Err(name.error);
    }
    return Ok(f.(name := name.value, path := Join(pp.value, name.value)));
  }

  // ---------- DecryptUnderAnchor ----------

  /** The rows the walks of one call have read, by path: the anchor given by the caller, and stored rows. */
  ghost predicate Cached(t: Table, base: string, anchor: Row, parents: map<string, Row>) {
    && base in parents && parents[base] == anchor
    && forall p :: p in parents && p != base ==> Lookup(t, p).Some? && t[Lookup(t, p).value] == parents[p]
  }

  /** DecryptUnderAnchor on rows of the store: each row under the mount, or the error of the first that has none. */
  method DecryptUnderAnchor(raw: Store, c: Cipher, anchor: Row, anchorPath: string, mountPath: string, rows: seq<Row>)
    returns (r: Result<seq<Row>>)
    requires raw.Valid() && forall i :: 0 <= i < |rows| ==> Canonical(rows[i].path)
    ensures Normalize(anchorPath).Err? || Normalize(mountPath).Err? ==> r == Err(InvalidPath)
    ensures Normalize(anchorPath).Ok? && Normalize(mountPath).Ok? ==>
      var base, mount := Normalize(anchorPath).value, Normalize(mountPath).value;
      && (r.Ok? ==> |r.value| == |rows| && forall i :: 0 <= i < |rows| ==>
                      DecryptUnder(c, raw.rows, anchor, base, mount, rows[i]) == Ok(r.value[i]))
      && (r.Err? ==> exists i :: 0 <= i < |rows|
                                 && DecryptUnder(c, raw.rows, anchor, base, mount, rows[i]) == Err(r.error)
                                 && forall j :: 0 <= j < i ==>
                                      DecryptUnder(c, raw.rows, anchor, base, mount, rows[j]).Ok?)
  {
    hide Tree, Canonical, Normalize, DecryptUnder, Cached;
    var nb := NormalizePath(anchorPath);
    NormalizeErrors(anchorPath);
    NormalizeErrors(mountPath);
    if nb.Err? {
      return Err(nb.error);
    }
    var nm := NormalizePath(mountPath);
    if nm.Err? {
      return Err(nm.error);
    }
    NormalizeCanonical(anchorPath);
    NormalizeCanonical(mountPath);
    var base, mount := nb.value, nm.value;
    var parents := map[base := anchor];
    assert Cached(raw.rows, base, anchor, parents) by { OnlyAnchor(raw.rows, base, anchor); }
    var out: seq<Row> := [];
    for i := 0 to |rows|
      invariant Cached(raw.rows, base, anchor, parents)
      invariant |out| == i
      invariant forall j :: 0 <= j < i ==> DecryptUnder(c, raw.rows, anchor, base, mount, rows[j]) == Ok(out[j])
    {
      var row;
      row, parents := DecryptUnderRow(raw, c, anchor, base, mount, rows[i], parents);
      if row.Err? {
        return Err(row.error);
      }
      out := out + [row.value];
    }
    return Ok(out);
  }

  lemma OnlyAnchor(t: Table, base: string, anchor: Row)
    ensures Cached(t, base, anchor, map[base := anchor])
  {
  }

  /** One turn of the loop. */
  method DecryptUnderRow(raw: Store, c: Cipher, anchor: Row, base: string, mount: string, row: Row,
                         parents0: map<string, Row>)
    returns (r: Result<Row>, parents: map<string, Row>)
    requires raw.Valid() && Canonical(base) && Canonical(mount) && Canonical(row.path)
    requires Cached(raw.rows, base, anchor, parents0)
    ensures r == DecryptUnder(c, raw.rows, anchor, base, mount, row)
    ensures Cached(raw.rows, base, anchor, parents)
  {
    hide Tree, Canonical, AnchorWalk, Cached, Split, Base;
    parents := parents0;
    if row.path == base {
      return Ok(row.(name := Base(mount), path := mount)), parents;
    }
    var prefix := if base == "/" then base else base + "/";
    if !HasPrefix(row.path, prefix) {
      return Err(Invalid), parents;
    }
    var toks := Split(row.path[|prefix|..]);
    RelativeTokens(row.path, base);
    var plain;
    plain, parents := DecryptTokens(raw, c, anchor, base, mount, toks, parents);
    if plain.Err? {
      return Err(plain.error), parents;
    }
    return Ok(row.(name := Base(plain.value), path := plain.value)), parents;
  }

  /** The loop over the tokens, with the plaintext under the mount. */
  method DecryptTokens(raw: Store, c: Cipher, anchor: Row, base: string, mount: string, toks: seq<string>,
                       parents0: map<string, Row>)
    returns (r: Result<string>, parents: map<string, Row>)
    requires raw.Valid() && Canonical(base) && Canonical(mount) && ValidNames(toks) && toks != []
    requires Cached(raw.rows, base, anchor, parents0)
    ensures r == AnchorWalk(c, raw.rows, anchor, base, mount, toks)
    ensures Cached(raw.rows, base, anchor, parents)
  {
    hide Tree, Canonical, Join, ValidName, Normalize;
    parents := parents0;
    TreeUnique(raw.rows);
    var parent, ct, plain := anchor, base, mount;
    for i := 0 to |toks|
      invariant Cached(raw.rows, base, anchor, parents) && Canonical(ct) && |ct| >= |base| && (i > 0 ==> ct != base)
      invariant AnchorWalk(c, raw.rows, anchor, base, mount, toks) ==
                AnchorWalk(c, raw.rows, parent, ct, plain, toks[i..])
    {
      assert toks[i..][0] == toks[i] && toks[i..][1..] == toks[i + 1..];
      var name := DecryptSegment(c, parent, toks[i]);
      if name.Err? {
        return Err(name.error), parents;
      }
      assert ValidName(toks[i]);
      ExtendCanonical(ct, toks[i]);
      LongerPath(ct, toks[i], base);
      plain := Join(plain, name.value);
      ct := Join(ct, toks[i]);
      if i < |toks| - 1 {
        if ct in parents {
          parent := parents[ct];
        } else {
          var x := raw.GetByPath(ct);
          if x.Err? {
            return Err(x.error), parents;
          }
          parent := raw.rows[x.value];
          parents := parents[ct := parent];
        }
      }
    }
    assert toks[|toks|..] == [];
    return Ok(plain), parents;
  }

  lemma LongerPath(ct: string, tok: string, base: string)
    requires |ct| >= |base| && ct != "" && ValidName(tok)
    ensures |Join(ct, tok)| >= |base| && Join(ct, tok) != base
  {
  }

  /** The tokens behind the anchor's path are names. */
  lemma RelativeTokens(p: string, base: string)
    requires Canonical(p) && Canonical(base) && p != base && HasPrefix(p, Prefix(base))
    ensures ValidNames(Split(p[|Prefix(base)|..]))
  {
    hide Split, Canonical;
    CanonicalIff(p);
    var pre := Prefix(base);
    var rel := p[|pre|..];
    SplitPieces(rel, '/');
    SplitPieces(rel, '\\');
    SplitPieces(rel, '\0');
    if base != "/" {
      assert p[1..] == base[1..] + "/" + rel by {
        SegmentsCanonical(base);
        assert p == base + "/" + rel;
      }
      SplitConcat(base[1..], rel);
    } else {
      assert p[1..] == rel;
    }
    forall i | 0 <= i < |Split(rel)|
      ensures ValidName(Split(rel)[i])
    {
      assert Split(rel)[i] in Split(p[1..]);
    }
  }

  class TranslatingStore {
    const raw: Store
    const c: Cipher
    var scheme: int

    constructor (raw: Store, c: Cipher, scheme: int)
      ensures this.raw == raw && this.c == c && this.scheme == scheme
    {
      this.raw, this.c, this.scheme := raw, c, scheme;
    }

    method GetByPath(p: string) returns (r: Result<(Id, Row)>)
      requires raw.Valid()
      ensures r == Refinement.Get(c, raw.rows, scheme, p)
      ensures scheme == NCGOFN1 && Sealed(c, raw.rows) && WithinBudget(c, raw.rows) && Normalize(p).Ok? ==>
        var seen := Lookup(View(c, raw.rows), Normalize(p).value);
        (seen.None? ==> r.Err?) && (seen.Some? ==> r == Ok((seen.value, View(c, raw.rows)[seen.value])))
      ensures scheme != NCGOFN1 && Normalize(p).Ok? ==>
        var seen := Lookup(raw.rows, Normalize(p).value);
        && (seen.None? ==> r == Err(NotFound))
        && (seen.Some? && raw.rows[seen.value].scheme != NCGOFN1 ==> r == Ok((seen.value, raw.rows[seen.value])))
    {
      hide Tree, Walk, Normalize, Canonical, Sealed, View, WithinBudget;
      if scheme != NCGOFN1 {
        MoveRefinement.PlainGet(c, raw.rows, scheme, p);
      }
      if scheme == NCGOFN1 && Sealed(c, raw.rows) && WithinBudget(c, raw.rows) {
        Refinement.GetRefines(c, raw.rows, p);
      }
      var cp := ResolvePath(raw, c, scheme, p);
      if cp.Err? {
        return Err(cp.error);
      }
      CipherPathCanonical(c, raw.rows, scheme, p);
      TreeUnique(raw.rows);
      var x := raw.GetByPath(cp.value);
      if x.Err? {
        return Err(x.error);
      }
      var row := ReadPlainRow(raw, c, x.value);
      if row.Err? {
        return Err(row.error);
      }
      return Ok((x.value, row.value));
    }

    /** cipherParent. */
    method CipherParent(np: string) returns (r: Result<Id>)
      requires raw.Valid() && scheme == NCGOFN1
      ensures r == Refinement.CipherParent(c, raw.rows, np)
    {
      hide Tree, Walk, Normalize, Canonical;
      var cp := ResolvePath(raw, c, scheme, Dir(np));
      if cp.Err? {
        return if cp.error == NotFound then Err(ParentMissing) else Err(cp.error);
      }
      CipherPathCanonical(c, raw.rows, scheme, Dir(np));
      TreeUnique(raw.rows);
      var x := raw.GetByPath(cp.value);
      if x.Err? {
        return Err(ParentMissing);
      }
      if !raw.rows[x.value].isDir {
        return Err(NotDir);
      }
      return Ok(x.value);
    }

    /** cipherSegment and joinTokenPath. */
    method TokenPath(d: Id, name: string) returns (r: Result<string>)
      requires d in raw.rows
      ensures r == Refinement.TokenPath(c, raw.rows, d, name)
    {
      var tok := CipherSegment(c, raw.rows[d], name);
      if tok.Err? {
        return Err(tok.error);
      }
      var ct := Join(raw.rows[d].path, tok.value);
      return if |ct| > MAX_CIPHER_PATH then Err(NameBudget) else Ok(ct);
    }

    method DeleteSubtree(p: string) returns (r: Result<()>)
      requires raw.Valid()
      modifies raw
      ensures raw.Valid()
      ensures scheme == NCGOFN1 ==>
        var d := MoveRefinement.Delete(c, old(raw.rows), p);
        if d.Ok? then r == Ok(()) && raw.rows == d.value else r == Err(d.error) && raw.rows == old(raw.rows)
      ensures scheme != NCGOFN1 && Normalize(p).Err? ==> r == Err(InvalidPath) && raw.rows == old(raw.rows)
      ensures scheme != NCGOFN1 && Normalize(p).Ok? ==>
        var d := DeleteFrom(old(raw.rows), Normalize(p).value);
        if d.Ok? then r == Ok(()) && raw.rows == d.value else r == Err(d.error) && raw.rows == old(raw.rows)
      ensures old(scheme == NCGOFN1 && Sealed(c, raw.rows)) && r.Ok? ==>
        && Normalize(p).Ok? && Tree(View(c, old(raw.rows))) && Sealed(c, raw.rows)
        && DeleteFrom(View(c, old(raw.rows)), Normalize(p).value) == Ok(View(c, raw.rows))
    {
      hide Tree, Walk, Normalize, Canonical, DeleteFrom, Sealed, View;
      if scheme == NCGOFN1 && Sealed(c, raw.rows) && MoveRefinement.Delete(c, raw.rows, p).Ok? {
        MoveRefinement.DeleteSound(c, raw.rows, p);
      }
      NormalizeErrors(p);
      var cp := ResolvePath(raw, c, scheme, p);
      if cp.Err? {
        return Err(cp.error);
      }
      CipherPathCanonical(c, raw.rows, scheme, p);
      r := raw.DeleteSubtree(cp.value);
    }

    method RenameSubtree(srcPath: string, dstPath: string, now: int, fold: char -> char) returns (r: Result<()>)
      requires raw.Valid()
      modifies raw
      ensures Normalize(srcPath).Err? || Normalize(dstPath).Err? ==> r == Err(InvalidPath) && raw.rows == old(raw.rows)
      ensures Normalize(srcPath).Ok? && Normalize(dstPath).Ok? ==>
        var src, dst := Normalize(srcPath).value, Normalize(dstPath).value;
        var d := if scheme == NCGOFN1 then MoveRefinement.Rename(c, old(raw.rows), src, dst, now)
                 else RenameIn(old(raw.rows), src, dst, now);
        if d.Ok? then r == Ok(()) && raw.rows == d.value else r == Err(d.error) && raw.rows == old(raw.rows)
      ensures old(scheme == NCGOFN1 && Sealed(c, raw.rows)) && r.Ok? ==>
        var src, dst := Normalize(srcPath).value, Normalize(dstPath).value;
        && (Sealed(c, raw.rows) <==> !Below(dst, src))
        && (!Below(dst, src) ==> RenameIn(View(c, old(raw.rows)), src, dst, now) == Ok(View(c, raw.rows)))
    {
      hide Tree, Walk, Normalize, Canonical, RenameIn, Sealed, View, Below;
      var ns := NormalizePath(srcPath);
      var nd := NormalizePath(dstPath);
      NormalizeErrors(srcPath);
      NormalizeErrors(dstPath);
      if ns.Err? || nd.Err? {
        return Err(InvalidPath);
      }
      var src, dst := ns.value, nd.value;
      NormalizeCanonical(srcPath);
      NormalizeCanonical(dstPath);
      NormalizeCanonical(src);
      NormalizeCanonical(dst);
      if scheme == NCGOFN1 && Sealed(c, raw.rows) {
        RenameMeaning(c, raw.rows, src, dst, now);
      }
      if src == "/" || dst == "/" || scheme != NCGOFN1 {
        r := raw.RenameSubtree(src, dst, now, fold);
        return;
      }
      var ctSrc := ResolvePath(raw, c, scheme, src);
      if ctSrc.Err? {
        return Err(ctSrc.error);
      }
      var d := CipherParent(dst);
      if d.Err? {
        return Err(d.error);
      }
      var ctDst := TokenPath(d.value, Base(dst));
      if ctDst.Err? {
        return Err(ctDst.error);
      }
      CipherPathCanonical(c, raw.rows, scheme, src);
      CanonicalNonRoot(dst);
      Refinement.NamesNotEmpty(dst);
      TokenPathCanonical(c, raw.rows, d.value, Base(dst));
      r := raw.RenameSubtree(ctSrc.value, ctDst.value, now, fold);
    }

    method Insert(f: Row, id: Id) returns (r: Result<Id>)
      requires raw.Valid() && id != 0 && id !in raw.rows
      modifies raw
      ensures Normalize(f.path).Err? ==> r == Err(InvalidPath) && raw.rows == old(raw.rows)
      ensures Normalize(f.path).Ok? ==>
        var np := Normalize(f.path).value;
        var d := if scheme == NCGOFN1 then Refinement.Insert(c, old(raw.rows), id, f, np)
                 else InsertInto(old(raw.rows), id, f, np);
        if d.Ok? then r == Ok(id) && raw.rows == d.value else r == Err(d.error) && raw.rows == old(raw.rows)
      ensures old(scheme == NCGOFN1 && Sealed(c, raw.rows)) && r.Ok? ==>
        var np := Normalize(f.path).value;
        WellFormed(f, np) ==>
          && Sealed(c, raw.rows)
          && InsertInto(View(c, old(raw.rows)), id, f.(scheme := NCGOFN1), np) == Ok(View(c, raw.rows))
    {
      hide Tree, Normalize, Canonical, RowToInsert, Base, Sealed, View, Refinement.CipherParent,
           Refinement.TokenPath, InsertInto;
      NormalizeErrors(f.path);
      var n := NormalizePath(f.path);
      if n.Err? {
        return Err(InvalidPath);
      }
      NormalizeCanonical(f.path);
      if scheme == NCGOFN1 && Sealed(c, raw.rows) {
        InsertMeaning(c, raw.rows, id, f, n.value);
      }
      if n.value == "/" || scheme != NCGOFN1 {
        RootInsert(c, raw.rows, id, f);
        r := raw.Insert(f, id);
      } else {
        r := InsertToken(f, n.value, id);
      }
    }

    /** The part of Insert for a scheme-1 user. */
    method InsertToken(f: Row, np: string, id: Id) returns (r: Result<Id>)
      requires raw.Valid() && id != 0 && id !in raw.rows && scheme == NCGOFN1 && Canonical(np) && np != "/"
      modifies raw
      ensures var d := Refinement.Insert(c, old(raw.rows), id, f, np);
              if d.Ok? then r == Ok(id) && raw.rows == d.value else r == Err(d.error) && raw.rows == old(raw.rows)
    {
      hide Tree, Walk, Normalize, Canonical, RowToInsert, InsertGuard, ValidName, Join, Base;
      var d := CipherParent(np);
      if d.Err? {
        return Err(d.error);
      }
      var name := if f.name == "" then Base(np) else f.name;
      var ct := TokenPath(d.value, name);
      if ct.Err? {
        return Err(ct.error);
      }
      CanonicalNonRoot(np);
      Refinement.NamesNotEmpty(np);
      TokenPathCanonical(c, raw.rows, d.value, name);
      var g := f.(name := c.enc(raw.rows[d.value].key.value, name), scheme := NCGOFN1, path := ct.value);
      SamePathIgnored(raw.rows, f.(name := g.name, scheme := NCGOFN1), g, ct.value);
      r := raw.Insert(g, id);
    }

    /** UpdateMeta: the caller's plaintext row is turned back into its stored form by reCipherRow. */
    method UpdateMeta(x: Id, f: Row) returns (r: Result<()>)
      modifies raw
      ensures var d := MoveRefinement.Update(c, old(raw.rows), x, f);
              if d.Ok? then r == Ok(()) && raw.rows == d.value else r == Err(d.error) && raw.rows == old(raw.rows)
      ensures old(Sealed(c, raw.rows)) && r.Ok? && x in old(raw.rows) && WriteBack(View(c, old(raw.rows))[x], f) ==>
        Sealed(c, raw.rows) && View(c, raw.rows) == View(c, old(raw.rows))[x := f]
      ensures old(Tree(raw.rows)) && x in old(raw.rows) && PlainBack(old(raw.rows)[x], f) ==>
        r == Ok(()) && raw.rows == old(raw.rows)[x := f]
    {
      hide Normalize, MetaFits, Base, ValidName, Join, MoveRefinement.ReCipher, Sealed, View, Tree,
           MoveRefinement.Update;
      UpdateSteps(c, raw.rows, x, f);
      if Tree(raw.rows) && x in raw.rows && PlainBack(raw.rows[x], f) {
        MoveRefinement.PlainWriteBack(c, raw.rows, x, f);
      }
      if Sealed(c, raw.rows) && x in raw.rows && WriteBack(View(c, raw.rows)[x], f) {
        Refinement.ViewRow(c, raw.rows, x);
        MoveRefinement.UpdateRefines(c, raw.rows, x, f.size, f.mtime, f.key);
      }
      if x == 0 {
        return Err(Invalid);
      }
      var g := ReCipherRow(f);
      if g.Err? {
        return Err(g.error);
      }
      var ok := raw.UpdateMeta(x, g.value);
      return if ok then Ok(()) else Err(Conflict);
    }

    /** reCipherRow. */
    method ReCipherRow(f: Row) returns (r: Result<Row>)
      ensures r == MoveRefinement.ReCipher(c, raw.rows, f)
    {
      hide Normalize, Base, ValidName, Join;
      var np := NormalizePath(f.path);
      if np.Err? {
        return Err(np.error);
      }
      if np.value == "/" || f.scheme != NCGOFN1 {
        return Ok(f);
      }
      if f.parent.None? {
        return Err(Invalid);
      }
      if f.parent.value !in raw.rows {
        return Err(NotFound);
      }
      var name := if f.name == "" then Base(np.value) else f.name;
      var ct := TokenPath(f.parent.value, name);
      if ct.Err? {
        return Err(ct.error);
      }
      return Ok(f.(name := c.enc(raw.rows[f.parent.value].key.value, name), path := ct.value));
    }
  }

  /** `f` is a stored scheme-0 row with another size, time or key. */
  predicate PlainBack(r: Row, f: Row) {
    f.scheme != NCGOFN1 && f == r.(size := f.size, mtime := f.mtime, key := f.key)
  }

  /** Update in the order the method takes. */
  lemma UpdateSteps(c: Cipher, t: Table, x: Id, f: Row)
    ensures x == 0 ==> MoveRefinement.Update(c, t, x, f) == Err(Invalid)
    ensures x != 0 ==>
      var g := MoveRefinement.ReCipher(c, t, f);
      MoveRefinement.Update(c, t, x, f) ==
        if g.Err? then Err(g.error) else if x !in t then Ok(t)
        else if MetaFits(t, x, g.value) then Ok(t[x := g.value.(scheme := t[x].scheme)]) else Err(Conflict)
  {
    hide MetaFits, MoveRefinement.ReCipher;
  }

  /** `f` is a row as it was read, with another size, time or, for a file, key. */
  predicate WriteBack(r: Row, f: Row) {
    f == r.(size := f.size, mtime := f.mtime, key := f.key) && (r.isDir ==> f.key == r.key)
  }

  lemma RenameMeaning(c: Cipher, t: Table, src: string, dst: string, now: int)
    requires Sealed(c, t) && Canonical(src) && Canonical(dst)
    ensures MoveRefinement.Rename(c, t, src, dst, now).Ok? ==>
      var u := MoveRefinement.Rename(c, t, src, dst, now).value;
      && (Sealed(c, u) <==> !Below(dst, src))
      && (!Below(dst, src) ==> RenameIn(View(c, t), src, dst, now) == Ok(View(c, u)))
  {
    hide Sealed, View, Below, Canonical, MoveRefinement.Rename;
    if MoveRefinement.Rename(c, t, src, dst, now).Ok? {
      MoveRefinement.RenameExact(c, t, src, dst, now);
      if !Below(dst, src) {
        MoveRefinement.RenameRefines(c, t, src, dst, now);
      }
    }
  }

  /** The root is never encrypted. */
  lemma RootInsert(c: Cipher, t: Table, id: Id, f: Row)
    ensures Refinement.Insert(c, t, id, f, "/") == InsertInto(t, id, f, "/")
  {
    hide RowToInsert;
  }


  /** A row as the callers build it: named as its path, and a directory brings its key. */
  predicate WellFormed(f: Row, np: string) {
    np != "/" && (f.name == "" || f.name == Base(np)) && (f.isDir ==> f.key.Some?)
  }

  lemma InsertMeaning(c: Cipher, t: Table, id: Id, f: Row, np: string)
    requires Sealed(c, t) && Canonical(np) && id != 0 && id !in t
    ensures WellFormed(f, np) && Refinement.Insert(c, t, id, f, np).Ok? ==>
      var u := Refinement.Insert(c, t, id, f, np).value;
      Sealed(c, u) && InsertInto(View(c, t), id, f.(scheme := NCGOFN1), np) == Ok(View(c, u))
  {
    hide Sealed, View, Canonical, Base, Refinement.Insert;
    if WellFormed(f, np) && Refinement.Insert(c, t, id, f, np).Ok? {
      Refinement.InsertSound(c, t, id, f, np);
    }
  }

  /** InsertedRow overwrites the path, so the caller's path field does not matter. */
  lemma SamePathIgnored(t: Table, f: Row, g: Row, ct: string)
    requires g == f.(path := g.path)
    ensures RowToInsert(t, f, ct) == RowToInsert(t, g, ct)
  {
  }

  lemma NormalizeErrors(p: string)
    ensures Normalize(p).Err? ==> Normalize(p) == Err(InvalidPath)
  {
  }

  /** cipherPath returns canonical paths. */
  lemma CipherPathCanonical(c: Cipher, t: Table, scheme: int, p: string)
    requires NameTranslation.CipherPath(c, t, scheme, p).Ok?
    ensures var cp := NameTranslation.CipherPath(c, t, scheme, p).value; Canonical(cp) && Normalize(cp) == Ok(cp)
  {
    var np := Normalize(p).value;
    NormalizeCanonical(p);
    NormalizeCanonical(np);
    SegmentsCanonical(np);
    if np != "/" && scheme == NCGOFN1 {
      var toks := WalkRoundTrip(c, t, t[Lookup(t, "/").value], "/", "/", Segments(np));
      assert Canonical(Render(toks));
      NormalizeCanonical(Render(toks));
    }
  }

  lemma TokenPathCanonical(c: Cipher, t: Table, d: Id, name: string)
    requires Tree(t) && d in t && name != "" && Refinement.TokenPath(c, t, d, name).Ok?
    ensures var ct := Refinement.TokenPath(c, t, d, name).value; Canonical(ct) && Normalize(ct) == Ok(ct)
  {
    Refinement.StoredCanonical(t, d);
    var tok := c.enc(t[d].key.value, name);
    assert ValidName(tok);
    ExtendCanonical(t[d].path, tok);
  }

  /** PlainPath: each token decrypted under the folder found at the ciphertext prefix. */
  method ReadPath(raw: Store, c: Cipher, scheme: int, p: string) returns (r: Result<string>)
    requires raw.Valid()
    ensures r == PlainPath(c, raw.rows, scheme, p)
  {
    hide Tree, PlainWalk, Canonical, Normalize;
    var np := NormalizePath(p);
    if np.Err? {
      return Err(np.error);
    }
    if np.value == "/" {
      return Ok("/");
    }
    if scheme != NCGOFN1 {
      return Ok(np.value);
    }
    NormalizeCanonical(p);
    SegmentsCanonical(np.value);
    RootCanonical();
    TreeUnique(raw.rows);
    var root := raw.GetByPath("/");
    if root.Err? {
      return Err(NotFound);
    }
    r := ReadTokens(raw, c, raw.rows[root.value], Segments(np.value));
  }

  method ReadTokens(raw: Store, c: Cipher, root: Row, toks: seq<string>) returns (r: Result<string>)
    requires raw.Valid() && ValidNames(toks)
    ensures r == PlainWalk(c, raw.rows, root, "/", "/", toks)
  {
    hide Tree, Canonical, Normalize;
    TreeUnique(raw.rows);
    RootCanonical();
    var parent := root;
    var ct, plain := "", "";
    ghost var cur, out := "/", "/";
    for i := 0 to |toks|
      invariant ct == if i == 0 then "" else cur
      invariant plain == if i == 0 then "" else out
      invariant i == 0 ==> cur == "/" && out == "/"
      invariant i > 0 ==> cur != "/" && out != "/" && out != ""
      invariant Canonical(cur)
      invariant PlainWalk(c, raw.rows, root, "/", "/", toks) == PlainWalk(c, raw.rows, parent, cur, out, toks[i..])
    {
      assert toks[i..][0] == toks[i] && toks[i..][1..] == toks[i + 1..];
      var seg := DecryptSegment(c, parent, toks[i]);
      if seg.Err? {
        return Err(seg.error);
      }
      assert ValidName(toks[i]);
      ExtendCanonical(cur, toks[i]);
      plain := plain + "/" + seg.value;
      ct := ct + "/" + toks[i];
      assert seg.value != "";
      assert ct == Join(cur, toks[i]) && plain == Join(out, seg.value) && plain != "/";
      if i < |toks| - 1 {
        var row := raw.GetByPath(ct);
        if row.Err? {
          return Err(row.error);
        }
        if !raw.rows[row.value].isDir {
          return Err(NotDir);
        }
        parent := raw.rows[row.value];
      } else {
        assert toks[i + 1..] == [];
        return Ok(plain);
      }
      cur, out := ct, plain;
    }
    assert toks[|toks|..] == [];
    return Ok(if plain == "" then "/" else plain);
  }
}
