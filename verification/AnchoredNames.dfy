/** Name resolution that starts at a share root instead of the owner's root
    (internal/files/nametranslate.go:643-755). */
module AnchoredNames {
  import opened Common
  import opened Paths
  import opened Filecache
  import opened NameTranslation
  import opened Refinement

  /** CipherPathUnder. */
  ghost function CipherPathUnder(c: Cipher, t: Table, anchor: Row, anchorPath: string, rel: string): Result<string> {
    var base :- Normalize(anchorPath);
    var r :- Normalize(rel);
    if r == "/" then Ok(base) else Walk(c, t, anchor, base, Segments(r))
  }

  /** A walk over a concatenation is a walk to the row in the middle and a walk from there. */
  lemma {:induction false} WalkSplit(c: Cipher, t: Table, parent: Row, at: string, a: seq<string>, b: seq<string>,
                                     x: Id)
    requires a != [] && b != [] && Walk(c, t, parent, at, a).Ok?
    requires Lookup(t, Walk(c, t, parent, at, a).value) == Some(x) && t[x].isDir
    ensures Walk(c, t, parent, at, a + b) == Walk(c, t, t[x], Walk(c, t, parent, at, a).value, b)
    decreases |a|
  {
    assert (a + b)[0] == a[0] && (a + b)[1..] == a[1..] + b;
    var ct := Join(at, CipherSegment(c, parent, a[0]).value);
    if |a| == 1 {
      assert a[1..] + b == b;
    } else {
      var y := Lookup(t, ct).value;
      WalkSplit(c, t, t[y], ct, a[1..], b, x);
    }
  }

  lemma {:induction false} WalkFailsEarly(c: Cipher, t: Table, parent: Row, at: string, a: seq<string>, b: seq<string>)
    requires a != [] && Walk(c, t, parent, at, a).Err?
    ensures Walk(c, t, parent, at, a + b) == Walk(c, t, parent, at, a)
    decreases |a|
  {
    assert (a + b)[0] == a[0] && (a + b)[1..] == a[1..] + b;
    if CipherSegment(c, parent, a[0]).Ok? {
      var ct := Join(at, CipherSegment(c, parent, a[0]).value);
      if |a| > 1 && Lookup(t, ct).Some? && t[Lookup(t, ct).value].isDir {
        WalkFailsEarly(c, t, t[Lookup(t, ct).value], ct, a[1..], b);
      }
    }
  }

  /** The plaintext path of a row below the anchor. */
  ghost function OwnerPath(anchorPlain: string, rel: string): string
    requires Normalize(rel).Ok?
  {
    JoinAll(anchorPlain, Segments(Normalize(rel).value))
  }

  lemma OwnerPathSegments(anchorPlain: string, rel: string)
    requires Canonical(anchorPlain) && Normalize(rel).Ok?
    ensures Canonical(OwnerPath(anchorPlain, rel))
    ensures Segments(OwnerPath(anchorPlain, rel)) == Segments(anchorPlain) + Segments(Normalize(rel).value)
  {
    var a, b := Segments(anchorPlain), Segments(Normalize(rel).value);
    NormalizeCanonical(rel);
    SegmentsCanonical(anchorPlain);
    SegmentsCanonical(Normalize(rel).value);
    JoinAllConcat("/", a, b);
    assert ValidNames(a + b) && OwnerPath(anchorPlain, rel) == Render(a + b);
    SegmentsOfRender(a + b);
  }

  /** Anchored resolution against the walk from the owner's root: whenever the root walk reaches the anchor
      at all, both give the same answer, errors included; otherwise the root walk fails as it does there. */
  lemma AnchoredAgrees(c: Cipher, t: Table, a: Id, rel: string)
    requires Sealed(c, t) && a in t && t[a].parent.Some? && t[a].isDir && Normalize(rel).Ok?
    ensures var plain := PlainPathOf(c, t, a);
            CipherPath(c, t, NCGOFN1, OwnerPath(plain, rel)) ==
              if CipherPath(c, t, NCGOFN1, plain).Ok? then CipherPathUnder(c, t, t[a], t[a].path, rel)
              else CipherPath(c, t, NCGOFN1, plain)
  {
    var plain := PlainPathOf(c, t, a);
    SealedTree(c, t);
    AnchorPaths(c, t, a, rel);
    LookupStored(t, a);
    UnderIs(c, t, a, rel);
    AnchoredWalks(c, t, a, Segments(plain), Segments(Normalize(rel).value));
    hide Walk, Sealed, Tree, Normalize, PlainPathOf, Lookup, Segments, UniquePaths, CipherPath, OwnerPath,
         CipherPathUnder;
  }

  lemma AnchorPaths(c: Cipher, t: Table, a: Id, rel: string)
    requires Sealed(c, t) && a in t && t[a].parent.Some? && t[a].isDir && Normalize(rel).Ok?
    ensures var plain := PlainPathOf(c, t, a);
            var sa, sb := Segments(plain), Segments(Normalize(rel).value);
            && sa != []
            && (CipherPath(c, t, NCGOFN1, plain).Ok? ==> CipherPath(c, t, NCGOFN1, plain) == Ok(t[a].path))
            && (Lookup(t, "/").None? ==> CipherPath(c, t, NCGOFN1, plain) == Err(NotFound))
            && (Lookup(t, "/").None? ==> CipherPath(c, t, NCGOFN1, OwnerPath(plain, rel)) == Err(NotFound))
            && (Lookup(t, "/").Some? ==>
              CipherPath(c, t, NCGOFN1, plain) == Walk(c, t, t[Lookup(t, "/").value], "/", sa))
            && (Lookup(t, "/").Some? ==>
                  CipherPath(c, t, NCGOFN1, OwnerPath(plain, rel)) == Walk(c, t, t[Lookup(t, "/").value], "/", sa + sb))
  {
    hide Walk, Sealed, Canonical, Normalize, PlainPathOf, Segments, CipherPath, OwnerPath, JoinAll, ValidNames, Lookup;
    var plain := PlainPathOf(c, t, a);
    PlainCanonical(c, t, a);
    PlainShape(c, t, a);
    OwnerPathSegments(plain, rel);
    OwnerPathNotRoot(plain, rel);
    CipherPathIs(c, t, OwnerPath(plain, rel));
    CipherPathIs(c, t, plain);
    NormalizeCanonical(plain);
    SegmentsCanonical(plain);
    if CipherPath(c, t, NCGOFN1, plain).Ok? {
      ResolveAgrees(c, t, plain, a);
    }
  }

  lemma UnderIs(c: Cipher, t: Table, a: Id, rel: string)
    requires Tree(t) && a in t && Normalize(rel).Ok?
    ensures var segs := Segments(Normalize(rel).value);
            CipherPathUnder(c, t, t[a], t[a].path, rel) ==
              if segs == [] then Ok(t[a].path) else Walk(c, t, t[a], t[a].path, segs)
  {
    StoredCanonical(t, a);
    NormalizeCanonical(t[a].path);
    NormalizeCanonical(rel);
    SegmentsCanonical(Normalize(rel).value);
  }

  lemma PlainCanonical(c: Cipher, t: Table, x: Id)
    requires Sealed(c, t) && x in t
    ensures Canonical(PlainPathOf(c, t, x))
  {
    ViewIsTree(c, t);
    StoredCanonical(View(c, t), x);
    ViewRow(c, t, x);
  }

  lemma OwnerPathNotRoot(plain: string, rel: string)
    requires Canonical(plain) && plain != "/" && Normalize(rel).Ok?
    ensures OwnerPath(plain, rel) != "/"
  {
    OwnerPathSegments(plain, rel);
    SegmentsCanonical(plain);
  }

  /** cipherPath of a canonical non-root path is the segment walk from the root row. */
  lemma CipherPathIs(c: Cipher, t: Table, q: string)
    requires Canonical(q) && q != "/"
    ensures Lookup(t, "/").None? ==> CipherPath(c, t, NCGOFN1, q) == Err(NotFound)
    ensures Lookup(t, "/").Some? ==>
      CipherPath(c, t, NCGOFN1, q) == Walk(c, t, t[Lookup(t, "/").value], "/", Segments(q))
  {
    NormalizeCanonical(q);
  }

  lemma AnchoredWalks(c: Cipher, t: Table, a: Id, sa: seq<string>, sb: seq<string>)
    requires a in t && t[a].isDir && sa != [] && UniquePaths(t)
    requires Lookup(t, t[a].path) == Some(a)
    requires Lookup(t, "/").Some? && Walk(c, t, t[Lookup(t, "/").value], "/", sa).Ok? ==>
               Walk(c, t, t[Lookup(t, "/").value], "/", sa) == Ok(t[a].path)
    ensures Lookup(t, "/").Some? ==>
              var root := t[Lookup(t, "/").value];
              var full, head := Walk(c, t, root, "/", sa + sb), Walk(c, t, root, "/", sa);
              full == if head.Err? then head else if sb == [] then Ok(t[a].path) else Walk(c, t, t[a], t[a].path, sb)
  {
    if Lookup(t, "/").Some? {
      var root := Lookup(t, "/").value;
      if Walk(c, t, t[root], "/", sa).Err? {
        WalkFailsEarly(c, t, t[root], "/", sa, sb);
      } else if sb == [] {
        assert sa + sb == sa;
      } else {
        WalkSplit(c, t, t[root], "/", sa, sb, a);
      }
    }
  }

  /** Within budget the root walk reaches every anchor, so anchored resolution is root resolution. */
  lemma AnchoredEqualsRoot(c: Cipher, t: Table, a: Id, rel: string)
    requires Sealed(c, t) && WithinBudget(c, t) && a in t && t[a].parent.Some? && t[a].isDir && Normalize(rel).Ok?
    ensures CipherPathUnder(c, t, t[a], t[a].path, rel) ==
            CipherPath(c, t, NCGOFN1, OwnerPath(PlainPathOf(c, t, a), rel))
  {
    PlainCanonical(c, t, a);
    NormalizeCanonical(PlainPathOf(c, t, a));
    ResolveFinds(c, t, PlainPathOf(c, t, a), a);
    AnchoredAgrees(c, t, a, rel);
  }

  // ---------- what anchored resolution reads ----------

  /** Two tables that hold the same rows strictly below `at`. */
  ghost predicate SameBelow(t: Table, u: Table, at: string) {
    forall q :: Below(q, at) ==>
      Lookup(t, q) == Lookup(u, q) && (Lookup(t, q).Some? ==> t[Lookup(t, q).value] == u[Lookup(t, q).value])
  }

  lemma SameBelowDeeper(t: Table, u: Table, at: string, n: string)
    requires SameBelow(t, u, at) && at != "" && at != "/" && '/' !in n
    ensures SameBelow(t, u, Join(at, n)) && Below(Join(at, n), at)
  {
    var ct := Join(at, n);
    BelowJoin(at, n, at);
    forall q | Below(q, ct)
      ensures Below(q, at)
    {
      assert q[..|at| + 1] == q[..|ct| + 1][..|at| + 1] == at + "/";
    }
  }

  /** CipherPathUnder never reads a row at or above the anchor: its result depends on the anchor it was
      given and on the rows strictly below the anchor's path. */
  lemma {:induction false} WalkReadsBelow(c: Cipher, t: Table, u: Table, parent: Row, at: string, segs: seq<string>)
    requires at != "" && at != "/" && SameBelow(t, u, at) && ValidNames(segs)
    ensures Walk(c, t, parent, at, segs) == Walk(c, u, parent, at, segs)
    decreases |segs|
  {
    if segs != [] && CipherSegment(c, parent, segs[0]).Ok? {
      var tok := CipherSegment(c, parent, segs[0]).value;
      assert ValidName(tok);
      var ct := Join(at, tok);
      SameBelowDeeper(t, u, at, tok);
      assert Lookup(t, ct) == Lookup(u, ct);
      if |segs| > 1 && Lookup(t, ct).Some? {
        WalkReadsBelow(c, t, u, t[Lookup(t, ct).value], ct, segs[1..]);
      }
    }
  }

  lemma AnchoredReadsBelow(c: Cipher, t: Table, u: Table, anchor: Row, anchorPath: string, rel: string)
    requires Canonical(anchorPath) && anchorPath != "/" && SameBelow(t, u, anchorPath)
    ensures CipherPathUnder(c, t, anchor, anchorPath, rel) == CipherPathUnder(c, u, anchor, anchorPath, rel)
  {
    NormalizeCanonical(anchorPath);
    NormalizeCanonical(rel);
    SegmentsCanonical(anchorPath);
    if Normalize(rel).Ok? {
      SegmentsCanonical(Normalize(rel).value);
      WalkReadsBelow(c, t, u, anchor, anchorPath, Segments(Normalize(rel).value));
    }
  }

  // ---------- DecryptUnderAnchor ----------

  /** The token loop of DecryptUnderAnchor, with the plaintext built so far under the mount path. */
  ghost function AnchorWalk(c: Cipher, t: Table, parent: Row, at: string, plain: string,
                            toks: seq<string>): Result<string>
    decreases |toks|
  {
    if toks == [] then Ok(plain) else
    var name :- DecryptSegment(c, parent, toks[0]);
    var ct := Join(at, toks[0]);
    if |toks| == 1 then Ok(Join(plain, name))
    else match Lookup(t, ct)
      case None => Err(NotFound)
      case Some(x) => AnchorWalk(c, t, t[x], ct, Join(plain, name), toks[1..])
  }

  /** What the paths below the anchor begin with. */
  function Prefix(base: string): string {
    if base == "/" then "/" else base + "/"
  }

  /** One row of DecryptUnderAnchor. */
  ghost function DecryptUnder(c: Cipher, t: Table, anchor: Row, base: string, mount: string, row: Row): Result<Row> {
    if row.path == base then Ok(row.(name := Base(mount), path := mount))
    else if !HasPrefix(row.path, Prefix(base)) then Err(Invalid)
    else
      var plain :- AnchorWalk(c, t, anchor, base, mount, Split(row.path[|Prefix(base)|..]));
      Ok(row.(name := Base(plain), path := plain))
  }

  lemma {:induction false} AnchorWalkSnoc(c: Cipher, t: Table, parent: Row, at: string, plain: string,
                                          toks: seq<string>, tok: string, x: Id)
    requires AnchorWalk(c, t, parent, at, plain, toks).Ok? && toks != [] && Lookup(t, JoinAll(at, toks)) == Some(x)
    requires DecryptSegment(c, t[x], tok).Ok?
    ensures AnchorWalk(c, t, parent, at, plain, toks + [tok]) ==
            Ok(Join(AnchorWalk(c, t, parent, at, plain, toks).value, DecryptSegment(c, t[x], tok).value))
    decreases |toks|
  {
    var name := DecryptSegment(c, parent, toks[0]).value;
    var ct := Join(at, toks[0]);
    assert (toks + [tok])[0] == toks[0] && (toks + [tok])[1..] == toks[1..] + [tok];
    if |toks| == 1 {
      assert toks[1..] == [] && toks[1..] + [tok] == [tok] && JoinAll(at, toks) == ct;
    } else {
      AnchorWalkSnoc(c, t, t[Lookup(t, ct).value], ct, Join(plain, name), toks[1..], tok, x);
    }
  }

  lemma {:induction false} SplitBelow(base: string, toks: seq<string>)
    requires base != "" && toks != [] && ValidNames(toks)
    ensures var p := JoinAll(base, toks);
            p != base && HasPrefix(p, Prefix(base)) && Split(p[|Prefix(base)|..]) == toks
  {
    hide JoinAll, Split, HasPrefix;
    var init, n := toks[..|toks| - 1], toks[|toks| - 1];
    assert toks == init + [n];
    JoinAllSnoc(base, init, n);
    SplitName(n);
    if init == [] {
      OneName(base, n);
    } else {
      SplitBelow(base, init);
      var p := JoinAll(base, init);
      RelativeStep(p, base, n);
      SplitConcat(p[|Prefix(base)|..], n);
    }
  }

  lemma OneName(base: string, n: string)
    requires base != "" && ValidName(n)
    ensures JoinAll(base, []) == base
    ensures var q := Join(base, n); q != base && HasPrefix(q, Prefix(base)) && q[|Prefix(base)|..] == n
  {
    assert Join(base, n) == Prefix(base) + n;
  }

  /** One name more leaves the prefix as it is. */
  lemma RelativeStep(p: string, base: string, n: string)
    requires base != "" && p != base && HasPrefix(p, Prefix(base))
    ensures var q := Join(p, n);
            && q != base && HasPrefix(q, Prefix(base))
            && q[|Prefix(base)|..] == p[|Prefix(base)|..] + "/" + n
  {
    assert p != "/";
    assert (p + "/" + n)[..|Prefix(base)|] == p[..|Prefix(base)|];
  }

  /** The stored names between the anchor and a row below it, the plaintext names, and what the token loop makes of
      them under any mount path. */
  lemma {:induction false} ChainTokens(c: Cipher, t: Table, a: Id, x: Id, mount: string)
    returns (toks: seq<string>, names: seq<string>)
    requires Sealed(c, t) && a in t && x in t && Under(t, x, a) && x != a
    ensures toks != [] && ValidNames(toks) && JoinAll(t[a].path, toks) == t[x].path
    ensures names != [] && ValidNames(names) && JoinAll(PlainPathOf(c, t, a), names) == PlainPathOf(c, t, x)
    ensures names[|names| - 1] == PlainName(c, t, x)
    ensures AnchorWalk(c, t, t[a], t[a].path, mount, toks) == Ok(JoinAll(mount, names))
    decreases |t[x].path|
  {
    hide Sealed, Tree, PlainPathOf, PlainName, Join, ValidName;
    SealedTree(c, t);
    UnderStep(t, x, a);
    var p := t[x].parent.value;
    PlainStep(c, t, x);
    TokenOpens(c, t, x);
    if p == a {
      toks, names := [t[x].name], [PlainName(c, t, x)];
      assert toks[1..] == [] && names[1..] == [];
    } else {
      var ts, ns := ChainTokens(c, t, a, p, mount);
      toks, names := ts + [t[x].name], ns + [PlainName(c, t, x)];
      JoinAllSnoc(t[a].path, ts, t[x].name);
      JoinAllSnoc(PlainPathOf(c, t, a), ns, PlainName(c, t, x));
      JoinAllSnoc(mount, ns, PlainName(c, t, x));
      LookupStored(t, p);
      AnchorWalkSnoc(c, t, t[a], t[a].path, mount, ts, t[x].name, p);
    }
  }

  lemma UnderStep(t: Table, x: Id, a: Id)
    requires Tree(t) && x in t && Under(t, x, a) && x != a
    ensures t[x].parent.Some?
    ensures var p := t[x].parent.value;
            p in t && |t[p].path| < |t[x].path| && Under(t, p, a) && t[x].path == Join(t[p].path, t[x].name)
  {
    assert RowOk(t, x);
    PathShape'(t, x);
  }

  lemma TokenOpens(c: Cipher, t: Table, x: Id)
    requires Sealed(c, t) && x in t && t[x].parent.Some? && t[x].parent.value in t
    ensures DecryptSegment(c, t[t[x].parent.value], t[x].name) == Ok(PlainName(c, t, x)) && ValidName(t[x].name)
    ensures ValidName(PlainName(c, t, x))
  {
    assert RowOk(t, x) && SealedRow(c, t, x);
  }

  /** Under a mount DecryptUnderAnchor gives the anchor the mount's path, and every row below it the mount's path
      extended by the plaintext names that lead from the anchor to the row. */
  lemma DecryptUnderMount(c: Cipher, t: Table, a: Id, x: Id, mount: string) returns (names: seq<string>)
    requires Sealed(c, t) && a in t && x in t && Under(t, x, a) && mount != ""
    ensures ValidNames(names) && PlainPathOf(c, t, x) == JoinAll(PlainPathOf(c, t, a), names)
    ensures DecryptUnder(c, t, t[a], t[a].path, mount, t[x]) ==
            Ok(t[x].(name := if x == a then Base(mount) else PlainName(c, t, x), path := JoinAll(mount, names)))
  {
    hide Sealed, Tree, PlainPathOf, PlainName, Under, Split, Base, ValidName;
    if x == a {
      names := [];
    } else {
      SealedTree(c, t);
      PathShape(t, a);
      var toks;
      toks, names := ChainTokens(c, t, a, x, mount);
      SplitBelow(t[a].path, toks);
      LastOfJoin(mount, names);
    }
  }

  lemma LastOfJoin(mount: string, names: seq<string>)
    requires mount != "" && names != [] && ValidNames(names)
    ensures Base(JoinAll(mount, names)) == names[|names| - 1]
  {
    hide Base;
    var init, n := names[..|names| - 1], names[|names| - 1];
    assert names == init + [n];
    JoinAllSnoc(mount, init, n);
    if init != [] {
      SplitBelow(mount, init);
    }
    DirBaseOfJoin(JoinAll(mount, init), n);
  }

  /** With the anchor's plaintext path as mount these are the name and path decryptRow gives. */
  lemma DecryptUnderAgrees(c: Cipher, t: Table, a: Id, x: Id)
    requires Sealed(c, t) && a in t && t[a].parent.Some? && x in t && Under(t, x, a)
    ensures DecryptUnder(c, t, t[a], t[a].path, PlainPathOf(c, t, a), t[x]) == DecryptRow(c, t, x)
  {
    hide Sealed, Tree, View, PlainPathOf, PlainName, DecryptUnder, DecryptRow, Under, Base, Join;
    DecryptRowIsView(c, t, x);
    ViewRow(c, t, x);
    PlainShape(c, t, a);
    var names := DecryptUnderMount(c, t, a, x, PlainPathOf(c, t, a));
    if x == a {
      PlainBase(c, t, a);
    }
  }

  lemma PlainBase(c: Cipher, t: Table, a: Id)
    requires Sealed(c, t) && a in t && t[a].parent.Some?
    ensures Base(PlainPathOf(c, t, a)) == PlainName(c, t, a)
  {
    PlainStep(c, t, a);
    PlainShape(c, t, t[a].parent.value);
    DirBaseOfJoin(PlainPathOf(c, t, t[a].parent.value), PlainName(c, t, a));
    hide PlainPathOf, PlainName;
  }

  /** It gives no row above or beside the anchor away. */
  lemma DecryptUnderRefuses(c: Cipher, t: Table, a: Id, x: Id, mount: string)
    requires Sealed(c, t) && a in t && t[a].parent.Some? && x in t && !Under(t, x, a)
    ensures DecryptUnder(c, t, t[a], t[a].path, mount, t[x]) == Err(Invalid)
  {
    UnderIsPrefix(t, x, a);
    PathShape(t, a);
  }

  /** DecryptUnderAnchor reads no row at or above the anchor either. */
  lemma {:induction false} AnchorWalkReadsBelow(c: Cipher, t: Table, u: Table, parent: Row, at: string,
                                                plain: string, toks: seq<string>)
    requires at != "" && at != "/" && SameBelow(t, u, at) && forall i :: 0 <= i < |toks| ==> '/' !in toks[i]
    ensures AnchorWalk(c, t, parent, at, plain, toks) == AnchorWalk(c, u, parent, at, plain, toks)
    decreases |toks|
  {
    if toks != [] && DecryptSegment(c, parent, toks[0]).Ok? {
      var ct := Join(at, toks[0]);
      SameBelowDeeper(t, u, at, toks[0]);
      assert Lookup(t, ct) == Lookup(u, ct);
      if |toks| > 1 && Lookup(t, ct).Some? {
        var name := DecryptSegment(c, parent, toks[0]).value;
        AnchorWalkReadsBelow(c, t, u, t[Lookup(t, ct).value], ct, Join(plain, name), toks[1..]);
      }
    }
  }

  lemma DecryptReadsBelow(c: Cipher, t: Table, u: Table, anchor: Row, base: string, mount: string, row: Row)
    requires base != "" && base != "/" && SameBelow(t, u, base)
    ensures DecryptUnder(c, t, anchor, base, mount, row) == DecryptUnder(c, u, anchor, base, mount, row)
  {
    if Below(row.path, base) {
      var rel := row.path[|Prefix(base)|..];
      SplitPieces(rel, '/');
      AnchorWalkReadsBelow(c, t, u, anchor, base, mount, Split(rel));
    }
  }
}
