/** Canonical DAV paths (internal/files/path.go) and the path helpers built on them. */
module Paths {
  import opened Common

  /** A path segment that NormalizePath lets through. */
  predicate ValidName(s: string) {
    s != "" && s != "." && s != ".." && '/' !in s && '\\' !in s && '\0' !in s
  }

  predicate ValidNames(segs: seq<string>) {
    forall i :: 0 <= i < |segs| ==> ValidName(segs[i])
  }

  /** joinNamePath. */
  function Join(parent: string, name: string): string {
    if parent == "/" then "/" + name else parent + "/" + name
  }

  /** `base` extended by the segments one after the other. */
  function JoinAll(base: string, segs: seq<string>): string
    decreases |segs|
  {
    if segs == [] then base else JoinAll(Join(base, segs[0]), segs[1..])
  }

  function Render(segs: seq<string>): string {
    JoinAll("/", segs)
  }

  /** strings.LastIndex(s, "/"). */
  function LastSlash(s: string): (i: int)
    ensures -1 <= i < |s|
    ensures 0 <= i ==> s[i] == '/'
    ensures forall j :: i < j < |s| ==> s[j] != '/'
  {
    if s == "" then -1
    else if s[|s| - 1] == '/' then |s| - 1
    else LastSlash(s[..|s| - 1])
  }

  /** strings.Split(s, "/"). */
  function Split(s: string): (segs: seq<string>)
    ensures |segs| > 0
  {
    if s == "" then [""]
    else
      var rest := Split(s[1..]);
      if s[0] == '/' then [""] + rest else [[s[0]] + rest[0]] + rest[1..]
  }

  /** The segments of a canonical path, as every segment walk computes them. */
  function Segments(np: string): seq<string> {
    if np == "/" || np == "" then [] else Split(np[1..])
  }

  /** path.Base on a canonical non-root path. */
  function Base(p: string): string {
    p[LastSlash(p) + 1..]
  }

  /** path.Dir on a canonical non-root path, with "." read as the root. */
  function Dir(p: string): string {
    if LastSlash(p) <= 0 then "/" else p[..LastSlash(p)]
  }

  predicate HasPrefix(s: string, prefix: string) {
    |prefix| <= |s| && s[..|prefix|] == prefix
  }

  /** `p` lies strictly below `d`, as the store tests it on strings. */
  predicate Below(p: string, d: string) {
    HasPrefix(p, d + "/")
  }

  /** A path NormalizePath can return. */
  ghost predicate Canonical(p: string) {
    exists segs :: ValidNames(segs) && p == Render(segs)
  }

  // ---------- joining and splitting ----------

  lemma {:induction false} LastSlashOf(a: string, n: string)
    requires '/' !in n
    ensures LastSlash(a + "/" + n) == |a|
  {
    var s := a + "/" + n;
    if n == "" {
      assert s[|s| - 1] == '/';
    } else {
      var m := n[..|n| - 1];
      LastSlashOf(a, m);
      assert s[..|s| - 1] == a + "/" + m;
      assert s[|s| - 1] == n[|n| - 1];
    }
  }

  /** Base and Dir undo Join. */
  lemma DirBaseOfJoin(p: string, n: string)
    requires '/' !in n && p != ""
    ensures Base(Join(p, n)) == n && Dir(Join(p, n)) == p
  {
    hide LastSlash;
    if p == "/" {
      LastSlashOf("", n);
      assert "" + "/" + n == Join(p, n);
    } else {
      LastSlashOf(p, n);
      assert (p + "/" + n)[|p| + 1..] == n;
    }
  }

  lemma JoinInjective(p: string, n: string, q: string, m: string)
    requires p != "" && q != "" && '/' !in n && '/' !in m
    requires Join(p, n) == Join(q, m)
    ensures p == q && n == m
  {
    DirBaseOfJoin(p, n);
    DirBaseOfJoin(q, m);
  }

  /** A joined path lies below `d` exactly when its parent is `d` or lies below `d`. */
  lemma BelowJoin(p: string, n: string, d: string)
    requires p != "" && d != "" && d != "/" && '/' !in n
    ensures Below(Join(p, n), d) <==> p == d || Below(p, d)
  {
    var s := Join(p, n);
    var k := if p == "/" then 0 else |p|;
    assert s[..k] == p[..k] && s[k] == '/' && s[k + 1..] == n;
    assert forall j :: k < j < |s| ==> s[j] == n[j - k - 1];
    if |d| < |s| {
      assert Below(s, d) <==> s[..|d|] == d && s[|d|] == '/';
    }
    if |d| < |p| {
      assert s[..|d|] == p[..|d|] && s[|d|] == p[|d|];
      assert Below(p, d) <==> p[..|d|] == d && p[|d|] == '/';
    }
  }

  /** What RenameSubtree writes for a path below `src`: the prefix swapped for `dst`. */
  function Rebase(p: string, src: string, dst: string): string
    requires Below(p, src)
  {
    dst + "/" + p[|src| + 1..]
  }

  lemma RebaseJoin(p: string, n: string, src: string, dst: string)
    requires p != "" && src != "" && src != "/" && dst != "" && dst != "/" && '/' !in n
    requires p == src || Below(p, src)
    ensures Below(Join(p, n), src)
    ensures Rebase(Join(p, n), src, dst) == Join(if p == src then dst else Rebase(p, src, dst), n)
  {
    BelowJoin(p, n, src);
    assert p != "/";
    var s := Join(p, n);
    if p != src {
      assert s[|src| + 1..] == p[|src| + 1..] + "/" + n;
      assert dst + "/" + (p[|src| + 1..] + "/" + n) == Rebase(p, src, dst) + "/" + n;
    } else {
      assert s[|src| + 1..] == n;
    }
  }

  lemma RebaseInjective(p: string, q: string, src: string, dst: string)
    requires Below(p, src) && Below(q, src) && Rebase(p, src, dst) == Rebase(q, src, dst)
    ensures p == q
  {
    var k := |dst| + 1;
    assert Rebase(p, src, dst)[k..] == p[|src| + 1..];
    assert Rebase(q, src, dst)[k..] == q[|src| + 1..];
    assert p == p[..|src| + 1] + p[|src| + 1..];
    assert q == q[..|src| + 1] + q[|src| + 1..];
  }

  lemma {:induction false} JoinAllSnoc(base: string, segs: seq<string>, n: string)
    ensures JoinAll(base, segs + [n]) == Join(JoinAll(base, segs), n)
    decreases |segs|
  {
    if segs == [] {
      assert [n][1..] == [];
    } else {
      JoinAllSnoc(Join(base, segs[0]), segs[1..], n);
      assert (segs + [n])[1..] == segs[1..] + [n];
    }
  }

  lemma {:induction false} JoinAllConcat(base: string, a: seq<string>, b: seq<string>)
    ensures JoinAll(base, a + b) == JoinAll(JoinAll(base, a), b)
    decreases |a|
  {
    if a == [] {
      assert a + b == b;
    } else {
      assert (a + b)[1..] == a[1..] + b && (a + b)[0] == a[0];
      JoinAllConcat(Join(base, a[0]), a[1..], b);
    }
  }

  lemma {:induction false} JoinAllBelow(base: string, segs: seq<string>)
    requires base != "" && base != "/" && segs != [] && ValidNames(segs)
    ensures Below(JoinAll(base, segs), base) && JoinAll(base, segs) != base
  {
    var init := segs[..|segs| - 1];
    var n := segs[|segs| - 1];
    assert segs == init + [n];
    JoinAllSnoc(base, init, n);
    if init == [] {
      BelowJoin(base, n, base);
    } else {
      JoinAllBelow(base, init);
      BelowJoin(JoinAll(base, init), n, base);
    }
  }

  lemma {:induction false} SplitName(n: string)
    requires '/' !in n
    ensures Split(n) == [n]
  {
    if n != "" {
      SplitName(n[1..]);
      assert n == [n[0]] + n[1..];
    }
  }

  lemma SplitEmpty(b: string)
    ensures Split("" + "/" + b) == Split("") + Split(b)
  {
    assert ("" + "/" + b)[1..] == b;
  }

  function Prepend(x: char, r: seq<string>): seq<string>
    requires |r| > 0
  {
    if x == '/' then [""] + r else [[x] + r[0]] + r[1..]
  }

  lemma SplitStep(x: char, a: string)
    ensures Split([x] + a) == Prepend(x, Split(a))
  {
    assert ([x] + a)[1..] == a;
  }

  lemma PrependConcat(x: char, r: seq<string>, t: seq<string>)
    requires |r| > 0
    ensures Prepend(x, r + t) == Prepend(x, r) + t
  {
    assert (r + t)[1..] == r[1..] + t;
  }

  lemma {:induction false} SplitConcat(a: string, b: string)
    ensures Split(a + "/" + b) == Split(a) + Split(b)
  {
    hide Split;
    if a == "" {
      SplitEmpty(b);
    } else {
      SplitConcat(a[1..], b);
      SplitStep(a[0], a[1..]);
      SplitStep(a[0], a[1..] + "/" + b);
      assert [a[0]] + a[1..] == a && [a[0]] + (a[1..] + "/" + b) == a + "/" + b;
      PrependConcat(a[0], Split(a[1..]), Split(b));
    }
  }

  lemma {:induction false} SplitPieces(s: string, c: char)
    requires c == '/' || c !in s
    ensures forall i :: 0 <= i < |Split(s)| ==> c !in Split(s)[i]
  {
    if s != "" {
      SplitPieces(s[1..], c);
    }
  }

  lemma {:induction false} RenderSplits(segs: seq<string>)
    requires ValidNames(segs) && segs != []
    ensures Split(Render(segs)) == [""] + segs
    ensures var s := Render(segs); |s| > 1 && s[0] == '/' && s[|s| - 1] != '/' && '\\' !in s && '\0' !in s
  {
    var init := segs[..|segs| - 1];
    var n := segs[|segs| - 1];
    assert segs == init + [n];
    JoinAllSnoc("/", init, n);
    SplitName(n);
    if init == [] {
      SplitConcat("", n);
      assert "" + "/" + n == "/" + n;
    } else {
      RenderSplits(init);
      SplitConcat(Render(init), n);
      assert ([""] + init) + [n] == [""] + segs;
    }
  }

  /** The segment walk of a rendered path visits exactly its segments. */
  lemma {:induction false} SegmentsOfRender(segs: seq<string>)
    requires ValidNames(segs)
    ensures Segments(Render(segs)) == segs
  {
    if segs != [] {
      RenderSplits(segs);
      var s := Render(segs);
      assert Split(s)[1..] == Split(s[1..]);
    }
  }

  lemma SegmentsCanonical(np: string)
    requires Canonical(np)
    ensures ValidNames(Segments(np)) && Render(Segments(np)) == np && np != ""
    ensures np == "/" <==> Segments(np) == []
  {
    var segs :| ValidNames(segs) && np == Render(segs);
    SegmentsOfRender(segs);
    if segs != [] {
      RenderSplits(segs);
    }
  }

  // ---------- NormalizePath ----------

  function SwapBackslashes(p: string): (r: string)
    ensures |r| == |p| && '\\' !in r && ('\0' !in p ==> '\0' !in r)
  {
    if p == "" then "" else [if p[0] == '\\' then '/' else p[0]] + SwapBackslashes(p[1..])
  }

  /** strings.TrimRight(p, "/"). */
  function TrimSlashes(p: string): string {
    if p != "" && p[|p| - 1] == '/' then TrimSlashes(p[..|p| - 1]) else p
  }

  /** What NormalizePath promises: backslashes count as slashes, one leading slash and all trailing
      slashes are dropped, and the remaining segments must all be proper names. */
  function Normalize(p: string): Result<string> {
    if '\0' in p then Err(InvalidPath)
    else
      var q := SwapBackslashes(p);
      var body := TrimSlashes(if q != "" && q[0] == '/' then q[1..] else q);
      if body == "" then Ok("/")
      else if ValidNames(Split(body)) then Ok(Render(Split(body)))
      else Err(InvalidPath)
  }

  lemma {:induction false} TrimLeading(b: string)
    ensures TrimSlashes("/" + b) == if TrimSlashes(b) == "" then "" else "/" + TrimSlashes(b)
  {
    if b != "" && b[|b| - 1] == '/' {
      TrimLeading(b[..|b| - 1]);
      assert ("/" + b)[..|b|] == "/" + b[..|b| - 1];
    } else if b == "" {
      assert TrimSlashes("/") == TrimSlashes("/"[..0]);
    }
  }

  lemma {:induction false} SwapFixed(p: string)
    requires '\\' !in p
    ensures SwapBackslashes(p) == p
  {
    if p != "" {
      SwapFixed(p[1..]);
      assert p == [p[0]] + p[1..];
    }
  }

  lemma {:induction false} TrimKeeps(p: string, c: char)
    requires c !in p
    ensures c !in TrimSlashes(p)
  {
    if p != "" && p[|p| - 1] == '/' {
      TrimKeeps(p[..|p| - 1], c);
    }
  }

  /** NormalizePath returns canonical paths, and returns every canonical path unchanged. */
  lemma NormalizeCanonical(p: string)
    ensures Normalize(p).Ok? ==> Canonical(Normalize(p).value)
    ensures Canonical(p) ==> Normalize(p) == Ok(p)
  {
    hide Render, Segments, SwapBackslashes;
    if Normalize(p).Ok? {
      var q := SwapBackslashes(p);
      var body := TrimSlashes(if q != "" && q[0] == '/' then q[1..] else q);
      if body == "" {
        RootRenders();
      }
    }
    if Canonical(p) {
      NormalizeFixes(p, Segments(p));
    }
  }

  lemma RootRenders()
    ensures ValidNames([]) && Render([]) == "/"
  {
  }

  lemma RootCanonical()
    ensures Canonical("/") && Normalize("/") == Ok("/")
  {
    hide Normalize;
    RootRenders();
    NormalizeCanonical("/");
  }

  lemma NormalizeFixes(p: string, segs: seq<string>)
    requires Canonical(p) && segs == Segments(p)
    ensures Normalize(p) == Ok(p)
  {
    hide Canonical, Render, SwapBackslashes;
    SegmentsCanonical(p);
    if segs == [] {
      SwapFixed(p);
      assert p[1..] == "";
    } else {
      RenderSplits(segs);
      SwapFixed(p);
      assert TrimSlashes(p[1..]) == p[1..];
    }
  }

  // ---------- which strings normalise to which path ----------

  lemma {:induction false} TrimAppended(s: string)
    ensures TrimSlashes(s + "/") == TrimSlashes(s)
  {
    assert (s + "/")[..|s|] == s;
  }

  lemma {:induction false} SwapConcat(a: string, b: string)
    ensures SwapBackslashes(a + b) == SwapBackslashes(a) + SwapBackslashes(b)
  {
    if a == "" {
      assert a + b == b;
    } else {
      SwapConcat(a[1..], b);
      assert (a + b)[1..] == a[1..] + b;
    }
  }

  /** A slash at the end does not matter. */
  lemma NormalizeTrailing(p: string)
    ensures Normalize(p + "/") == Normalize(p)
  {
    hide SwapBackslashes, TrimSlashes, Split, Render;
    SwapConcat(p, "/");
    SwapFixed("/");
    var q := SwapBackslashes(p);
    if q == "" {
      assert q + "/" == "/" && (q + "/")[1..] == "";
    } else if q[0] == '/' {
      assert (q + "/")[1..] == q[1..] + "/";
      TrimAppended(q[1..]);
    } else {
      TrimAppended(q);
    }
  }

  /** Nor does a missing slash at the front. */
  lemma NormalizeLeading(p: string)
    requires p != "" ==> p[0] != '/' && p[0] != '\\'
    ensures Normalize("/" + p) == Normalize(p)
  {
    hide TrimSlashes, Split, Render;
    SwapConcat("/", p);
    SwapFixed("/");
    assert ("/" + SwapBackslashes(p))[1..] == SwapBackslashes(p);
  }

  /** Backslashes count as slashes. */
  lemma NormalizeBackslashes(p: string, q: string)
    requires |q| == |p| && forall i :: 0 <= i < |p| ==> q[i] == if p[i] == '\\' then '/' else p[i]
    ensures Normalize(q) == Normalize(p)
  {
    hide TrimSlashes, Split, Render;
    Swapped(p, q);
    SwapFixed(q);
    assert '\0' in q <==> '\0' in p by {
      if '\0' in q { var i :| 0 <= i < |q| && q[i] == '\0'; assert p[i] == '\0'; }
      if '\0' in p { var i :| 0 <= i < |p| && p[i] == '\0'; assert q[i] == '\0'; }
    }
  }

  lemma {:induction false} Swapped(p: string, q: string)
    requires |q| == |p| && forall i :: 0 <= i < |p| ==> q[i] == if p[i] == '\\' then '/' else p[i]
    ensures SwapBackslashes(p) == q
  {
    if p != "" {
      forall i | 0 <= i < |p[1..]|
        ensures q[1..][i] == if p[1..][i] == '\\' then '/' else p[1..][i]
      {
        assert p[1..][i] == p[i + 1] && q[1..][i] == q[i + 1];
      }
      Swapped(p[1..], q[1..]);
      assert q == [q[0]] + q[1..];
    }
  }

  /** A path with a leading slash, no backslash and no slash at its end is returned as it is or refused: what is no
      canonical path is never mended. With the three rules above this decides every string. */
  lemma NormalizeDecides(p: string)
    requires p != "" && p[0] == '/' && '\\' !in p && (p == "/" || p[|p| - 1] != '/')
    ensures Normalize(p) == if Canonical(p) then Ok(p) else Err(InvalidPath)
  {
    hide Canonical, SwapBackslashes;
    NormalizeCanonical(p);
    SwapFixed(p);
    var body := p[1..];
    assert p == "/" + body;
    CanonicalQuiet(p);
    if body != "" {
      assert body[|body| - 1] == p[|p| - 1];
      assert TrimSlashes(body) == body;
      if ValidNames(Split(body)) {
        SplitRenders(body);
        CanonicalIs(Split(body));
      }
    }
  }

  /** The canonical paths: the root, and those that lead with a slash and have no empty, "." or ".." part, no backslash
      and no NUL. */
  lemma CanonicalIff(p: string)
    ensures Canonical(p) <==>
              p == "/" || (p != "" && p[0] == '/' && '\\' !in p && '\0' !in p
                           && forall n :: n in Split(p[1..]) ==> n != "" && n != "." && n != "..")
  {
    hide Split, JoinAll;
    RootRenders();
    CanonicalIs([]);
    if Canonical(p) && p != "/" {
      SegmentsCanonical(p);
      RenderSplits(Segments(p));
    }
    if p != "" && p[0] == '/' && '\\' !in p && '\0' !in p {
      var b := p[1..];
      assert p == "/" + b;
      SplitPieces(b, '/');
      SplitPieces(b, '\\');
      SplitPieces(b, '\0');
      if forall n :: n in Split(p[1..]) ==> n != "" && n != "." && n != ".." {
        forall i | 0 <= i < |Split(b)|
          ensures ValidName(Split(b)[i])
        {
          assert Split(b)[i] in Split(b);
        }
        SplitRenders(b);
        CanonicalIs(Split(b));
      }
    }
  }

  lemma CanonicalIs(segs: seq<string>)
    requires ValidNames(segs)
    ensures Canonical(Render(segs))
  {
  }

  lemma CanonicalQuiet(p: string)
    ensures Canonical(p) ==> '\0' !in p
  {
    if Canonical(p) {
      SegmentsCanonical(p);
      if Segments(p) != [] {
        RenderSplits(Segments(p));
      }
    }
  }

  /** Splitting and joining again gives the string back. */
  lemma {:induction false} SplitRenders(b: string)
    requires ValidNames(Split(b))
    ensures Render(Split(b)) == "/" + b
  {
    var segs := Split(b);
    RenderSplits(segs);
    SplitInjective(Render(segs), "/" + b);
  }

  lemma {:induction false} SplitInjective(a: string, b: string)
    requires Split(a) == Split(b)
    ensures a == b
    decreases |a|
  {
    hide Split;
    SplitShape(a);
    SplitShape(b);
    if a != "" && b != "" {
      PrependInjective(a[0], Split(a[1..]), b[0], Split(b[1..]));
      SplitInjective(a[1..], b[1..]);
      assert a == [a[0]] + a[1..] && b == [b[0]] + b[1..];
    }
  }

  lemma SplitShape(a: string)
    ensures a == "" <==> Split(a) == [""]
    ensures a != "" ==> Split(a) == Prepend(a[0], Split(a[1..]))
  {
  }

  lemma PrependInjective(x: char, r: seq<string>, y: char, t: seq<string>)
    requires |r| > 0 && |t| > 0 && Prepend(x, r) == Prepend(y, t)
    ensures x == y && r == t
  {
    var p := Prepend(x, r);
    assert p[0] == "" <==> x == '/';
    assert p[0] == "" <==> y == '/';
    if x == '/' {
      assert p[1..] == r && p[1..] == t;
    } else {
      assert p[0] == [x] + r[0] && p[0] == [y] + t[0];
      assert p[0][1..] == r[0] && p[0][1..] == t[0] && p[1..] == r[1..] && p[1..] == t[1..];
      assert r == [r[0]] + r[1..] && t == [t[0]] + t[1..];
    }
  }

  /** NormalizePath, in the order of its own steps: swap, lead with a slash, trim, split and check. */
  method NormalizePath(p: string) returns (r: Result<string>)
    ensures r == Normalize(p)
  {
    if '\0' in p {
      return Err(InvalidPath);
    }
    var q := SwapBackslashes(p);
    var body := TrimSlashes(if q != "" && q[0] == '/' then q[1..] else q);
    if q == "" {
      q := "/";
    }
    if q[0] != '/' {
      q := "/" + q;
    }
    assert q == "/" + q[1..];
    TrimLeading(q[1..]);
    if |q| > 1 {
      q := TrimSlashes(q);
      if q == "" {
        q := "/";
      }
    }
    if q == "/" {
      return Ok("/");
    }
    assert q == "/" + body;
    assert q[1..] == body;
    var parts := Split(q);
    assert parts[1..] == Split(body);
    QuietChars(p, body);
    r := CheckedJoin(parts);
  }

  /** The loop of NormalizePath: every part but the first is checked and appended. */
  method CheckedJoin(parts: seq<string>) returns (r: Result<string>)
    requires |parts| > 0
    requires forall i, c :: 1 <= i < |parts| && (c == '/' || c == '\\' || c == '\0') ==> c !in parts[i]
    ensures r == if ValidNames(parts[1..]) then Ok(Render(parts[1..])) else Err(InvalidPath)
  {
    var out := "/";
    for i := 1 to |parts|
      invariant ValidNames(parts[1..i])
      invariant out == Render(parts[1..i])
    {
      var seg := parts[i];
      if seg == "" || seg == "." || seg == ".." {
        assert !ValidName(parts[1..][i - 1]);
        return Err(InvalidPath);
      }
      JoinAllSnoc("/", parts[1..i], seg);
      assert parts[1..i + 1] == parts[1..i] + [seg];
      out := Join(out, seg);
    }
    assert parts[1..|parts|] == parts[1..];
    return Ok(out);
  }

  lemma QuietChars(p: string, body: string)
    requires '\0' !in p
    requires var q := SwapBackslashes(p); body == TrimSlashes(if q != "" && q[0] == '/' then q[1..] else q)
    ensures forall i, c :: 0 <= i < |Split(body)| && (c == '/' || c == '\\' || c == '\0') ==> c !in Split(body)[i]
  {
    var q := SwapBackslashes(p);
    var b := if q != "" && q[0] == '/' then q[1..] else q;
    TrimKeeps(b, '\\');
    TrimKeeps(b, '\0');
    SplitPieces(body, '/');
    SplitPieces(body, '\\');
    SplitPieces(body, '\0');
  }
}
