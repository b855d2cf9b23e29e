/** Exclusive write locks found by walking up the path (internal/files/lock.go:132-166, 204-227;
    internal/files/ciphermount.go:462-513), section 9.10 of RFC 4918. */
module Locks {
  import opened Common
  import opened Paths
  import opened Filecache
  import opened NameTranslation
  import opened Refinement
  import opened AnchoredNames

  datatype Lock = Lock(token: string, timeoutMs: int)

  /** file_locks of one user: at most one row per stored path. */
  type LockRows = map<string, Lock>

  datatype Verdict = Allowed | Denied | Failed(error: Error)

  /** parentFilePath. */
  function ParentFilePath(p: string): string {
    var q := if p != "" && p[|p| - 1] == '/' then p[..|p| - 1] else p;
    if q == "" || LastSlash(q) <= 0 then "/" else q[..LastSlash(q)]
  }

  lemma ParentOfRender(segs: seq<string>)
    requires ValidNames(segs) && segs != []
    ensures Render(segs) != "/" && ParentFilePath(Render(segs)) == Render(segs[..|segs| - 1])
  {
    var init, n := segs[..|segs| - 1], segs[|segs| - 1];
    assert segs == init + [n];
    JoinAllSnoc("/", init, n);
    RenderSplits(segs);
    assert Canonical(Render(init));
    SegmentsCanonical(Render(init));
    DirBaseOfJoin(Render(init), n);
  }

  lemma ParentOfJoinAll(mount: string, segs: seq<string>)
    requires Canonical(mount) && ValidNames(segs) && segs != []
    ensures JoinAll(mount, segs) != mount && ParentFilePath(JoinAll(mount, segs)) == JoinAll(mount, segs[..|segs| - 1])
  {
    hide JoinAll, ParentFilePath, Segments, ValidName, Canonical;
    SegmentsCanonical(mount);
    var m := Segments(mount);
    JoinAllConcat("/", m, segs);
    JoinAllConcat("/", m, segs[..|segs| - 1]);
    var whole := m + segs;
    assert whole[..|whole| - 1] == m + segs[..|segs| - 1];
    ParentOfRender(whole);
    SegmentsOfRender(whole);
    SegmentsOfRender(m);
  }

  /** mountRel. */
  function MountRel(mount: string, np: string): string {
    if np == mount then "/" else if HasPrefix(np, mount) then np[|mount|..] else np
  }

  /** The path of an entry relative to its mount. */
  lemma {:induction false} MountRelIs(mount: string, segs: seq<string>)
    requires mount != "" && mount != "/" && ValidNames(segs)
    ensures MountRel(mount, JoinAll(mount, segs)) == Render(segs)
    ensures HasPrefix(JoinAll(mount, segs), mount)
  {
    if segs != [] {
      var init, n := segs[..|segs| - 1], segs[|segs| - 1];
      assert segs == init + [n];
      JoinAllSnoc(mount, init, n);
      JoinAllSnoc("/", init, n);
      JoinAllBelow(mount, segs);
      MountRelIs(mount, init);
      var p, q := JoinAll(mount, init), JoinAll(mount, segs);
      MountRelStep(mount, p, n);
      if init != [] {
        JoinAllBelow(mount, init);
        RenderSplits(init);
      }
    }
  }

  lemma MountRelStep(mount: string, p: string, n: string)
    requires mount != "" && mount != "/" && p != "/" && HasPrefix(p, mount)
    ensures HasPrefix(Join(p, n), mount) && Join(p, n)[|mount|..] == p[|mount|..] + "/" + n
  {
    assert (p + "/" + n)[..|mount|] == p[..|mount|];
  }

  // ---------- the verdict ----------

  predicate Live(locks: LockRows, key: Result<string>, now: int) {
    key.Ok? && key.value in locks && locks[key.value].timeoutMs > now
  }

  /** A translation error that ends the walk; a missing row means no lock where the store says so. */
  predicate Stops(key: Result<string>, lenient: bool) {
    key.Err? && !(lenient && key.error == NotFound)
  }

  /** The walk over the storage keys of a path and its ancestors, nearest first. */
  function Judge(locks: LockRows, keys: seq<Result<string>>, named: string -> bool, now: int, lenient: bool): Verdict {
    if keys == [] then Allowed
    else if Stops(keys[0], lenient) then Failed(keys[0].error)
    else if Live(locks, keys[0], now) then (if named(locks[keys[0].value].token) then Allowed else Denied)
    else Judge(locks, keys[1..], named, now, lenient)
  }

  /** What the walk does at its `i`-th key says nothing about the verdict: it resolves or may be missing, and there
      is no lock on it whose timeout is still to come. */
  ghost predicate Passes(locks: LockRows, key: Result<string>, now: int, lenient: bool) {
    && (key.Err? ==> lenient && key.error == NotFound)
    && (key.Ok? && key.value in locks ==> locks[key.value].timeoutMs <= now)
  }

  ghost predicate PassesUpTo(locks: LockRows, keys: seq<Result<string>>, now: int, lenient: bool, i: nat)
    requires i <= |keys|
  {
    forall j :: 0 <= j < i ==> Passes(locks, keys[j], now, lenient)
  }

  /** The lock on the `i`-th key has not run out, and the walk gets there. */
  ghost predicate Nearest(locks: LockRows, keys: seq<Result<string>>, now: int, lenient: bool, i: nat)
    requires i < |keys|
  {
    && keys[i].Ok? && keys[i].value in locks && locks[keys[i].value].timeoutMs > now
    && PassesUpTo(locks, keys, now, lenient, i)
  }

  /** A write is denied exactly when the nearest lock whose timeout is still to come is not named, fails exactly with
      the first error on the way there, and is allowed otherwise. */
  lemma {:induction false} JudgeIsNearest(locks: LockRows, keys: seq<Result<string>>, named: string -> bool,
                                          now: int, lenient: bool)
    ensures Judge(locks, keys, named, now, lenient) == Denied <==>
      exists i :: 0 <= i < |keys| && Nearest(locks, keys, now, lenient, i) && !named(locks[keys[i].value].token)
    ensures forall e :: Judge(locks, keys, named, now, lenient) == Failed(e) <==>
      exists i :: 0 <= i < |keys| && keys[i] == Err(e) && !(lenient && e == NotFound)
                  && PassesUpTo(locks, keys, now, lenient, i)
    ensures Judge(locks, keys, named, now, lenient) == Allowed <==>
      || PassesUpTo(locks, keys, now, lenient, |keys|)
      || exists i :: 0 <= i < |keys| && Nearest(locks, keys, now, lenient, i) && named(locks[keys[i].value].token)
    decreases |keys|
  {
    if keys != [] {
      JudgeIsNearest(locks, keys[1..], named, now, lenient);
      if Passes(locks, keys[0], now, lenient) {
        OneFurther(locks, keys, now, lenient);
      } else {
        AtFirst(locks, keys, now, lenient);
      }
    }
  }

  lemma AtFirst(locks: LockRows, keys: seq<Result<string>>, now: int, lenient: bool)
    requires keys != [] && !Passes(locks, keys[0], now, lenient)
    ensures forall i :: 0 <= i <= |keys| ==> (PassesUpTo(locks, keys, now, lenient, i) <==> i == 0)
  {
  }

  lemma OneFurther(locks: LockRows, keys: seq<Result<string>>, now: int, lenient: bool)
    requires keys != [] && Passes(locks, keys[0], now, lenient)
    ensures forall i :: 0 <= i <= |keys[1..]| ==>
      (PassesUpTo(locks, keys[1..], now, lenient, i) <==> PassesUpTo(locks, keys, now, lenient, i + 1))
  {
    var rest := keys[1..];
    forall i | 0 <= i <= |rest|
      ensures PassesUpTo(locks, rest, now, lenient, i) <==> PassesUpTo(locks, keys, now, lenient, i + 1)
    {
      if PassesUpTo(locks, keys, now, lenient, i + 1) {
        forall j | 0 <= j < i
          ensures Passes(locks, rest[j], now, lenient)
        {
          assert rest[j] == keys[j + 1];
        }
      }
      if PassesUpTo(locks, rest, now, lenient, i) {
        forall j | 0 <= j < i + 1
          ensures Passes(locks, keys[j], now, lenient)
        {
          if j > 0 {
            assert keys[j] == rest[j - 1];
          }
        }
      }
    }
  }

  /** The storage keys of a path and its ancestors below `at`, nearest first, `at` last. */
  function KeysUp(translate: string -> Result<string>, at: string, segs: seq<string>): (keys: seq<Result<string>>)
    ensures |keys| == |segs| + 1
    decreases |segs|
  {
    [translate(JoinAll(at, segs))] + if segs == [] then [] else KeysUp(translate, at, segs[..|segs| - 1])
  }

  /** The i-th key belongs to the path without its last i segments. */
  lemma {:induction false} KeysUpAt(translate: string -> Result<string>, at: string, segs: seq<string>, i: nat)
    requires i <= |segs|
    ensures KeysUp(translate, at, segs)[i] == translate(JoinAll(at, segs[..|segs| - i]))
    decreases i
  {
    hide JoinAll;
    if i == 0 {
      assert segs[..|segs|] == segs;
    } else {
      var init := segs[..|segs| - 1];
      KeysUpAt(translate, at, init, i - 1);
      assert init[..|init| - (i - 1)] == segs[..|segs| - i];
    }
  }

  ghost predicate OnlyExpiredRemoved(before: LockRows, after: LockRows, now: int) {
    && (forall k :: k in after ==> k in before && after[k] == before[k])
    && forall k :: k in before && k !in after ==> before[k].timeoutMs <= now
  }

  /** Judging a table from which expired rows were removed gives the same verdict. */
  lemma {:induction false} JudgeIgnoresExpired(before: LockRows, after: LockRows, keys: seq<Result<string>>,
                                               named: string -> bool, now: int, lenient: bool)
    requires OnlyExpiredRemoved(before, after, now)
    ensures Judge(before, keys, named, now, lenient) == Judge(after, keys, named, now, lenient)
    decreases |keys|
  {
    if keys != [] {
      JudgeIgnoresExpired(before, after, keys[1..], named, now, lenient);
    }
  }

  /** The keys with expired rows among the first `n`. */
  ghost function RunOut(locks: LockRows, keys: seq<Result<string>>, now: int, n: nat): set<string>
    requires n <= |keys|
  {
    set k | k in locks && locks[k].timeoutMs <= now && KeyBefore(keys, n, k)
  }

  ghost predicate KeyBefore(keys: seq<Result<string>>, n: nat, k: string)
    requires n <= |keys|
  {
    exists i :: 0 <= i < n && keys[i] == Ok(k)
  }

  /** The walk passes the first `n` keys and goes no further. */
  ghost predicate WalkEnds(locks: LockRows, keys: seq<Result<string>>, now: int, lenient: bool, n: nat) {
    n <= |keys| && PassesUpTo(locks, keys, now, lenient, n) && (n < |keys| ==> !Passes(locks, keys[n], now, lenient))
  }

  /** Exactly the expired rows the walk has come to are gone. */
  ghost predicate Expired(before: LockRows, after: LockRows, keys: seq<Result<string>>, now: int, lenient: bool) {
    exists n: nat :: WalkEnds(before, keys, now, lenient, n) && after == before - RunOut(before, keys, now, n)
  }

  /** One key further. */
  lemma OneKeyOn(before: LockRows, keys: seq<Result<string>>, now: int, lenient: bool, n: nat)
    requires n < |keys| && PassesUpTo(before, keys, now, lenient, n) && Passes(before, keys[n], now, lenient)
    ensures PassesUpTo(before, keys, now, lenient, n + 1)
    ensures var left := before - RunOut(before, keys, now, n);
            before - RunOut(before, keys, now, n + 1) ==
              if keys[n].Ok? && keys[n].value in left then left - {keys[n].value} else left
  {
    forall k
      ensures KeyBefore(keys, n + 1, k) <==> KeyBefore(keys, n, k) || keys[n] == Ok(k)
    {
      if KeyBefore(keys, n + 1, k) {
        var i :| 0 <= i < n + 1 && keys[i] == Ok(k);
      }
    }
  }

  /** Rows that have not run out stay. */
  lemma LiveStays(before: LockRows, keys: seq<Result<string>>, now: int, n: nat)
    requires n <= |keys|
    ensures forall k :: k in before - RunOut(before, keys, now, n) ==> k in before
    ensures forall k :: k in before && before[k].timeoutMs > now ==> k in before - RunOut(before, keys, now, n)
  {
  }

  /** One turn of the verdict. */
  lemma JudgeOnce(locks: LockRows, keys: seq<Result<string>>, named: string -> bool, now: int, lenient: bool)
    requires keys != []
    ensures var key := keys[0];
            Judge(locks, keys, named, now, lenient) ==
              if Stops(key, lenient) then Failed(key.error)
              else if key.Ok? && key.value in locks && locks[key.value].timeoutMs > now then
                if named(locks[key.value].token) then Allowed else Denied
              else Judge(locks, keys[1..], named, now, lenient)
  {
  }

  lemma JudgeNothing(locks: LockRows, named: string -> bool, now: int, lenient: bool)
    ensures Judge(locks, [], named, now, lenient) == Allowed
  {
  }

  lemma ParentOfStop(stop: string, left: seq<string>)
    requires Canonical(stop) && ValidNames(left)
    ensures JoinAll(stop, left) == stop <==> left == []
    ensures left != [] ==> ParentFilePath(JoinAll(stop, left)) == JoinAll(stop, left[..|left| - 1])
  {
    if left != [] {
      ParentOfJoinAll(stop, left);
    }
  }

  lemma NoneRunOut(locks: LockRows, keys: seq<Result<string>>, now: int, lenient: bool)
    ensures PassesUpTo(locks, keys, now, lenient, 0) && locks - RunOut(locks, keys, now, 0) == locks
  {
    assert forall k :: !KeyBefore(keys, 0, k);
  }

  /** What is left was there, and what is gone has run out. */
  lemma ExpiredOnly(before: LockRows, after: LockRows, keys: seq<Result<string>>, now: int, lenient: bool)
    requires Expired(before, after, keys, now, lenient)
    ensures OnlyExpiredRemoved(before, after, now)
  {
  }

  class LockTable {
    var locks: LockRows

    /** The shared loop: `stop` is "/" for checkLockOwned and the mount root for checkLockCipherMount, and
        `translate` maps a path of the walk to its key in file_locks. */
    method WalkUp(np: string, stop: string, ghost segs: seq<string>, translate: string -> Result<string>,
                  named: string -> bool, now: int, lenient: bool) returns (v: Verdict)
      requires Canonical(stop) && ValidNames(segs) && np == JoinAll(stop, segs)
      modifies this
      ensures v == Judge(old(locks), KeysUp(translate, stop, segs), named, now, lenient)
      ensures Expired(old(locks), locks, KeysUp(translate, stop, segs), now, lenient)
    {
      hide RunOut, Judge, Canonical, ParentFilePath, PassesUpTo, JoinAll;
      ghost var t, keys := locks, KeysUp(translate, stop, segs);
      var cur := np;
      ghost var left, n := segs, 0;
      NoneRunOut(t, keys, now, lenient);
      assert keys[0..] == keys;
      while true
        invariant ValidNames(left) && cur == JoinAll(stop, left)
        invariant n + |left| == |segs| && keys[n..] == KeysUp(translate, stop, left)
        invariant PassesUpTo(t, keys, now, lenient, n) && locks == t - RunOut(t, keys, now, n)
        invariant Judge(t, keys, named, now, lenient) == Judge(t, keys[n..], named, now, lenient)
        decreases |left|
      {
        var key := translate(cur);
        assert keys[n..][0] == keys[n] == key && keys[n..][1..] == keys[n + 1..];
        LiveStays(t, keys, now, n);
        JudgeOnce(t, keys[n..], named, now, lenient);
        if Stops(key, lenient) {
          assert WalkEnds(t, keys, now, lenient, n);
          return Failed(key.error);
        }
        if key.Ok? && key.value in locks && locks[key.value].timeoutMs > now {
          assert WalkEnds(t, keys, now, lenient, n);
          return if named(locks[key.value].token) then Allowed else Denied;
        }
        OneKeyOn(t, keys, now, lenient, n);
        if key.Ok? && key.value in locks {
          locks := locks - {key.value};
        }
        ParentOfStop(stop, left);
        if cur == stop {
          assert keys[n + 1..] == [];
          assert WalkEnds(t, keys, now, lenient, n + 1);
          JudgeNothing(t, named, now, lenient);
          return Allowed;
        }
        cur := ParentFilePath(cur);
        left := left[..|left| - 1];
        n := n + 1;
      }
    }

    /** checkLockOwned: up to the user's root; an unresolvable ancestor carries no lock. */
    method CheckLockOwned(p: string, translate: string -> Result<string>, named: string -> bool,
                          now: int)
      returns (v: Verdict)
      modifies this
      ensures Normalize(p).Err? ==> v == Failed(InvalidPath) && locks == old(locks)
      ensures Normalize(p).Ok? ==>
        var keys := KeysUp(translate, "/", Segments(Normalize(p).value));
        v == Judge(old(locks), keys, named, now, true) && Expired(old(locks), locks, keys, now, true)
    {
      var np := NormalizePath(p);
      if np.Err? {
        return Failed(InvalidPath);
      }
      NormalizeCanonical(p);
      SegmentsCanonical(np.value);
      assert ValidNames([]) && Render([]) == "/";
      v := WalkUp(np.value, "/", Segments(np.value), translate, named, now, true);
    }

    /** checkLockCipherMount: up to the mount root, each path translated relative to the mount; any path that
        does not resolve ends the check. */
    method CheckLockCipherMount(p: string, mount: string, ghost segs: seq<string>, under: string -> Result<string>,
                                named: string -> bool, now: int) returns (v: Verdict)
      requires Canonical(mount) && ValidNames(segs) && Normalize(p) == Ok(JoinAll(mount, segs))
      modifies this
      ensures var keys := KeysUp(cur => under(MountRel(mount, cur)), mount, segs);
              v == Judge(old(locks), keys, named, now, false) && Expired(old(locks), locks, keys, now, false)
    {
      hide Normalize, Canonical, Judge, Expired, KeysUp, JoinAll;
      var np := NormalizePath(p);
      v := WalkUp(np.value, mount, segs, cur => under(MountRel(mount, cur)), named, now, false);
    }
  }

  // ---------- the lock check through a mount ----------

  /** The keys checkLockOwned reads for the owner's path: one cipherPath per ancestor. */
  ghost function OwnerKeys(c: Cipher, t: Table, segs: seq<string>): (keys: seq<Result<string>>)
    ensures |keys| == |segs| + 1
    decreases |segs|
  {
    [CipherPath(c, t, NCGOFN1, Render(segs))] + if segs == [] then [] else OwnerKeys(c, t, segs[..|segs| - 1])
  }

  /** The keys checkLockCipherMount reads for the path `segs` below the mount of anchor `a`. */
  ghost function MountKeys(c: Cipher, t: Table, a: Id, segs: seq<string>): (keys: seq<Result<string>>)
    requires a in t
    ensures |keys| == |segs| + 1
    decreases |segs|
  {
    [CipherPathUnder(c, t, t[a], t[a].path, Render(segs))]
    + if segs == [] then [] else MountKeys(c, t, a, segs[..|segs| - 1])
  }

  /** The keys are cipherPath and CipherPathUnder of the path without its last i segments. */
  lemma {:induction false} KeysAt(c: Cipher, t: Table, a: Id, segs: seq<string>, i: nat)
    requires a in t && i <= |segs|
    ensures OwnerKeys(c, t, segs)[i] == CipherPath(c, t, NCGOFN1, Render(segs[..|segs| - i]))
    ensures MountKeys(c, t, a, segs)[i] == CipherPathUnder(c, t, t[a], t[a].path, Render(segs[..|segs| - i]))
    decreases i
  {
    hide CipherPath, CipherPathUnder, JoinAll;
    if i == 0 {
      assert segs[..|segs|] == segs;
    } else {
      var init := segs[..|segs| - 1];
      KeysAt(c, t, a, init, i - 1);
      assert init[..|init| - (i - 1)] == segs[..|segs| - i];
    }
  }

  /** With cipherPath as translation the walk of CheckLockOwned reads the owner's keys. */
  lemma {:induction false} OwnerWalkKeys(c: Cipher, t: Table, translate: string -> Result<string>, segs: seq<string>)
    requires forall p :: translate(p) == CipherPath(c, t, NCGOFN1, p)
    ensures KeysUp(translate, "/", segs) == OwnerKeys(c, t, segs)
    decreases |segs|
  {
    hide CipherPath, JoinAll;
    if segs != [] {
      OwnerWalkKeys(c, t, translate, segs[..|segs| - 1]);
    }
  }

  /** With CipherPathUnder as translation the walk of CheckLockCipherMount reads the mount's keys. */
  lemma {:induction false} MountWalkKeys(c: Cipher, t: Table, a: Id, mount: string,
                                         translate: string -> Result<string>, segs: seq<string>)
    requires a in t && mount != "" && mount != "/" && ValidNames(segs)
    requires forall p :: translate(p) == CipherPathUnder(c, t, t[a], t[a].path, MountRel(mount, p))
    ensures KeysUp(translate, mount, segs) == MountKeys(c, t, a, segs)
    decreases |segs|
  {
    hide CipherPathUnder, JoinAll, MountRel;
    MountRelIs(mount, segs);
    if segs != [] {
      MountWalkKeys(c, t, a, mount, translate, segs[..|segs| - 1]);
    }
  }

  /** Below the anchor both walks read the same keys; the owner's walk goes on above it. */
  lemma {:induction false} KeysAgree(c: Cipher, t: Table, a: Id, sa: seq<string>, segs: seq<string>)
    requires Sealed(c, t) && WithinBudget(c, t) && a in t && t[a].parent.Some? && t[a].isDir
    requires sa == Segments(PlainPathOf(c, t, a)) && sa != [] && ValidNames(sa)
      && Render(sa) == PlainPathOf(c, t, a) && ValidNames(segs)
    ensures OwnerKeys(c, t, sa + segs) == MountKeys(c, t, a, segs) + OwnerKeys(c, t, sa[..|sa| - 1])
    decreases |segs|
  {
    hide Sealed, WithinBudget, CipherPath, CipherPathUnder, PlainPathOf, Normalize;
    var rel := Render(segs);
    assert Canonical(rel);
    NormalizeCanonical(rel);
    SegmentsOfRender(segs);
    AnchoredEqualsRoot(c, t, a, rel);
    JoinAllConcat("/", sa, segs);
    assert OwnerPath(PlainPathOf(c, t, a), rel) == Render(sa + segs);
    if segs == [] {
      assert sa + segs == sa;
    } else {
      KeysAgree(c, t, a, sa, segs[..|segs| - 1]);
      assert (sa + segs)[..|sa + segs| - 1] == sa + segs[..|segs| - 1];
    }
    KeysAssoc(c, t, a, sa, segs);
  }

  lemma KeysAssoc(c: Cipher, t: Table, a: Id, sa: seq<string>, segs: seq<string>)
    requires a in t && sa != []
    requires CipherPath(c, t, NCGOFN1, Render(sa + segs)) == CipherPathUnder(c, t, t[a], t[a].path, Render(segs))
    requires segs == [] ==> sa + segs == sa
    requires segs != [] ==> (sa + segs)[..|sa + segs| - 1] == sa + segs[..|segs| - 1]
    requires segs != [] ==>
      OwnerKeys(c, t, sa + segs[..|segs| - 1]) ==
        MountKeys(c, t, a, segs[..|segs| - 1]) + OwnerKeys(c, t, sa[..|sa| - 1])
    ensures OwnerKeys(c, t, sa + segs) == MountKeys(c, t, a, segs) + OwnerKeys(c, t, sa[..|sa| - 1])
  {
    hide CipherPath, CipherPathUnder, Render;
  }

  /** Judging a concatenation whose second part holds nothing live and no error. */
  lemma {:induction false} JudgePrefix(locks: LockRows, a: seq<Result<string>>, b: seq<Result<string>>,
                                       named: string -> bool, now: int)
    requires forall i :: 0 <= i < |a| ==> a[i].Ok?
    requires forall i :: 0 <= i < |b| ==> !Stops(b[i], true) && !Live(locks, b[i], now)
    ensures Judge(locks, a + b, named, now, true) == Judge(locks, a, named, now, false)
    decreases |a| + |b|
  {
    if a == [] {
      assert a + b == b;
      if b != [] {
        JudgePrefix(locks, [], b[1..], named, now);
        assert [] + b[1..] == b[1..];
      }
    } else {
      assert (a + b)[0] == a[0] && (a + b)[1..] == a[1..] + b;
      JudgePrefix(locks, a[1..], b, named, now);
    }
  }

  /** What the check through a mount needs of a path below the anchor: its parent folder is stored, and the leaf is
      within the length budget there. The leaf itself need not be stored. */
  ghost predicate ParentStored(c: Cipher, t: Table, a: Id, segs: seq<string>)
    requires Sealed(c, t) && a in t
  {
    segs != [] ==>
      exists d :: d in t && t[d].isDir && ParentAt(c, t, a, segs, d) && TokenPath(c, t, d, segs[|segs| - 1]).Ok?
  }

  ghost predicate ParentAt(c: Cipher, t: Table, a: Id, segs: seq<string>, d: Id)
    requires Sealed(c, t) && a in t && d in t && segs != []
  {
    PlainPathOf(c, t, d) == JoinAll(PlainPathOf(c, t, a), segs[..|segs| - 1])
  }

  ghost predicate Resolved(keys: seq<Result<string>>) {
    forall i :: 0 <= i < |keys| ==> keys[i].Ok?
  }

  /** Every path of the walk resolves exactly when the parent is stored and the leaf fits. */
  lemma {:induction false} MountKeysResolve(c: Cipher, t: Table, a: Id, segs: seq<string>)
    requires Sealed(c, t) && WithinBudget(c, t) && a in t && t[a].parent.Some? && t[a].isDir && ValidNames(segs)
    ensures Resolved(MountKeys(c, t, a, segs)) <==> ParentStored(c, t, a, segs)
    decreases |segs|
  {
    hide Sealed, WithinBudget, CipherPathUnder, PlainPathOf, ParentStored;
    var keys := MountKeys(c, t, a, segs);
    assert keys[0] == CipherPathUnder(c, t, t[a], t[a].path, Render(segs));
    FirstKey(c, t, a, segs);
    if segs != [] {
      var init := segs[..|segs| - 1];
      MountKeysResolve(c, t, a, init);
      assert keys == [keys[0]] + MountKeys(c, t, a, init);
      if ParentStored(c, t, a, segs) {
        ParentsParent(c, t, a, segs);
      }
    }
  }

  /** The path itself resolves exactly when its parent is stored and the leaf fits. */
  lemma FirstKey(c: Cipher, t: Table, a: Id, segs: seq<string>)
    requires Sealed(c, t) && WithinBudget(c, t) && a in t && t[a].parent.Some? && t[a].isDir && ValidNames(segs)
    ensures CipherPathUnder(c, t, t[a], t[a].path, Render(segs)).Ok? <==> ParentStored(c, t, a, segs)
  {
    hide Sealed, WithinBudget, CipherPathUnder, PlainPathOf, Tree, Walk, TokenPath, Normalize, Segments, Render;
    SealedTree(c, t);
    RenderNormal(segs);
    UnderIs(c, t, a, Render(segs));
    if segs != [] {
      var init, n := segs[..|segs| - 1], segs[|segs| - 1];
      assert segs == init + [n];
      if ParentStored(c, t, a, segs) {
        var d :| d in t && t[d].isDir && ParentAt(c, t, a, segs, d) && TokenPath(c, t, d, n).Ok?;
        WalkToParent(c, t, a, init, n, d);
      }
      if Walk(c, t, t[a], t[a].path, segs).Ok? {
        var d := WalkPassed(c, t, a, init, n);
        assert ParentAt(c, t, a, segs, d);
      }
    }
  }

  lemma RenderNormal(segs: seq<string>)
    requires ValidNames(segs)
    ensures Normalize(Render(segs)) == Ok(Render(segs)) && Segments(Render(segs)) == segs
  {
    hide Normalize, Render;
    assert Canonical(Render(segs));
    NormalizeCanonical(Render(segs));
    SegmentsOfRender(segs);
  }

  /** From the stored parent the last step of the walk is the leaf's token path. */
  lemma WalkToParent(c: Cipher, t: Table, a: Id, init: seq<string>, n: string, d: Id)
    requires Sealed(c, t) && WithinBudget(c, t) && a in t && t[a].isDir && d in t && t[d].isDir
    requires ValidNames(init) && ValidName(n) && PlainPathOf(c, t, d) == JoinAll(PlainPathOf(c, t, a), init)
    ensures Walk(c, t, t[a], t[a].path, init + [n]).Ok? <==> TokenPath(c, t, d, n).Ok?
  {
    hide Sealed, WithinBudget, PlainPathOf, Tree;
    if init == [] {
      PlainPathInjective(c, t, a, d);
      assert init + [n] == [n];
    } else {
      WalkFinds(c, t, a, init, d);
      SealedTree(c, t);
      LookupStored(t, d);
      WalkSplit(c, t, t[a], t[a].path, init, [n], d);
    }
  }

  /** A successful walk has passed through the stored parent. */
  lemma WalkPassed(c: Cipher, t: Table, a: Id, init: seq<string>, n: string) returns (d: Id)
    requires Sealed(c, t) && WithinBudget(c, t) && a in t && t[a].isDir && ValidNames(init) && ValidName(n)
    requires Walk(c, t, t[a], t[a].path, init + [n]).Ok?
    ensures d in t && t[d].isDir && PlainPathOf(c, t, d) == JoinAll(PlainPathOf(c, t, a), init)
    ensures TokenPath(c, t, d, n).Ok?
  {
    hide Sealed, WithinBudget, PlainPathOf, Tree;
    if init == [] {
      d := a;
      assert init + [n] == [n];
    } else {
      d := WalkMiddle(c, t, t[a], t[a].path, init, n);
      WalkAgrees(c, t, a, init, d);
      WalkSplit(c, t, t[a], t[a].path, init, [n], d);
    }
  }

  lemma {:induction false} WalkMiddle(c: Cipher, t: Table, parent: Row, at: string, init: seq<string>, n: string)
    returns (d: Id)
    requires init != [] && Walk(c, t, parent, at, init + [n]).Ok?
    ensures Walk(c, t, parent, at, init).Ok? && Lookup(t, Walk(c, t, parent, at, init).value) == Some(d)
    ensures d in t && t[d].isDir && t[d].path == Walk(c, t, parent, at, init).value
    decreases |init|
  {
    var all := init + [n];
    var ct := Join(at, CipherSegment(c, parent, all[0]).value);
    var x := Lookup(t, ct).value;
    assert all[1..] == init[1..] + [n];
    if |init| == 1 {
      d := x;
    } else {
      d := WalkMiddle(c, t, t[x], ct, init[1..], n);
    }
  }

  /** The parent of a stored folder below the anchor is stored, too. */
  lemma ParentsParent(c: Cipher, t: Table, a: Id, segs: seq<string>)
    requires Sealed(c, t) && WithinBudget(c, t) && a in t && t[a].isDir && ValidNames(segs) && segs != []
    requires ParentStored(c, t, a, segs)
    ensures ParentStored(c, t, a, segs[..|segs| - 1])
  {
    hide Sealed, WithinBudget, PlainPathOf, TokenPath, Tree;
    var init := segs[..|segs| - 1];
    if init != [] {
      var d :| d in t && t[d].isDir && ParentAt(c, t, a, segs, d) && TokenPath(c, t, d, segs[|segs| - 1]).Ok?;
      FolderAbove(c, t, a, init, d);
    }
  }

  lemma FolderAbove(c: Cipher, t: Table, a: Id, init: seq<string>, d: Id)
    requires Sealed(c, t) && WithinBudget(c, t) && a in t && t[a].isDir && ValidNames(init) && init != []
    requires d in t && PlainPathOf(c, t, d) == JoinAll(PlainPathOf(c, t, a), init)
    ensures ParentStored(c, t, a, init)
  {
    hide Sealed, WithinBudget, PlainPathOf, Tree, Walk, TokenPath;
    var up, n := init[..|init| - 1], init[|init| - 1];
    assert init == up + [n];
    WalkFinds(c, t, a, init, d);
    var p := WalkPassed(c, t, a, up, n);
    assert ParentAt(c, t, a, init, p);
  }

  /** Through a mount the lock check gives the owner's answer when the path's parents exist and no unexpired
      lock lies above the share root. */
  lemma MountCheckAgrees(c: Cipher, t: Table, a: Id, segs: seq<string>, locks: LockRows, named: string -> bool,
                         now: int)
    requires Sealed(c, t) && WithinBudget(c, t) && a in t && t[a].parent.Some? && t[a].isDir && ValidNames(segs)
    requires ParentStored(c, t, a, segs)
    requires var above := OwnerKeys(c, t, Segments(Dir(PlainPathOf(c, t, a))));
             forall i :: 0 <= i < |above| ==> !Live(locks, above[i], now)
    ensures Judge(locks, OwnerKeys(c, t, Segments(PlainPathOf(c, t, a)) + segs), named, now, true) ==
            Judge(locks, MountKeys(c, t, a, segs), named, now, false)
  {
    var plain := PlainPathOf(c, t, a);
    var sa := Segments(plain);
    MountKeysResolve(c, t, a, segs);
    PlainCanonical(c, t, a);
    PlainShape(c, t, a);
    SegmentsCanonical(plain);
    DirSegments(plain);
    PlainStep(c, t, a);
    hide Sealed, WithinBudget, PlainPathOf, Canonical, Segments, Judge, OwnerKeys, MountKeys;
    AncestorsResolve(c, t, t[a].parent.value);
    DirBaseOfJoin(PlainPathOf(c, t, t[a].parent.value), PlainName(c, t, a));
    KeysAgree(c, t, a, sa, segs);
    JudgePrefix(locks, MountKeys(c, t, a, segs), OwnerKeys(c, t, sa[..|sa| - 1]), named, now);
  }

  /** The two methods side by side: the sharee's check of mount + segs and the owner's check of the same entry
      under its own path reach the same verdict. */
  lemma MountVerdict(c: Cipher, t: Table, a: Id, mount: string, segs: seq<string>, locks: LockRows,
                     named: string -> bool, now: int,
                     translate: string -> Result<string>, under: string -> Result<string>)
    requires Sealed(c, t) && WithinBudget(c, t) && a in t && t[a].parent.Some? && t[a].isDir && ValidNames(segs)
    requires mount != "" && mount != "/"
    requires forall p :: translate(p) == CipherPath(c, t, NCGOFN1, p)
    requires forall rel :: under(rel) == CipherPathUnder(c, t, t[a], t[a].path, rel)
    requires ParentStored(c, t, a, segs)
    requires var above := OwnerKeys(c, t, Segments(Dir(PlainPathOf(c, t, a))));
             forall i :: 0 <= i < |above| ==> !Live(locks, above[i], now)
    ensures Judge(locks, KeysUp(cur => under(MountRel(mount, cur)), mount, segs), named, now, false) ==
            Judge(locks, KeysUp(translate, "/", Segments(PlainPathOf(c, t, a)) + segs), named, now, true)
  {
    hide Sealed, WithinBudget, CipherPath, CipherPathUnder, PlainPathOf, Judge, KeysUp, MountKeys, OwnerKeys, MountRel;
    MountCheckAgrees(c, t, a, segs, locks, named, now);
    OwnerWalkKeys(c, t, translate, Segments(PlainPathOf(c, t, a)) + segs);
    MountWalkKeys(c, t, a, mount, cur => under(MountRel(mount, cur)), segs);
  }

  /** The owner's walk resolves every ancestor of a stored row. */
  lemma {:induction false} AncestorsResolve(c: Cipher, t: Table, x: Id)
    requires Sealed(c, t) && WithinBudget(c, t) && x in t
    ensures PlainPathOf(c, t, x) != ""
    ensures var keys := OwnerKeys(c, t, Segments(PlainPathOf(c, t, x))); forall i :: 0 <= i < |keys| ==> keys[i].Ok?
    decreases |t[x].path|
  {
    var plain := PlainPathOf(c, t, x);
    PlainShape(c, t, x);
    PlainCanonical(c, t, x);
    SegmentsCanonical(plain);
    NormalizeCanonical(plain);
    ResolveFinds(c, t, plain, x);
    if t[x].parent.Some? {
      var p := t[x].parent.value;
      PlainStep(c, t, x);
      AncestorsResolve(c, t, p);
      DirSegments(plain);
      DirBaseOfJoin(PlainPathOf(c, t, p), PlainName(c, t, x));
      assert OwnerKeys(c, t, Segments(plain))[1..] == OwnerKeys(c, t, Segments(PlainPathOf(c, t, p)));
    }
  }

  lemma DirSegments(np: string)
    requires Canonical(np) && np != "/"
    ensures Segments(np) != [] && Segments(Dir(np)) == Segments(np)[..|Segments(np)| - 1]
  {
    hide Dir, Base, JoinAll, Segments, Split;
    SegmentsCanonical(np);
    var segs := Segments(np);
    var init, n := segs[..|segs| - 1], segs[|segs| - 1];
    assert segs == init + [n];
    JoinAllSnoc("/", init, n);
    assert Canonical(Render(init));
    SegmentsCanonical(Render(init));
    DirBaseOfJoin(Render(init), n);
    SegmentsOfRender(init);
  }
}
