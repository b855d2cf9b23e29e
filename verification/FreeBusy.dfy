/** Merging free/busy intervals (internal/calendar/freebusy.go:126-143), section 7.10 of RFC 4791. Instants are
    whole seconds since the Unix epoch, in UTC. */
module FreeBusy {
  import opened Common

  datatype Interval = Interval(start: int, end: int)

  // ---------- mergeBusy ----------

  ghost predicate Proper(ivs: seq<Interval>) {
    forall i :: 0 <= i < |ivs| ==> ivs[i].start <= ivs[i].end
  }

  ghost predicate NonEmpty(ivs: seq<Interval>) {
    forall i :: 0 <= i < |ivs| ==> ivs[i].start < ivs[i].end
  }

  ghost predicate Covers(ivs: seq<Interval>, x: int) {
    exists i :: 0 <= i < |ivs| && ivs[i].start <= x < ivs[i].end
  }

  ghost predicate Sorted(ivs: seq<Interval>) {
    forall i, j :: 0 <= i < j < |ivs| ==> ivs[i].start <= ivs[j].start
  }

  /** Sorted, with a gap between any two intervals. */
  ghost predicate Separated(ivs: seq<Interval>) {
    forall i, j :: 0 <= i < j < |ivs| ==> ivs[i].end < ivs[j].start
  }

  /** One turn of the merging loop. */
  function Absorb(out: seq<Interval>, iv: Interval): seq<Interval>
    requires out != []
  {
    var last := out[|out| - 1];
    if iv.start <= last.end then
      out[|out| - 1 := Interval(last.start, if iv.end > last.end then iv.end else last.end)]
    else
      out + [iv]
  }

  /** The loop over a sorted list. */
  function Coalesce(s: seq<Interval>): (out: seq<Interval>)
    ensures s != [] ==> out != []
  {
    if s == [] then []
    else if |s| == 1 then s
    else Absorb(Coalesce(s[..|s| - 1]), s[|s| - 1])
  }

  lemma AbsorbKeeps(out: seq<Interval>, iv: Interval)
    requires out != [] && Separated(out) && Proper(out) && iv.start <= iv.end
    requires forall i :: 0 <= i < |out| ==> out[i].start <= iv.start
    ensures var r := Absorb(out, iv);
            && Separated(r) && Proper(r)
            && (forall i :: 0 <= i < |r| ==> r[i].start <= iv.start)
            && (forall x :: Covers(r, x) <==> Covers(out, x) || iv.start <= x < iv.end)
            && (NonEmpty(out) && iv.start < iv.end ==> NonEmpty(r))
  {
    hide Covers;
    forall x
      ensures Covers(Absorb(out, iv), x) <==> Covers(out, x) || iv.start <= x < iv.end
    {
      AbsorbCovers(out, iv, x);
    }
  }

  lemma AbsorbCovers(out: seq<Interval>, iv: Interval, x: int)
    requires out != [] && out[|out| - 1].start <= iv.start
    ensures Covers(Absorb(out, iv), x) <==> Covers(out, x) || iv.start <= x < iv.end
  {
    hide Covers;
    var init, last := out[..|out| - 1], out[|out| - 1];
    assert out == init + [last];
    CoversSnoc(init, last, x);
    CoversSnoc(out, iv, x);
    if iv.start <= last.end {
      var wide := Interval(last.start, if iv.end > last.end then iv.end else last.end);
      assert Absorb(out, iv) == init + [wide];
      CoversSnoc(init, wide, x);
    }
  }

  /** Merging a sorted list leaves separated intervals that cover the same instants. */
  lemma {:induction false} CoalesceCorrect(s: seq<Interval>)
    requires Sorted(s) && Proper(s)
    ensures Separated(Coalesce(s)) && Proper(Coalesce(s))
    ensures forall x :: Covers(Coalesce(s), x) <==> Covers(s, x)
    ensures s != [] ==> forall i :: 0 <= i < |Coalesce(s)| ==> Coalesce(s)[i].start <= s[|s| - 1].start
    ensures NonEmpty(s) ==> NonEmpty(Coalesce(s))
    decreases |s|
  {
    if |s| > 1 {
      var init, iv := s[..|s| - 1], s[|s| - 1];
      CoalesceCorrect(init);
      var out := Coalesce(init);
      forall i | 0 <= i < |out|
        ensures out[i].start <= iv.start
      {
        assert init[|init| - 1] == s[|s| - 2];
      }
      AbsorbKeeps(out, iv);
      forall x
        ensures Covers(s, x) <==> Covers(init, x) || iv.start <= x < iv.end
      {
        CoversSnoc(init, iv, x);
        assert s == init + [iv];
      }
    }
  }

  lemma CoversSnoc(init: seq<Interval>, iv: Interval, x: int)
    ensures Covers(init + [iv], x) <==> Covers(init, x) || iv.start <= x < iv.end
  {
    var s := init + [iv];
    if Covers(init, x) {
      var i :| 0 <= i < |init| && init[i].start <= x < init[i].end;
      assert s[i] == init[i];
    }
    if iv.start <= x < iv.end {
      assert s[|init|] == iv;
    }
  }

  /** A separated list of non-empty intervals is determined by the instants it covers. */
  lemma {:induction false} SeparatedUnique(a: seq<Interval>, b: seq<Interval>)
    requires Separated(a) && Separated(b) && NonEmpty(a) && NonEmpty(b)
    requires forall x :: Covers(a, x) <==> Covers(b, x)
    ensures a == b
    decreases |a|
  {
    assert b != [] ==> Covers(b, b[0].start);
    if a != [] {
      assert Covers(a, a[0].start);
      FirstAgrees(a, b);
      FirstAgrees(b, a);
      forall x
        ensures Covers(a[1..], x) <==> Covers(b[1..], x)
      {
        CoversTail(a, x);
        CoversTail(b, x);
      }
      SeparatedUnique(a[1..], b[1..]);
      assert a == [a[0]] + a[1..] && b == [b[0]] + b[1..];
    }
  }

  lemma CoversTail(a: seq<Interval>, x: int)
    requires a != [] && Separated(a) && NonEmpty(a)
    ensures Covers(a[1..], x) <==> Covers(a, x) && x > a[0].end
  {
    if Covers(a[1..], x) {
      var i :| 0 <= i < |a[1..]| && a[1..][i].start <= x < a[1..][i].end;
      assert a[i + 1].start <= x < a[i + 1].end;
    }
    if Covers(a, x) && x > a[0].end {
      var i :| 0 <= i < |a| && a[i].start <= x < a[i].end;
      assert a[1..][i - 1] == a[i];
    }
  }

  lemma FirstAgrees(a: seq<Interval>, b: seq<Interval>)
    requires a != [] && b != [] && Separated(a) && Separated(b) && NonEmpty(a) && NonEmpty(b)
    requires forall x :: Covers(a, x) <==> Covers(b, x)
    ensures b[0].start <= a[0].start
    ensures a[0].start == b[0].start ==> a[0].end <= b[0].end
  {
    assert Covers(a, a[0].start);
    var i :| 0 <= i < |b| && b[i].start <= a[0].start < b[i].end;
    if i > 0 {
      assert b[0].end < b[i].start;
    }
    EndUncovered(b);
    assert forall x :: a[0].start <= x < a[0].end ==> Covers(a, x);
  }

  lemma EndUncovered(b: seq<Interval>)
    requires b != [] && Separated(b)
    ensures !Covers(b, b[0].end)
  {
  }

  /** `out` is a result mergeBusy can return for `ivs`: sort.Slice may leave equal starts in any order. */
  ghost predicate Merges(ivs: seq<Interval>, out: seq<Interval>) {
    exists s :: SortOf(ivs, s) && out == Coalesce(s)
  }

  ghost predicate SortOf(ivs: seq<Interval>, s: seq<Interval>) {
    Sorted(s) && multiset(s) == multiset(ivs)
  }

  lemma SameElements(a: seq<Interval>, b: seq<Interval>)
    requires multiset(a) == multiset(b)
    ensures Proper(a) ==> Proper(b)
    ensures NonEmpty(a) ==> NonEmpty(b)
    ensures forall x :: Covers(a, x) ==> Covers(b, x)
  {
    forall i | 0 <= i < |b|
      ensures b[i] in a
    {
      assert b[i] in multiset(b);
    }
    forall x | Covers(a, x)
      ensures Covers(b, x)
    {
      var i :| 0 <= i < |a| && a[i].start <= x < a[i].end;
      assert a[i] in multiset(a);
      assert a[i] in b;
    }
  }

  /** mergeBusy: sorted, separated, and covering exactly the instants of the input. */
  lemma MergeCorrect(ivs: seq<Interval>, out: seq<Interval>)
    requires Proper(ivs) && Merges(ivs, out)
    ensures Separated(out) && Proper(out)
    ensures forall x :: Covers(out, x) <==> Covers(ivs, x)
    ensures NonEmpty(ivs) ==> NonEmpty(out)
  {
    var s :| SortOf(ivs, s) && out == Coalesce(s);
    SameElements(ivs, s);
    SameElements(s, ivs);
    CoalesceCorrect(s);
  }

  // ---------- the list is determined by the closed intervals ----------

  /** Some interval contains the point `t`, ends included; `t` counts half seconds, so that there is a point
      between any two neighbouring instants. */
  ghost predicate Touches(ivs: seq<Interval>, t: int) {
    exists i :: 0 <= i < |ivs| && 2 * ivs[i].start <= t <= 2 * ivs[i].end
  }

  /** The interval in half seconds, its end point included. */
  function Closed(iv: Interval): Interval {
    Interval(2 * iv.start, 2 * iv.end + 1)
  }

  function ClosedAll(ivs: seq<Interval>): (r: seq<Interval>)
    ensures |r| == |ivs| && forall i :: 0 <= i < |ivs| ==> r[i] == Closed(ivs[i])
  {
    seq(|ivs|, i requires 0 <= i < |ivs| => Closed(ivs[i]))
  }

  lemma TouchesIsCovers(ivs: seq<Interval>, t: int)
    ensures Touches(ivs, t) <==> Covers(ClosedAll(ivs), t)
  {
    if Touches(ivs, t) {
      var i :| 0 <= i < |ivs| && 2 * ivs[i].start <= t <= 2 * ivs[i].end;
      assert ClosedAll(ivs)[i] == Closed(ivs[i]);
    }
    if Covers(ClosedAll(ivs), t) {
      var i :| 0 <= i < |ivs| && ClosedAll(ivs)[i].start <= t < ClosedAll(ivs)[i].end;
      assert ClosedAll(ivs)[i] == Closed(ivs[i]);
    }
  }

  lemma AbsorbClosed(out: seq<Interval>, iv: Interval)
    requires out != []
    ensures Absorb(ClosedAll(out), Closed(iv)) == ClosedAll(Absorb(out, iv))
  {
  }

  /** Merging commutes with including the end points. */
  lemma {:induction false} CoalesceClosed(s: seq<Interval>)
    ensures Coalesce(ClosedAll(s)) == ClosedAll(Coalesce(s))
    decreases |s|
  {
    hide Absorb, Closed;
    if |s| > 1 {
      var init := s[..|s| - 1];
      assert ClosedAll(s)[..|s| - 1] == ClosedAll(init);
      CoalesceClosed(init);
      AbsorbClosed(Coalesce(init), s[|s| - 1]);
    }
  }

  /** The merged list touches what the input touches, and no two of its intervals touch each other. */
  lemma MergeTouches(ivs: seq<Interval>, out: seq<Interval>)
    requires Proper(ivs) && Merges(ivs, out)
    ensures forall t :: Touches(out, t) <==> Touches(ivs, t)
    ensures Separated(ClosedAll(out)) && NonEmpty(ClosedAll(out))
  {
    hide Coalesce, Covers, Touches;
    var s :| SortOf(ivs, s) && out == Coalesce(s);
    SameElements(ivs, s);
    CoalesceClosed(s);
    CoalesceCorrect(ClosedAll(s));
    forall t
      ensures Touches(out, t) <==> Touches(ivs, t)
    {
      TouchesIsCovers(out, t);
      TouchesIsCovers(s, t);
      if Touches(ivs, t) { SameTouches(ivs, s, t); }
      if Touches(s, t) { SameTouches(s, ivs, t); }
    }
  }

  lemma SameTouches(a: seq<Interval>, b: seq<Interval>, t: int)
    requires multiset(a) == multiset(b) && Touches(a, t)
    ensures Touches(b, t)
  {
    var i :| 0 <= i < |a| && 2 * a[i].start <= t <= 2 * a[i].end;
    assert a[i] in multiset(a);
    assert a[i] in b;
  }

  /** mergeBusy is canonical: two inputs, events without duration included, give the same list exactly when
      their closed intervals contain the same points. */
  lemma MergeCanonical(a: seq<Interval>, b: seq<Interval>, x: seq<Interval>, y: seq<Interval>)
    requires Proper(a) && Proper(b) && Merges(a, x) && Merges(b, y)
    ensures x == y <==> forall t :: Touches(a, t) <==> Touches(b, t)
  {
    hide Merges, Touches, Covers;
    MergeTouches(a, x);
    MergeTouches(b, y);
    if forall t :: Touches(a, t) <==> Touches(b, t) {
      forall t
        ensures Covers(ClosedAll(x), t) <==> Covers(ClosedAll(y), t)
      {
        TouchesIsCovers(x, t);
        TouchesIsCovers(y, t);
      }
      SeparatedUnique(ClosedAll(x), ClosedAll(y));
      ClosedInjective(x, y);
    }
  }

  lemma ClosedInjective(x: seq<Interval>, y: seq<Interval>)
    requires ClosedAll(x) == ClosedAll(y)
    ensures x == y
  {
    forall i | 0 <= i < |x|
      ensures x[i] == y[i]
    {
      assert ClosedAll(x)[i] == ClosedAll(y)[i];
    }
  }

  /** Order and sort do not matter, and merging again changes nothing. */
  lemma MergeIdempotent(a: seq<Interval>, b: seq<Interval>, x: seq<Interval>, y: seq<Interval>)
    requires Proper(a) && Merges(a, x) && Merges(b, y) && (multiset(b) == multiset(a) || b == x)
    ensures x == y
  {
    hide Merges, Touches;
    if b == x {
      MergeCorrect(a, x);
      MergeTouches(a, x);
    } else {
      SameElements(a, b);
      forall t
        ensures Touches(a, t) <==> Touches(b, t)
      {
        if Touches(a, t) { SameTouches(a, b, t); }
        if Touches(b, t) { SameTouches(b, a, t); }
      }
    }
    MergeCanonical(a, b, x, y);
  }

  /** For intervals of some length the covered instants alone decide the list. */
  lemma MergeByCoverage(a: seq<Interval>, b: seq<Interval>, x: seq<Interval>, y: seq<Interval>)
    requires NonEmpty(a) && NonEmpty(b) && Merges(a, x) && Merges(b, y)
    requires forall t :: Covers(a, t) <==> Covers(b, t)
    ensures x == y
  {
    MergeCorrect(a, x);
    MergeCorrect(b, y);
    SeparatedUnique(x, y);
  }

  /** Coverage alone does not decide in general: an event without duration covers nothing and is listed. */
  lemma EmptyIntervalsAreListed()
    ensures Merges([Interval(5, 5)], [Interval(5, 5)]) && Merges([], [])
    ensures forall t :: Covers([Interval(5, 5)], t) <==> Covers([], t)
  {
    assert SortOf([Interval(5, 5)], [Interval(5, 5)]) && SortOf([], []);
  }

  method SortByStart(ivs: seq<Interval>) returns (s: seq<Interval>)
    ensures SortOf(ivs, s)
  {
    s := [];
    for i := 0 to |ivs|
      invariant Sorted(s) && multiset(s) == multiset(ivs[..i])
    {
      s := InsertByStart(s, ivs[i]);
      assert ivs[..i + 1] == ivs[..i] + [ivs[i]];
    }
    assert ivs[..|ivs|] == ivs;
  }

  method InsertByStart(s: seq<Interval>, iv: Interval) returns (r: seq<Interval>)
    requires Sorted(s)
    ensures Sorted(r) && multiset(r) == multiset(s) + multiset{iv}
  {
    var k := 0;
    while k < |s| && s[k].start <= iv.start
      invariant 0 <= k <= |s|
      invariant forall i :: 0 <= i < k ==> s[i].start <= iv.start
    {
      k := k + 1;
    }
    r := s[..k] + [iv] + s[k..];
    InsertedAt(s, iv, k);
  }

  method MergeBusy(ivs: seq<Interval>) returns (out: seq<Interval>)
    ensures Merges(ivs, out)
  {
    var s := SortByStart(ivs);
    if s == [] {
      return [];
    }
    out := [s[0]];
    assert s[..1] == [s[0]];
    for i := 1 to |s|
      invariant out == Coalesce(s[..i]) && out != []
    {
      var last := out[|out| - 1];
      var iv := s[i];
      assert s[..i + 1][..i] == s[..i];
      if iv.start <= last.end {
        out := out[|out| - 1 := Interval(last.start, if iv.end > last.end then iv.end else last.end)];
      } else {
        out := out + [iv];
      }
    }
    assert s[..|s|] == s;
  }
}
