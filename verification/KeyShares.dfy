/** Key wraps of a freshly written file against concurrent unshares (internal/files/keyshares.go:119-141,
    179-246, 271-304; internal/files/dav.go:729-755) as a state machine over the calls of both sides. Unshares
    delete the share row before they unwrap. Calls do not fail and groups do not change. */
module KeyShares {

  type ShareId = nat
  type Uid = nat

  /** The shares covering the file's path, each with its recipients (shareeUIDs). */
  type Recipients = map<ShareId, set<Uid>>

  /** Whether the write persists the file row before it wraps, as the code does, or after. */
  datatype Order = PersistFirst | WrapFirst

  /** A write of a new file: the row insert and, around or after it, WrapForWrite between its calls. */
  datatype Writer =
    | Unsaved                                                            // before the row insert
    | Start                                                              // before the first Covering
    | Wrapping(shares: seq<ShareId>, uids: seq<Uid>, wrapped: set<Uid>)  // in the two loops
    | Unwrapping(drop: set<Uid>)                                         // after the re-read
    | Done

  /** An unshare of one share: row deleted, then UnwrapForShare recipient by recipient. Each recipient takes a
      listing of the share's files and, if that has found the new file, an unwrap. */
  datatype Unshare =
    | Waiting(share: ShareId)
    | Removing(share: ShareId, left: set<Uid>)
    | Listed(share: ShareId, left: set<Uid>, uid: Uid)
    | Finished(share: ShareId)

  datatype System = System(live: set<ShareId>, saved: bool, wraps: set<Uid>, writer: Writer, unshares: seq<Unshare>)

  ghost function Covered(r: Recipients, live: set<ShareId>): set<Uid> {
    set s, u | s in live && s in r && u in r[s] :: u
  }

  /** The database may return the elements of a set in any order. */
  ghost predicate Lists<T(!new)>(l: seq<T>, s: set<T>) {
    forall x :: x in l <==> x in s
  }

  /** Where WrapForWrite hands over when it is through. */
  function Through(o: Order): Writer {
    if o == PersistFirst then Done else Unsaved
  }

  ghost predicate WriterStep(r: Recipients, o: Order, s: System, s': System) {
    && s'.live == s.live && s'.unshares == s.unshares
    && match s.writer
       case Unsaved =>
         s'.saved && s'.wraps == s.wraps && s'.writer == if o == PersistFirst then Start else Done
       case Start =>
         && s'.saved == s.saved && s'.wraps == s.wraps
         && if s.live * r.Keys == {} then s'.writer == Through(o)
            else
              && s'.writer.Wrapping? && s'.writer.uids == [] && s'.writer.wrapped == {}
              && Lists(s'.writer.shares, s.live * r.Keys)
       case Wrapping(shares, uids, wrapped) =>
         && s'.saved == s.saved
         && if uids != [] then
              s'.wraps == s.wraps + {uids[0]} && s'.writer == Wrapping(shares, uids[1..], wrapped + {uids[0]})
            else if shares != [] then
              && s'.wraps == s.wraps && s'.writer.Wrapping? && s'.writer.shares == shares[1..]
              && s'.writer.wrapped == wrapped && shares[0] in r && Lists(s'.writer.uids, r[shares[0]])
            else
              && s'.wraps == s.wraps
              && s'.writer == if wrapped == {} then Through(o) else Unwrapping(wrapped - Covered(r, s.live))
       case Unwrapping(drop) =>
         && s'.saved == s.saved
         && if drop != {} then
              exists u :: u in drop && s'.wraps == s.wraps - {u} && s'.writer == Unwrapping(drop - {u})
            else
              s'.wraps == s.wraps && s'.writer == Through(o)
       case Done => false
  }

  ghost predicate UnshareStep(r: Recipients, s: System, s': System, i: nat)
    requires i < |s.unshares|
  {
    && s'.writer == s.writer && s'.saved == s.saved
    && |s'.unshares| == |s.unshares|
    && (forall j :: 0 <= j < |s.unshares| && j != i ==> s'.unshares[j] == s.unshares[j])
    && match s.unshares[i]
       case Waiting(k) =>
         && s'.live == s.live - {k} && s'.wraps == s.wraps
         && s'.unshares[i] == Removing(k, if k in r then r[k] else {})
       case Removing(k, left) =>
         && s'.live == s.live && s'.wraps == s.wraps
         && if left == {} then s'.unshares[i] == Finished(k)
            else exists u :: u in left &&
                   s'.unshares[i] == if s.saved then Listed(k, left - {u}, u) else Removing(k, left - {u})
       case Listed(k, left, u) =>
         s'.live == s.live && s'.wraps == s.wraps - {u} && s'.unshares[i] == Removing(k, left)
       case Finished(_) => false
  }

  ghost predicate Next(r: Recipients, o: Order, s: System, s': System) {
    WriterStep(r, o, s, s') || exists i :: 0 <= i < |s.unshares| && UnshareStep(r, s, s', i)
  }

  /** A new file: no row, no recipient wrapped, and no unshare has begun. */
  ghost predicate Init(o: Order, s: System) {
    && !s.saved && s.wraps == {} && s.writer == (if o == PersistFirst then Unsaved else Start)
    && forall i :: 0 <= i < |s.unshares| ==> s.unshares[i].Waiting?
  }

  ghost predicate NextAt(r: Recipients, o: Order, b: seq<System>, i: nat)
    requires i + 1 < |b|
  {
    Next(r, o, b[i], b[i + 1])
  }

  ghost predicate Path(r: Recipients, o: Order, b: seq<System>) {
    |b| > 0 && forall i :: 0 <= i < |b| - 1 ==> NextAt(r, o, b, i)
  }

  ghost predicate Behaviour(r: Recipients, o: Order, b: seq<System>) {
    Path(r, o, b) && Init(o, b[0])
  }

  ghost predicate Quiet(s: System) {
    s.writer == Done && forall i :: 0 <= i < |s.unshares| ==> s.unshares[i].Finished?
  }

  // ---------- no stale wrap ----------

  /** Somebody still has to look at recipient `u`: the writer before its re-read or with `u` on its list, or
      an unshare with `u` on its list. */
  ghost predicate Pending(s: System, u: Uid) {
    || (s.writer.Wrapping? && u in s.writer.wrapped)
    || (s.writer.Unwrapping? && u in s.writer.drop)
    || exists i :: 0 <= i < |s.unshares| && PendingIn(s.unshares[i], u)
  }

  predicate PendingIn(w: Unshare, u: Uid) {
    (w.Removing? && u in w.left) || (w.Listed? && (u in w.left || u == w.uid))
  }

  /** The row is there from the first wrap on, so every listing from then on finds the file. */
  ghost predicate Inv(r: Recipients, s: System) {
    && (s.writer.Unsaved? ==> s.wraps == {})
    && (!s.writer.Unsaved? ==> s.saved)
    && forall u :: u in s.wraps && u !in Covered(r, s.live) ==> Pending(s, u)
  }

  lemma WriterKeeps(r: Recipients, s: System, s': System)
    requires Inv(r, s) && WriterStep(r, PersistFirst, s, s')
    ensures Inv(r, s')
  {
    hide Covered;
    forall u | u in s'.wraps && u !in Covered(r, s'.live)
      ensures Pending(s', u)
    {
      if u in s.wraps {
        assert Pending(s, u);
      }
    }
  }

  lemma UnshareKeeps(r: Recipients, s: System, s': System, i: nat)
    requires Inv(r, s) && i < |s.unshares| && UnshareStep(r, s, s', i)
    ensures Inv(r, s')
  {
    forall u | u in s'.wraps && u !in Covered(r, s'.live)
      ensures Pending(s', u)
    {
      if u in Covered(r, s.live) {
        assert s.unshares[i].Waiting? && PendingIn(s'.unshares[i], u);
      } else {
        assert Pending(s, u);
        if j :| 0 <= j < |s.unshares| && PendingIn(s.unshares[j], u) {
          assert PendingIn(s'.unshares[j], u);
        }
      }
    }
  }

  lemma {:induction false} Invariant(r: Recipients, b: seq<System>, n: nat)
    requires Behaviour(r, PersistFirst, b) && n < |b|
    ensures Inv(r, b[n])
  {
    hide Inv, WriterStep, UnshareStep;
    if n > 0 {
      Invariant(r, b, n - 1);
      assert NextAt(r, PersistFirst, b, n - 1);
      var s, s' := b[n - 1], b[n];
      if WriterStep(r, PersistFirst, s, s') {
        WriterKeeps(r, s, s');
      } else {
        var i :| 0 <= i < |s.unshares| && UnshareStep(r, s, s', i);
        UnshareKeeps(r, s, s', i);
      }
    } else {
      InitInv(r, b[0]);
    }
  }

  lemma InitInv(r: Recipients, s: System)
    requires Init(PersistFirst, s)
    ensures Inv(r, s)
  {
  }

  /** Over every interleaving: once the writer and all unshares are through, every wrapped recipient is
      covered by a share that is still there. */
  lemma NoStaleWrap(r: Recipients, b: seq<System>, n: nat)
    requires Behaviour(r, PersistFirst, b) && n < |b| && Quiet(b[n])
    ensures b[n].wraps <= Covered(r, b[n].live)
  {
    Invariant(r, b, n);
  }

  // ---------- recipients nobody unshares ----------

  ghost predicate Untouched(r: Recipients, s: System, u: Uid) {
    forall i :: 0 <= i < |s.unshares| ==> s.unshares[i].share !in r || u !in r[s.unshares[i].share]
  }

  /** The loops still have `u` ahead of them. */
  ghost predicate Ahead(r: Recipients, shares: seq<ShareId>, uids: seq<Uid>, u: Uid) {
    u in uids || exists k :: k in shares && k in r && u in r[k]
  }

  /** A covered recipient on the way to its wrap. */
  ghost predicate OnTrack(r: Recipients, s: System, u: Uid) {
    && Untouched(r, s, u) && u in Covered(r, s.live)
    && (forall i :: 0 <= i < |s.unshares| ==> !PendingIn(s.unshares[i], u))
    && match s.writer
       case Unsaved => true
       case Start => true
       case Wrapping(shares, uids, wrapped) => Ahead(r, shares, uids, u) || (u in s.wraps && u in wrapped)
       case Unwrapping(drop) => u in s.wraps && u !in drop
       case Done => u in s.wraps
  }

  lemma TrackWriter(r: Recipients, s: System, s': System, u: Uid)
    requires OnTrack(r, s, u) && WriterStep(r, PersistFirst, s, s')
    ensures OnTrack(r, s', u)
  {
    if s.writer == Start {
      var k :| k in s.live && k in r && u in r[k];
      assert k in s.live * r.Keys;
      assert Ahead(r, s'.writer.shares, s'.writer.uids, u);
    } else if s.writer.Wrapping? && Ahead(r, s.writer.shares, s.writer.uids, u) {
      LoopTurn(r, s, s', u);
    }
  }

  lemma LoopTurn(r: Recipients, s: System, s': System, u: Uid)
    requires WriterStep(r, PersistFirst, s, s') && s.writer.Wrapping? && Ahead(r, s.writer.shares, s.writer.uids, u)
    ensures s'.writer.Wrapping?
    ensures Ahead(r, s'.writer.shares, s'.writer.uids, u) || (u in s'.wraps && u in s'.writer.wrapped)
  {
    var shares, uids := s.writer.shares, s.writer.uids;
    if uids != [] {
      assert uids == [uids[0]] + uids[1..];
    } else {
      assert shares == [shares[0]] + shares[1..];
    }
  }

  lemma TrackUnshare(r: Recipients, s: System, s': System, u: Uid, i: nat)
    requires OnTrack(r, s, u) && i < |s.unshares| && UnshareStep(r, s, s', i)
    ensures OnTrack(r, s', u)
  {
    hide Ahead;
    var k :| k in s.live && k in r && u in r[k];
    assert s'.unshares[i].share == s.unshares[i].share;
    assert !PendingIn(s.unshares[i], u);
    assert k in s'.live;
    assert forall j :: 0 <= j < |s'.unshares| ==> s'.unshares[j].share == s.unshares[j].share;
  }

  lemma {:induction false} StaysOnTrack(r: Recipients, b: seq<System>, n: nat, u: Uid)
    requires Behaviour(r, PersistFirst, b) && n < |b| && Untouched(r, b[0], u) && u in Covered(r, b[0].live)
    ensures OnTrack(r, b[n], u)
  {
    if n > 0 {
      StaysOnTrack(r, b, n - 1, u);
      assert NextAt(r, PersistFirst, b, n - 1);
      var s, s' := b[n - 1], b[n];
      hide Covered, OnTrack;
      if WriterStep(r, PersistFirst, s, s') {
        TrackWriter(r, s, s', u);
      } else {
        var i :| 0 <= i < |s.unshares| && UnshareStep(r, s, s', i);
        TrackUnshare(r, s, s', u, i);
      }
    }
  }

  /** A recipient that no unshared share lists ends up wrapped exactly when a share covers it. */
  lemma UntouchedWrappedIffCovered(r: Recipients, b: seq<System>, n: nat, u: Uid)
    requires Behaviour(r, PersistFirst, b) && n < |b| && Quiet(b[n]) && Untouched(r, b[0], u)
    ensures u in b[n].wraps <==> u in Covered(r, b[0].live)
  {
    if u in Covered(r, b[0].live) {
      StaysOnTrack(r, b, n, u);
    } else {
      NoStaleWrap(r, b, n);
      SharesOnlyVanish(r, b, n);
    }
  }

  lemma {:induction false} SharesOnlyVanish(r: Recipients, b: seq<System>, n: nat)
    requires Behaviour(r, PersistFirst, b) && n < |b|
    ensures b[n].live <= b[0].live
  {
    if n > 0 {
      SharesOnlyVanish(r, b, n - 1);
      assert NextAt(r, PersistFirst, b, n - 1);
    }
  }

  // ---------- runs to the end ----------

  /** There is a path from `s` to `e`. */
  ghost predicate Leads(r: Recipients, o: Order, s: System, e: System) {
    exists b :: Path(r, o, b) && b[0] == s && b[|b| - 1] == e
  }

  lemma LeadsHere(r: Recipients, o: Order, s: System)
    ensures Leads(r, o, s, s)
  {
    assert Path(r, o, [s]);
  }

  /** One more step in front. */
  lemma LeadsOn(r: Recipients, o: Order, s: System, m: System, e: System)
    requires Next(r, o, s, m) && Leads(r, o, m, e)
    ensures Leads(r, o, s, e)
  {
    hide Next;
    var b :| Path(r, o, b) && b[0] == m && b[|b| - 1] == e;
    var b' := [s] + b;
    forall i | 0 <= i < |b'| - 1
      ensures NextAt(r, o, b', i)
    {
      if i > 0 {
        assert NextAt(r, o, b, i - 1);
      }
    }
    assert Path(r, o, b');
  }

  lemma {:induction false} LeadsThrough(r: Recipients, o: Order, b: seq<System>, e: System)
    requires Path(r, o, b) && Leads(r, o, b[|b| - 1], e)
    ensures Leads(r, o, b[0], e)
    decreases |b|
  {
    hide Next, Leads;
    if |b| > 1 {
      var c := b[..|b| - 1];
      forall i | 0 <= i < |c| - 1
        ensures NextAt(r, o, c, i)
      {
        assert NextAt(r, o, b, i);
      }
      assert NextAt(r, o, b, |b| - 2);
      LeadsOn(r, o, c[|c| - 1], b[|b| - 1], e);
      LeadsThrough(r, o, c, e);
    }
  }

  lemma {:induction false} Listing<T(!new)>(s: set<T>) returns (l: seq<T>)
    ensures Lists(l, s)
  {
    if s == {} {
      l := [];
    } else {
      var x :| x in s;
      l := Listing(s - {x});
      l := [x] + l;
    }
  }

  /** Where a write that runs on alone ends. */
  ghost predicate WriteEnd(s: System, e: System) {
    e.live == s.live && e.unshares == s.unshares && e.saved && e.writer == Done
  }

  lemma {:induction false} DropsFinish(r: Recipients, s: System) returns (e: System)
    requires s.saved && s.writer.Unwrapping?
    ensures Leads(r, PersistFirst, s, e) && WriteEnd(s, e)
    decreases |s.writer.drop|
  {
    hide Leads;
    var m: System;
    if s.writer.drop == {} {
      m := s.(writer := Done);
      e := m;
      LeadsHere(r, PersistFirst, e);
    } else {
      var u :| u in s.writer.drop;
      m := s.(wraps := s.wraps - {u}, writer := Unwrapping(s.writer.drop - {u}));
      e := DropsFinish(r, m);
    }
    assert WriterStep(r, PersistFirst, s, m);
    LeadsOn(r, PersistFirst, s, m, e);
  }

  lemma {:induction false} LoopsFinish(r: Recipients, s: System) returns (e: System)
    requires s.saved && s.writer.Wrapping? && forall k :: k in s.writer.shares ==> k in r
    ensures Leads(r, PersistFirst, s, e) && WriteEnd(s, e)
    decreases |s.writer.shares|, |s.writer.uids|
  {
    hide Leads;
    var w := s.writer;
    var m: System;
    if w.uids != [] {
      m := s.(wraps := s.wraps + {w.uids[0]}, writer := Wrapping(w.shares, w.uids[1..], w.wrapped + {w.uids[0]}));
      e := LoopsFinish(r, m);
    } else if w.shares != [] {
      var uids := Listing(r[w.shares[0]]);
      m := s.(writer := Wrapping(w.shares[1..], uids, w.wrapped));
      e := LoopsFinish(r, m);
    } else if w.wrapped == {} {
      m := s.(writer := Done);
      e := m;
      LeadsHere(r, PersistFirst, e);
    } else {
      m := s.(writer := Unwrapping(w.wrapped - Covered(r, s.live)));
      e := DropsFinish(r, m);
    }
    assert WriterStep(r, PersistFirst, s, m);
    LeadsOn(r, PersistFirst, s, m, e);
  }

  lemma WriteFinishes(r: Recipients, s: System) returns (e: System)
    requires s.writer == Unsaved
    ensures Leads(r, PersistFirst, s, e) && WriteEnd(s, e)
  {
    hide Leads;
    var m1 := s.(saved := true, writer := Start);
    assert WriterStep(r, PersistFirst, s, m1);
    var m2: System;
    if s.live * r.Keys == {} {
      m2 := m1.(writer := Done);
      e := m2;
      LeadsHere(r, PersistFirst, e);
    } else {
      var shares := Listing(s.live * r.Keys);
      m2 := m1.(writer := Wrapping(shares, [], {}));
      e := LoopsFinish(r, m2);
    }
    assert WriterStep(r, PersistFirst, m1, m2);
    LeadsOn(r, PersistFirst, m1, m2, e);
    LeadsOn(r, PersistFirst, s, m1, e);
  }

  /** An unshare that has not begun and lists `u`. */
  predicate WillRemove(r: Recipients, w: Unshare, u: Uid) {
    w.Waiting? && w.share in r && u in r[w.share]
  }

  /** Where unshare `i` of a quiet write ends when it runs on alone: it adds no wrap and removes those it has
      still ahead of it. */
  ghost predicate UnshareEnd(r: Recipients, s: System, e: System, i: nat)
    requires i < |s.unshares|
  {
    && e.saved && e.writer == Done && |e.unshares| == |s.unshares|
    && (forall j :: 0 <= j < |s.unshares| && j != i ==> e.unshares[j] == s.unshares[j])
    && e.unshares[i] == Finished(s.unshares[i].share)
    && e.wraps <= s.wraps && e.live == (if s.unshares[i].Waiting? then s.live - {s.unshares[i].share} else s.live)
    && forall u :: PendingIn(s.unshares[i], u) || WillRemove(r, s.unshares[i], u) ==> u !in e.wraps
  }

  function StepsLeft(w: Unshare): nat
    requires !w.Waiting?
  {
    match w
    case Removing(_, left) => 2 * |left| + 1
    case Listed(_, left, _) => 2 * |left| + 2
    case Finished(_) => 0
  }

  lemma {:induction false} RemovalFinishes(r: Recipients, s: System, i: nat) returns (e: System)
    requires s.saved && s.writer == Done && i < |s.unshares| && !s.unshares[i].Waiting?
    ensures Leads(r, PersistFirst, s, e) && UnshareEnd(r, s, e, i)
    decreases StepsLeft(s.unshares[i])
  {
    hide Leads;
    var w := s.unshares[i];
    var m: System;
    if w.Finished? {
      e := s;
      LeadsHere(r, PersistFirst, s);
      return;
    } else if w.Listed? {
      m := s.(wraps := s.wraps - {w.uid}, unshares := s.unshares[i := Removing(w.share, w.left)]);
      e := RemovalFinishes(r, m, i);
    } else if w.left == {} {
      m := s.(unshares := s.unshares[i := Finished(w.share)]);
      e := m;
      LeadsHere(r, PersistFirst, e);
    } else {
      var u :| u in w.left;
      m := s.(unshares := s.unshares[i := Listed(w.share, w.left - {u}, u)]);
      e := RemovalFinishes(r, m, i);
    }
    assert UnshareStep(r, s, m, i);
    LeadsOn(r, PersistFirst, s, m, e);
  }

  lemma UnshareFinishes(r: Recipients, s: System, i: nat) returns (e: System)
    requires s.saved && s.writer == Done && i < |s.unshares|
    ensures Leads(r, PersistFirst, s, e) && UnshareEnd(r, s, e, i)
  {
    hide Leads;
    var w := s.unshares[i];
    if w.Waiting? {
      var left := if w.share in r then r[w.share] else {};
      var m := s.(live := s.live - {w.share}, unshares := s.unshares[i := Removing(w.share, left)]);
      assert UnshareStep(r, s, m, i);
      e := RemovalFinishes(r, m, i);
      LeadsOn(r, PersistFirst, s, m, e);
    } else {
      e := RemovalFinishes(r, s, i);
    }
  }

  lemma LeadsJoin(r: Recipients, o: Order, s: System, m: System, e: System)
    requires Leads(r, o, s, m) && Leads(r, o, m, e)
    ensures Leads(r, o, s, e)
  {
    var b :| Path(r, o, b) && b[0] == s && b[|b| - 1] == m;
    hide Leads;
    LeadsThrough(r, o, b, e);
  }

  /** The unshares from number `i` on, one after the other: afterwards none of them has left a wrap it had
      ahead of it when it began. */
  lemma {:induction false} AllFinish(r: Recipients, s: System, i: nat) returns (e: System)
    requires s.saved && s.writer == Done && i <= |s.unshares|
    requires forall j :: 0 <= j < i ==> s.unshares[j].Finished?
    ensures Leads(r, PersistFirst, s, e) && Quiet(e) && e.wraps <= s.wraps
    ensures forall j, u :: i <= j < |s.unshares| && WillRemove(r, s.unshares[j], u) ==> u !in e.wraps
    decreases |s.unshares| - i
  {
    hide Leads;
    if i == |s.unshares| {
      e := s;
      LeadsHere(r, PersistFirst, s);
    } else {
      var m := UnshareFinishes(r, s, i);
      e := AllFinish(r, m, i + 1);
      LeadsJoin(r, PersistFirst, s, m, e);
    }
  }

  /** `u` is wrapped at the end of every run from `s`, however it is interleaved. */
  ghost predicate AlwaysWrapped(r: Recipients, s: System, u: Uid) {
    forall e :: Leads(r, PersistFirst, s, e) && Quiet(e) ==> u in e.wraps
  }

  /** A covered recipient is certain to end up wrapped exactly when no unshare lists it. */
  lemma AlwaysWrappedIffUntouched(r: Recipients, s: System, u: Uid)
    requires Init(PersistFirst, s) && u in Covered(r, s.live)
    ensures AlwaysWrapped(r, s, u) <==> Untouched(r, s, u)
  {
    hide Covered, Next;
    if Untouched(r, s, u) {
      forall e | Leads(r, PersistFirst, s, e) && Quiet(e)
        ensures u in e.wraps
      {
        var b :| Path(r, PersistFirst, b) && b[0] == s && b[|b| - 1] == e;
        UntouchedWrappedIffCovered(r, b, |b| - 1, u);
      }
    } else {
      var e := LosingRun(r, s, u);
    }
  }

  /** The run in which the write goes first and the unshares follow ends without the wrap. */
  lemma LosingRun(r: Recipients, s: System, u: Uid) returns (e: System)
    requires Init(PersistFirst, s) && !Untouched(r, s, u)
    ensures Leads(r, PersistFirst, s, e) && Quiet(e) && u !in e.wraps
  {
    hide Leads;
    var m := WriteFinishes(r, s);
    e := AllFinish(r, m, 0);
    LeadsJoin(r, PersistFirst, s, m, e);
  }

  /** With two shares for the same recipient, taking one back can unwrap a recipient the other still covers. */
  lemma OverlapLosesWrap() returns (r: Recipients, s: System, e: System, u: Uid)
    ensures Init(PersistFirst, s) && Leads(r, PersistFirst, s, e) && Quiet(e)
    ensures u in Covered(r, e.live) && u !in e.wraps
  {
    hide Covered, Leads;
    r, u := map[1 := {7}, 2 := {7}], 7;
    s := System({1, 2}, false, {}, Unsaved, [Waiting(1)]);
    assert s.unshares[0].share == 1 && 1 in r && u in r[1];
    var m := WriteFinishes(r, s);
    e := UnshareFinishes(r, m, 0);
    LeadsJoin(r, PersistFirst, s, m, e);
    CoveredBy(r, e.live, 2, 7);
  }

  lemma CoveredBy(r: Recipients, live: set<ShareId>, s: ShareId, u: Uid)
    requires s in live && s in r && u in r[s]
    ensures u in Covered(r, live)
  {
  }

  // ---------- why the row is persisted first ----------

  ghost predicate NeverStale(o: Order) {
    forall r: Recipients, s: System, e: System ::
      Init(o, s) && Leads(r, o, s, e) && Quiet(e) ==> e.wraps <= Covered(r, e.live)
  }

  /** No stale wrap is left behind exactly when the row is persisted before the wraps are written. */
  lemma OrderDecides(o: Order)
    ensures NeverStale(o) <==> o == PersistFirst
  {
    hide Covered, Next;
    if o == PersistFirst {
      forall r: Recipients, s: System, e: System | Init(o, s) && Leads(r, o, s, e) && Quiet(e)
        ensures e.wraps <= Covered(r, e.live)
      {
        var b :| Path(r, o, b) && b[0] == s && b[|b| - 1] == e;
        NoStaleWrap(r, b, |b| - 1);
      }
    } else {
      var r, s, e := WrapFirstLeaks();
    }
  }

  /** In the other order an unshare between the re-read and the row insert finds no file to unwrap. */
  lemma WrapFirstLeaks() returns (r: Recipients, s: System, e: System)
    ensures Init(WrapFirst, s) && Leads(r, WrapFirst, s, e) && Quiet(e) && !(e.wraps <= Covered(r, e.live))
  {
    hide Leads, Next;
    r := map[1 := {7}];
    s := System({1}, false, {}, Start, [Waiting(1)]);
    e := System({}, true, {7}, Done, [Finished(1)]);
    var s1 := s.(writer := Wrapping([1], [], {}));
    var s2 := s.(writer := Wrapping([], [7], {}));
    var s3 := s.(wraps := {7}, writer := Wrapping([], [], {7}));
    var s4 := s3.(writer := Unwrapping({}));
    var s5 := s3.(writer := Unsaved);
    var s6 := s5.(live := {}, unshares := [Removing(1, {7})]);
    var s7 := s6.(unshares := [Removing(1, {})]);
    var s8 := s7.(unshares := [Finished(1)]);
    LeakWriter(r, s, s1, s2, s3, s4, s5, s8, e);
    LeakUnshare(r, s5, s6, s7, s8);
    LeadsHere(r, WrapFirst, e);
    LeadsOn(r, WrapFirst, s8, e, e);
    LeadsOn(r, WrapFirst, s7, s8, e);
    LeadsOn(r, WrapFirst, s6, s7, e);
    LeadsOn(r, WrapFirst, s5, s6, e);
    LeadsOn(r, WrapFirst, s4, s5, e);
    LeadsOn(r, WrapFirst, s3, s4, e);
    LeadsOn(r, WrapFirst, s2, s3, e);
    LeadsOn(r, WrapFirst, s1, s2, e);
    LeadsOn(r, WrapFirst, s, s1, e);
  }

  lemma LeakWriter(r: Recipients, s: System, s1: System, s2: System, s3: System, s4: System, s5: System, s8: System,
                   e: System)
    requires r == map[1 := {7}] && s == System({1}, false, {}, Start, [Waiting(1)])
    requires s1 == s.(writer := Wrapping([1], [], {})) && s2 == s.(writer := Wrapping([], [7], {}))
    requires s3 == s.(wraps := {7}, writer := Wrapping([], [], {7}))
    requires s4 == s3.(writer := Unwrapping({})) && s5 == s3.(writer := Unsaved)
    requires s8 == System({}, false, {7}, Unsaved, [Finished(1)]) && e == System({}, true, {7}, Done, [Finished(1)])
    ensures Next(r, WrapFirst, s, s1) && Next(r, WrapFirst, s1, s2) && Next(r, WrapFirst, s2, s3)
    ensures Next(r, WrapFirst, s3, s4) && Next(r, WrapFirst, s4, s5) && Next(r, WrapFirst, s8, e)
  {
    CoveredBy(r, {1}, 1, 7);
    assert {1} * r.Keys == {1} && Covered(r, {1}) == {7} && {7} - {7} == {};
    assert [1][1..] == [] && [7][1..] == [];
    assert WriterStep(r, WrapFirst, s, s1);
    assert WriterStep(r, WrapFirst, s1, s2);
    assert WriterStep(r, WrapFirst, s2, s3);
    assert WriterStep(r, WrapFirst, s3, s4);
    assert WriterStep(r, WrapFirst, s4, s5);
    assert WriterStep(r, WrapFirst, s8, e);
  }

  lemma LeakUnshare(r: Recipients, s5: System, s6: System, s7: System, s8: System)
    requires r == map[1 := {7}] && s5 == System({1}, false, {7}, Unsaved, [Waiting(1)])
    requires s6 == System({}, false, {7}, Unsaved, [Removing(1, {7})])
    requires s7 == System({}, false, {7}, Unsaved, [Removing(1, {})])
    requires s8 == System({}, false, {7}, Unsaved, [Finished(1)])
    ensures Next(r, WrapFirst, s5, s6) && Next(r, WrapFirst, s6, s7) && Next(r, WrapFirst, s7, s8)
  {
    assert {1} - {1} == {} && {7} - {7} == {};
    assert UnshareStep(r, s5, s6, 0);
    assert UnshareStep(r, s6, s7, 0);
    assert UnshareStep(r, s7, s8, 0);
  }
}
