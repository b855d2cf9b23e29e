/** The guarded transaction of a name sweep (internal/files/namesweep.go:1148-1265). */
module SweepCommit {
  import opened Common
  import opened Paths
  import opened Filecache
  import opened NameTranslation
  import opened SweepPlan
  import opened NameSweep
  import opened Satellites

  /** What an UPDATE does to key_uuid: leave it, claim it while it is NULL, or clear it. */
  datatype KeyWrite = KeepKey | ClaimKey(key: Key) | ClearKey

  datatype RowWrite = RowWrite(name: string, path: string, scheme: int, key: KeyWrite)

  /** The tables the transaction writes: the user's scheme, the files rows and the satellite rows of the three
      tables, under one numbering. */
  datatype Db = Db(scheme: int, files: Table, sats: map<Id, Sat>)

  /** A plan ready to commit: the loaded row ids in order, their updates, the lock updates, the direction. */
  datatype Job = Job(ids: seq<Id>, writes: map<Id, RowWrite>, satIds: seq<Id>, satPaths: map<Id, string>,
                     oldScheme: int, newScheme: int)

  function WrittenRow(r: Row, w: RowWrite): Row {
    r.(name := w.name, path := w.path, scheme := w.scheme,
       key := match w.key case KeepKey => r.key case ClaimKey(k) => Some(k) case ClearKey => None)
  }

  /** One UPDATE of files: it must hit exactly one row, and the unique index must accept the path. */
  predicate Accepts(t: Table, x: Id, w: RowWrite) {
    && x in t
    && (w.key.ClaimKey? ==> t[x].key.None?)
    && forall y :: y in t && y != x ==> t[y].path != w.path
  }

  ghost function ApplyAll(t: Table, ids: seq<Id>, writes: map<Id, RowWrite>): Result<Table> {
    if ids == [] then Ok(t)
    else if ids[0] !in writes || !Accepts(t, ids[0], writes[ids[0]]) then Err(Conflict)
    else ApplyAll(t[ids[0] := WrittenRow(t[ids[0]], writes[ids[0]])], ids[1..], writes)
  }

  /** One UPDATE of a satellite row: the unique key of its table must accept the path. */
  predicate AcceptsSat(sats: map<Id, Sat>, l: Id, p: string) {
    l in sats && forall k :: k in sats && k != l ==> sats[k] != sats[l].(path := p)
  }

  ghost function ApplySats(sats: map<Id, Sat>, ids: seq<Id>, paths: map<Id, string>): Result<map<Id, Sat>> {
    if ids == [] then Ok(sats)
    else if ids[0] !in paths || !AcceptsSat(sats, ids[0], paths[ids[0]]) then Err(Conflict)
    else ApplySats(sats[ids[0] := sats[ids[0]].(path := paths[ids[0]])], ids[1..], paths)
  }

  /** The transaction: all updates and, last, the scheme flip guarded on the old scheme; or nothing. */
  ghost function Commit(db: Db, job: Job): Result<Db> {
    match ApplyAll(db.files, job.ids, job.writes)
    case Err(e) => Err(e)
    case Ok(files) =>
      match ApplySats(db.sats, job.satIds, job.satPaths)
      case Err(e) => Err(e)
      case Ok(sats) =>
        if db.scheme != job.oldScheme then Err(Conflict) else Ok(Db(job.newScheme, files, sats))
  }

  class Database {
    var scheme: int
    var files: Table
    var sats: map<Id, Sat>

    ghost function State(): Db
      reads this
    {
      Db(scheme, files, sats)
    }

    /** commitPlan: the updates run one by one on the transaction's own state and become visible together. */
    method CommitPlan(job: Job) returns (committed: bool)
      modifies this
      ensures committed <==> Commit(old(State()), job).Ok?
      ensures State() == if committed then Commit(old(State()), job).value else old(State())
    {
      var t := files;
      for i := 0 to |job.ids|
        invariant State() == old(State())
        invariant ApplyAll(files, job.ids, job.writes) == ApplyAll(t, job.ids[i..], job.writes)
      {
        var x := job.ids[i];
        assert job.ids[i..][1..] == job.ids[i + 1..];
        if x !in job.writes || !Accepts(t, x, job.writes[x]) {
          return false;
        }
        t := t[x := WrittenRow(t[x], job.writes[x])];
      }
      assert job.ids[|job.ids|..] == [];
      var ls := sats;
      for i := 0 to |job.satIds|
        invariant State() == old(State())
        invariant ApplySats(sats, job.satIds, job.satPaths) == ApplySats(ls, job.satIds[i..], job.satPaths)
      {
        var l := job.satIds[i];
        assert job.satIds[i..][1..] == job.satIds[i + 1..];
        if l !in job.satPaths || !AcceptsSat(ls, l, job.satPaths[l]) {
          return false;
        }
        ls := ls[l := ls[l].(path := job.satPaths[l])];
      }
      assert job.satIds[|job.satIds|..] == [];
      if scheme != job.oldScheme {
        return false;
      }
      files, sats, scheme := t, ls, job.newScheme;
      return true;
    }
  }

  // ---------- what a commit leaves behind ----------

  lemma {:induction false} ApplyAllResult(t: Table, ids: seq<Id>, writes: map<Id, RowWrite>)
    requires NoRepeats(ids) && ApplyAll(t, ids, writes).Ok?
    ensures var u := ApplyAll(t, ids, writes).value;
            && u.Keys == t.Keys
            && (forall x :: x in ids ==> x in t && x in writes && u[x] == WrittenRow(t[x], writes[x]))
            && forall x :: x in t && x !in ids ==> u[x] == t[x]
    decreases |ids|
  {
    if ids != [] {
      var x := ids[0];
      var t1 := t[x := WrittenRow(t[x], writes[x])];
      assert NoRepeats(ids[1..]);
      assert t1.Keys == t.Keys;
      assert x !in ids[1..];
      ApplyAllResult(t1, ids[1..], writes);
      assert forall y :: y in ids <==> y == x || y in ids[1..];
    }
  }

  /** A loaded row the plan has missed makes the commit fail. */
  lemma {:induction false} MissedRowFails(t: Table, ids: seq<Id>, writes: map<Id, RowWrite>, x: Id)
    requires x in ids && x !in writes
    ensures ApplyAll(t, ids, writes).Err?
    decreases |ids|
  {
    if ids[0] in writes && Accepts(t, ids[0], writes[ids[0]]) {
      MissedRowFails(t[ids[0] := WrittenRow(t[ids[0]], writes[ids[0]])], ids[1..], writes, x);
    }
  }

  /** The update commitPlan issues for a row in the encrypting direction. */
  function EncryptWrite(r: Row, x: Id, keys: map<Id, Key>, name: string, path: string): RowWrite {
    RowWrite(name, path, NCGOFN1, if r.isDir && r.key.None? && x in keys then ClaimKey(keys[x]) else KeepKey)
  }

  /** `job` is what an EncryptUser run planned from the tree `t` it loaded and the lock rows it read. */
  ghost predicate EncryptJob(c: Cipher, t: Table, keys: map<Id, Key>, root: Id, plan: Plan, sats: map<Id, Sat>,
                             job: Job) {
    && NoRepeats(job.ids) && (forall x :: x in job.ids <==> x in t)
    && job.writes.Keys == plan.names.Keys
    && (forall x :: x in job.writes && x in t && x in plan.paths ==>
          job.writes[x] == EncryptWrite(t[x], x, keys, plan.names[x], plan.paths[x]))
    && job.oldScheme == 0 && job.newScheme == NCGOFN1
    && SatsPlanned(c, t, keys, root, true, sats, job.satIds, job.satPaths)
  }

  /** A committed encrypting sweep turns the files table into the swept tree. */
  lemma CommitSweeps(c: Cipher, db: Db, keys: map<Id, Key>, root: Id, plan: Plan, sats: map<Id, Sat>, job: Job)
    requires Tree(db.files) && Keyed(db.files, keys) && root in db.files && db.files[root].parent.None?
    requires PlanFor(db.files, root, EncryptConv(c, db.files, keys), Some(MAX_CIPHER_PATH), plan)
    requires EncryptJob(c, db.files, keys, root, plan, sats, job) && Commit(db, job).Ok?
    ensures EncryptPlan(c, db.files, keys, root, plan)
    ensures Commit(db, job).value.files == Swept(db.files, keys, plan)
    ensures Commit(db, job).value.scheme == NCGOFN1
  {
    hide PlanFor, Tree, ApplyAll, ApplySats, EncryptConv, Keyed, CipherFor, Swept;
    var t := db.files;
    PlannedStored(t, root, EncryptConv(c, t, keys), Some(MAX_CIPHER_PATH), plan);
    AllPlanned(t, plan, job);
    ApplyAllResult(t, job.ids, job.writes);
    assert EncryptPlan(c, t, keys, root, plan);
    hide EncryptPlan;
    SweptKeys(t, keys, plan);
    forall x | x in t
      ensures Commit(db, job).value.files[x] == Swept(t, keys, plan)[x]
    {
      CommittedRow(c, t, keys, root, plan, sats, job, x);
    }
    SameRows(Commit(db, job).value.files, Swept(t, keys, plan));
  }

  lemma AllPlanned(t: Table, plan: Plan, job: Job)
    requires (forall x :: x in job.ids <==> x in t) && job.writes.Keys == plan.names.Keys
    requires plan.names.Keys <= t.Keys && ApplyAll(t, job.ids, job.writes).Ok?
    ensures plan.names.Keys == t.Keys
  {
    hide ApplyAll;
    forall x | x in t
      ensures x in plan.names
    {
      if x !in job.writes {
        MissedRowFails(t, job.ids, job.writes, x);
      }
    }
  }

  lemma SweptKeys(t: Table, keys: map<Id, Key>, plan: Plan)
    requires t.Keys <= plan.names.Keys && t.Keys <= plan.paths.Keys
    ensures Swept(t, keys, plan).Keys == t.Keys
  {
  }

  lemma CommittedRow(c: Cipher, t: Table, keys: map<Id, Key>, root: Id, plan: Plan, sats: map<Id, Sat>, job: Job,
                     x: Id)
    requires EncryptPlan(c, t, keys, root, plan) && EncryptJob(c, t, keys, root, plan, sats, job) && x in t
    ensures x in job.writes && t.Keys <= plan.names.Keys && t.Keys <= plan.paths.Keys
    ensures WrittenRow(t[x], job.writes[x]) == Swept(t, keys, plan)[x]
  {
    hide Tree, PlanFor, CipherFor;
    PlanCovers(c, t, keys, root, plan);
  }

  lemma PlannedStored(t: Table, root: Id, conv: Conversion, limit: Option<nat>, plan: Plan)
    requires root in t && PlanFor(t, root, conv, limit, plan)
    ensures plan.names.Keys <= t.Keys && plan.paths.Keys == plan.names.Keys
  {
    forall x | x in plan.names
      ensures x in t
    {
      if x != root {
        assert PlanRow(t, conv, limit, plan, x);
      }
    }
  }

  lemma {:induction false} ApplySatsResult(sats: map<Id, Sat>, ids: seq<Id>, paths: map<Id, string>)
    requires NoRepeats(ids) && ApplySats(sats, ids, paths).Ok?
    ensures var u := ApplySats(sats, ids, paths).value;
            && u.Keys == sats.Keys
            && (forall l :: l in ids ==> l in sats && l in paths && u[l] == sats[l].(path := paths[l]))
            && forall l :: l in sats && l !in ids ==> u[l] == sats[l]
    decreases |ids|
  {
    if ids != [] {
      var x := ids[0];
      var t1 := sats[x := sats[x].(path := paths[x])];
      assert NoRepeats(ids[1..]);
      assert t1.Keys == sats.Keys;
      assert x !in ids[1..];
      ApplySatsResult(t1, ids[1..], paths);
      assert forall y :: y in ids <==> y == x || y in ids[1..];
    }
  }

  /** After the commit a converted satellite row, a lock, a version or a favourite, is still the same row, and sits
      at the path the translating stores compute from its old plaintext path exactly when the leaf name is within
      255 runes. */
  lemma SatelliteStays(c: Cipher, db: Db, keys: map<Id, Key>, root: Id, plan: Plan, job: Job, l: Id)
    requires EncryptPlan(c, db.files, keys, root, plan) && EncryptJob(c, db.files, keys, root, plan, db.sats, job)
    requires Commit(db, job).Ok? && l in db.sats && CipherFor(c, db.files, keys, root, db.sats[l].path).Ok?
    ensures var after := Commit(db, job).value.sats;
            l in after && after[l] == db.sats[l].(path := after[l].path)
    ensures var p, np := db.sats[l].path, Normalize(db.sats[l].path).value;
            CipherPath(c, Swept(db.files, keys, plan), NCGOFN1, p) == Ok(Commit(db, job).value.sats[l].path) <==>
              np == "/" || |Base(np)| <= MAX_NAME_RUNES
  {
    hide EncryptPlan, Swept, CipherFor, CipherPath, Normalize, ApplyAll, ApplySats, Base;
    PlanCovers(c, db.files, keys, root, plan);
    ConvertedNormal(c, db.files, keys, root, db.sats[l].path);
    SatelliteFound(c, db.files, keys, root, plan, db.sats[l].path);
    ApplySatsResult(db.sats, job.satIds, job.satPaths);
  }

  /** Every satellite row after the commit: in a folder of the tree it has the token of its name behind the folder's
      new path, whether or not its own entry is there; in no folder it is left as it was. */
  lemma SatelliteRows(c: Cipher, db: Db, keys: map<Id, Key>, root: Id, plan: Plan, job: Job, l: Id)
    requires EncryptPlan(c, db.files, keys, root, plan) && EncryptJob(c, db.files, keys, root, plan, db.sats, job)
    requires Commit(db, job).Ok? && l in db.sats
    ensures Commit(db, job).value.sats.Keys == db.sats.Keys && Normalize(db.sats[l].path).Ok?
    ensures var t, np, before, after :=
              db.files, Normalize(db.sats[l].path).value, db.sats[l], Commit(db, job).value.sats[l];
            && after == before.(path := after.path)
            && (np == "/" ==> after.path == "/")
            && (np != "/" ==> forall d :: d in t && t[d].isDir && t[d].path == Dir(np) ==>
                                d in keys && d in plan.paths && |after.path| <= 768
                                && after.path == TokenUnder(c, keys, plan, d, Base(np)))
            && (np != "/" && !FolderAt(t, Dir(np)) ==> after == before)
  {
    hide EncryptPlan, EncryptJob, Commit, CipherFor, Normalize, Base, Dir, TokenUnder, Tree, EndsAt, Canonical;
    var t, p := db.files, db.sats[l].path;
    RowAfter(c, db, keys, root, plan, job, l);
    PlanTree(c, t, keys, root, plan);
    PlanCovers(c, t, keys, root, plan);
    ConversionNormal(c, t, keys, root, p);
    var np := Normalize(p).value;
    if np != "/" {
      forall d | d in t && t[d].isDir && t[d].path == Dir(np)
        ensures d in keys && d in plan.paths && CipherFor(c, t, keys, root, p) ==
          if |TokenUnder(c, keys, plan, d, Base(np))| <= 768 then Ok(TokenUnder(c, keys, plan, d, Base(np)))
          else Err(NameBudget)
      {
        ConvertsInFolder(c, t, keys, root, plan, p, np, d);
      }
      if !FolderAt(t, Dir(np)) {
        NormalizeCanonical(p);
        var d, n, rest := ParentOrEnd(t, root, np);
        ConversionEnds(c, t, keys, root, plan, p, np, d, n, rest);
      }
    }
  }

  /** A satellite row after the commit, by what its path converts to. */
  lemma RowAfter(c: Cipher, db: Db, keys: map<Id, Key>, root: Id, plan: Plan, job: Job, l: Id)
    requires EncryptJob(c, db.files, keys, root, plan, db.sats, job) && Commit(db, job).Ok? && l in db.sats
    ensures Commit(db, job).value.sats.Keys == db.sats.Keys
    ensures var r, before, after :=
              CipherFor(c, db.files, keys, root, db.sats[l].path), db.sats[l], Commit(db, job).value.sats[l];
            && (r.Ok? || PassedOver(r))
            && after == before.(path := if r.Ok? then r.value else before.path)
  {
    hide CipherFor, ApplyAll, ApplySats;
    ApplySatsResult(db.sats, job.satIds, job.satPaths);
  }

  lemma ConversionNormal(c: Cipher, t: Table, keys: map<Id, Key>, root: Id, p: string)
    ensures Normalize(p).Err? ==> CipherFor(c, t, keys, root, p) == Err(InvalidPath)
    ensures Normalize(p) == Ok("/") ==> CipherFor(c, t, keys, root, p) == Ok("/")
  {
  }

  lemma ConvertedNormal(c: Cipher, t: Table, keys: map<Id, Key>, root: Id, p: string)
    requires CipherFor(c, t, keys, root, p).Ok?
    ensures Normalize(p).Ok?
  {
    hide Normalize;
  }

  // ---------- when the transaction commits ----------

  /** The unique key row `y` has when the update of row `ids[i]` comes: its new one if it had its turn. */
  ghost function AtTurn<K>(old': map<Id, K>, new': map<Id, K>, ids: seq<Id>, i: nat, y: Id): K
    requires i <= |ids| && y in old' && forall x :: x in ids ==> x in new'
  {
    if y in ids[..i] then new'[y] else old'[y]
  }

  /** Row by row, no new key is taken at its turn. */
  ghost predicate FreeAtTurns<K(!new)>(old': map<Id, K>, new': map<Id, K>, ids: seq<Id>)
    requires forall x :: x in ids ==> x in new'
  {
    forall i, y :: 0 <= i < |ids| && y in old' && y != ids[i] ==> new'[ids[i]] != AtTurn(old', new', ids, i, y)
  }

  /** Free at every turn is free at the first and free at every one from the second on. */
  lemma FirstTurn<K(!new)>(old': map<Id, K>, new': map<Id, K>, ids: seq<Id>)
    requires ids != [] && ids[0] in old' && ids[0] !in ids[1..]
    requires (forall x :: x in ids ==> x in new') && forall x :: x in ids[1..] ==> x in new'
    ensures FreeAtTurns(old', new', ids) <==>
              (forall y :: y in old' && y != ids[0] ==> old'[y] != new'[ids[0]])
              && FreeAtTurns(old'[ids[0] := new'[ids[0]]], new', ids[1..])
  {
    var rest, next := ids[1..], old'[ids[0] := new'[ids[0]]];
    forall i, y | 0 <= i < |rest| && y in old'
      ensures AtTurn(next, new', rest, i, y) == AtTurn(old', new', ids, i + 1, y)
    {
      assert ids[..i + 1] == [ids[0]] + rest[..i];
    }
    if FreeAtTurns(old', new', ids) {
      forall y | y in old' && y != ids[0]
        ensures old'[y] != new'[ids[0]]
      {
        assert new'[ids[0]] != AtTurn(old', new', ids, 0, y);
      }
      forall i, y | 0 <= i < |rest| && y in next && y != rest[i]
        ensures new'[rest[i]] != AtTurn(next, new', rest, i, y)
      {
        assert new'[ids[i + 1]] != AtTurn(old', new', ids, i + 1, y);
      }
    }
    if (forall y :: y in old' && y != ids[0] ==> old'[y] != new'[ids[0]]) && FreeAtTurns(next, new', rest) {
      forall i, y | 0 <= i < |ids| && y in old' && y != ids[i]
        ensures new'[ids[i]] != AtTurn(old', new', ids, i, y)
      {
        if i > 0 {
          assert new'[rest[i - 1]] != AtTurn(next, new', rest, i - 1, y);
        }
      }
    }
  }

  lemma NotAgain(ids: seq<Id>)
    requires NoRepeats(ids) && ids != []
    ensures ids[0] !in ids[1..] && NoRepeats(ids[1..])
  {
  }

  ghost function PathsOf(t: Table): map<Id, string> {
    map x | x in t :: t[x].path
  }

  ghost function NewPaths(writes: map<Id, RowWrite>): map<Id, string> {
    map x | x in writes :: writes[x].path
  }

  /** Every update has its row, and a key is claimed only where there is none. */
  ghost predicate Claimable(t: Table, ids: seq<Id>, writes: map<Id, RowWrite>) {
    forall x :: x in ids ==> x in t && x in writes && (writes[x].key.ClaimKey? ==> t[x].key.None?)
  }

  /** On any table the updates go through exactly when they have their rows, claim no key that is there by now, and no
      new path is taken at its turn. */
  lemma {:induction false} ApplyAllExact(t: Table, ids: seq<Id>, writes: map<Id, RowWrite>)
    requires NoRepeats(ids)
    ensures ApplyAll(t, ids, writes).Ok? <==>
              Claimable(t, ids, writes) && FreeAtTurns(PathsOf(t), NewPaths(writes), ids)
    decreases |ids|
  {
    hide FreeAtTurns;
    if ids == [] {
      NoTurns(PathsOf(t), NewPaths(writes));
    } else {
      var x, rest := ids[0], ids[1..];
      NotAgain(ids);
      assert x in ids && forall y :: y in ids <==> y == x || y in rest;
      if x in t && x in writes && (writes[x].key.ClaimKey? ==> t[x].key.None?) {
        var u := t[x := WrittenRow(t[x], writes[x])];
        assert Claimable(u, rest, writes) <==> Claimable(t, ids, writes);
        if Claimable(t, ids, writes) {
          FirstTurn(PathsOf(t), NewPaths(writes), ids);
        }
        assert PathsOf(u) == PathsOf(t)[x := NewPaths(writes)[x]];
        ApplyAllExact(u, rest, writes);
        AcceptsIff(t, x, writes[x]);
      }
    }
  }

  /** The transaction keeps stored paths distinct, whatever the job. */
  lemma {:induction false} UpdatesKeepPathsUnique(t: Table, ids: seq<Id>, writes: map<Id, RowWrite>)
    requires UniquePaths(t) && ApplyAll(t, ids, writes).Ok?
    ensures UniquePaths(ApplyAll(t, ids, writes).value)
    decreases |ids|
  {
    if ids != [] {
      var x := ids[0];
      UpdatesKeepPathsUnique(t[x := WrittenRow(t[x], writes[x])], ids[1..], writes);
    }
  }

  lemma AcceptsIff(t: Table, x: Id, w: RowWrite)
    requires x in t && (w.key.ClaimKey? ==> t[x].key.None?)
    ensures Accepts(t, x, w) <==> forall y :: y in PathsOf(t) && y != x ==> PathsOf(t)[y] != w.path
  {
    if forall y :: y in PathsOf(t) && y != x ==> PathsOf(t)[y] != w.path {
      forall y | y in t && y != x
        ensures t[y].path != w.path
      {
        assert PathsOf(t)[y] == t[y].path;
      }
    }
  }

  lemma NoTurns<K(!new)>(old': map<Id, K>, new': map<Id, K>)
    ensures FreeAtTurns(old', new', [])
  {
  }

  ghost function NewSats(sats: map<Id, Sat>, paths: map<Id, string>): map<Id, Sat> {
    map l | l in paths && l in sats :: sats[l].(path := paths[l])
  }

  /** The same for the satellite rows and the unique keys of their tables. */
  lemma {:induction false} ApplySatsExact(sats: map<Id, Sat>, ids: seq<Id>, paths: map<Id, string>, new': map<Id, Sat>)
    requires NoRepeats(ids)
    requires forall l :: l in ids && l in sats && l in paths ==> l in new' && new'[l] == sats[l].(path := paths[l])
    ensures ApplySats(sats, ids, paths).Ok? <==>
              (forall l :: l in ids ==> l in sats && l in paths && l in new') && FreeAtTurns(sats, new', ids)
    decreases |ids|
  {
    hide FreeAtTurns;
    if ids == [] {
      NoTurns(sats, new');
    } else {
      var l, rest := ids[0], ids[1..];
      NotAgain(ids);
      assert l in ids && forall k :: k in ids <==> k == l || k in rest;
      if l in sats && l in paths {
        if forall k :: k in ids ==> k in sats && k in paths && k in new' {
          FirstTurn(sats, new', ids);
        }
        ApplySatsExact(sats[l := new'[l]], rest, paths, new');
      }
    }
  }

  /** A job commits on any database exactly when the user's scheme is still the old one, every row update finds its row
      and claims no key that has come since, and no path of a row or a satellite row is taken at its turn. */
  lemma CommitExact(db: Db, job: Job)
    requires NoRepeats(job.ids) && NoRepeats(job.satIds)
    ensures Commit(db, job).Ok? <==>
              && db.scheme == job.oldScheme
              && Claimable(db.files, job.ids, job.writes)
              && FreeAtTurns(PathsOf(db.files), NewPaths(job.writes), job.ids)
              && (forall l :: l in job.satIds ==> l in NewSats(db.sats, job.satPaths))
              && FreeAtTurns(db.sats, NewSats(db.sats, job.satPaths), job.satIds)
  {
    hide ApplyAll, ApplySats, FreeAtTurns;
    ApplyAllExact(db.files, job.ids, job.writes);
    ApplySatsExact(db.sats, job.satIds, job.satPaths, NewSats(db.sats, job.satPaths));
  }

  /** No planned path is the stored path of a row that is still to be updated. */
  ghost predicate StoredAhead(t: Table, ids: seq<Id>, plan: Plan)
    requires forall x :: x in ids ==> x in t && x in plan.paths
  {
    forall i, j :: 0 <= i < j < |ids| ==> plan.paths[ids[i]] != t[ids[j]].path
  }

  /** An encrypting sweep of an unchanged table commits exactly when, in the order of its rows, no planned path is
      still the stored path of a later row, and no converted satellite row meets the key of another at its turn. */
  lemma SweepCommitsIff(c: Cipher, db: Db, keys: map<Id, Key>, root: Id, plan: Plan, job: Job)
    requires EncryptPlan(c, db.files, keys, root, plan) && EncryptJob(c, db.files, keys, root, plan, db.sats, job)
    requires db.scheme == 0
    ensures forall x :: x in job.ids ==> x in db.files && x in plan.paths
    ensures forall l :: l in job.satIds ==> l in NewSats(db.sats, job.satPaths)
    ensures Commit(db, job).Ok? <==>
              && StoredAhead(db.files, job.ids, plan)
              && FreeAtTurns(db.sats, NewSats(db.sats, job.satPaths), job.satIds)
  {
    hide EncryptPlan, CipherFor, ApplyAll, ApplySats, StoredAhead, FreeAtTurns;
    var t := db.files;
    PlanCovers(c, t, keys, root, plan);
    assert forall x :: x in job.ids ==> job.writes[x] == EncryptWrite(t[x], x, keys, plan.names[x], plan.paths[x]);
    ApplyAllExact(t, job.ids, job.writes);
    OnlyLaterRowsClash(c, t, keys, root, plan, job);
    ApplySatsExact(db.sats, job.satIds, job.satPaths, NewSats(db.sats, job.satPaths));
  }

  lemma OnlyLaterRowsClash(c: Cipher, t: Table, keys: map<Id, Key>, root: Id, plan: Plan, job: Job)
    requires EncryptPlan(c, t, keys, root, plan) && plan.paths.Keys == t.Keys && NoRepeats(job.ids)
    requires forall x :: x in job.ids <==> x in t
    requires forall x :: x in t ==> x in job.writes && job.writes[x].path == plan.paths[x]
    ensures FreeAtTurns(PathsOf(t), NewPaths(job.writes), job.ids) <==> StoredAhead(t, job.ids, plan)
  {
    hide EncryptPlan;
    var ids, old', new' := job.ids, PathsOf(t), NewPaths(job.writes);
    if FreeAtTurns(old', new', ids) {
      forall i, j | 0 <= i < j < |ids|
        ensures plan.paths[ids[i]] != t[ids[j]].path
      {
        NotYet(ids, i, j);
        assert new'[ids[i]] != AtTurn(old', new', ids, i, ids[j]);
      }
    }
    if StoredAhead(t, ids, plan) {
      forall i, y | 0 <= i < |ids| && y in old' && y != ids[i]
        ensures new'[ids[i]] != AtTurn(old', new', ids, i, y)
      {
        if y in ids[..i] {
          if plan.paths[y] == plan.paths[ids[i]] {
            PlanInjective(c, t, keys, root, plan, y, ids[i]);
          }
        } else {
          var j := Later(ids, i, y);
        }
      }
    }
  }

  lemma NotYet(ids: seq<Id>, i: nat, j: nat)
    requires NoRepeats(ids) && i < j < |ids|
    ensures ids[j] !in ids[..i] && ids[i] != ids[j]
  {
  }

  lemma Later(ids: seq<Id>, i: nat, y: Id) returns (j: nat)
    requires i < |ids| && y in ids && y != ids[i] && y !in ids[..i]
    ensures i < j < |ids| && ids[j] == y
  {
    j :| 0 <= j < |ids| && ids[j] == y;
  }
}
