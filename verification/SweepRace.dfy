/** Racing EncryptUser runs of one user (internal/files/namesweep.go:130-244, 1148-1265) as a state machine:
    any number of runs, interleaved step by step, with no other writer. The database transaction is one step. */
module SweepRace {
  import opened Common
  import opened Paths
  import opened Filecache
  import opened NameTranslation
  import opened Refinement
  import opened SweepPlan
  import opened NameSweep
  import opened Satellites
  import opened SweepCommit

  datatype Run =
    | Idle                  // before reading users.name_scheme
    | Passed                // the scheme was plaintext
    | Loaded(tree: Table)   // loadTree done
    | Planned(job: Job)     // keys, names, paths and satellite rows planned
    | Won                   // transaction committed
    | Lost                  // failed: nothing written to these tables
    | Skipped               // already in the target scheme

  datatype System = System(db: Db, runs: seq<Run>)

  /** A job some key assignment and plan account for. */
  ghost predicate PlannedFrom(c: Cipher, t: Table, sats: map<Id, Sat>, job: Job) {
    || (t == map[] && RootlessJob(c, sats, job))
    || exists keys: map<Id, Key>, root: Id, plan: Plan :: JobBy(c, t, keys, root, plan, sats, job)
  }

  /** The job of a user without any filecache row: nothing to rewrite, and the scheme flips. */
  ghost predicate RootlessJob(c: Cipher, sats: map<Id, Sat>, job: Job) {
    EncryptJob(c, map[], map[], 0, Plan(map[], map[]), sats, job)
  }

  ghost predicate JobBy(c: Cipher, t: Table, keys: map<Id, Key>, root: Id, plan: Plan, sats: map<Id, Sat>,
                        job: Job) {
    && Keyed(t, keys) && root in t && t[root].parent.None?
    && PlanFor(t, root, EncryptConv(c, t, keys), Some(MAX_CIPHER_PATH), plan)
    && EncryptJob(c, t, keys, root, plan, sats, job)
  }

  /** One run takes one step. */
  ghost predicate RunStep(c: Cipher, db: Db, run: Run, db': Db, run': Run) {
    match run
    case Idle => db' == db && run' == if db.scheme == NCGOFN1 then Skipped else Passed
    case Passed => db' == db && (run' == Loaded(db.files) || run' == Lost)
    case Loaded(t) => db' == db && (run' == Lost || (run'.Planned? && PlannedFrom(c, t, db.sats, run'.job)))
    case Planned(job) =>
      if Commit(db, job).Ok? then db' == Commit(db, job).value && run' == Won else db' == db && run' == Lost
    case _ => false
  }

  ghost predicate Next(c: Cipher, s: System, s': System) {
    && |s'.runs| == |s.runs|
    && exists i :: 0 <= i < |s.runs| && StepOf(c, s, s', i)
  }

  ghost predicate StepOf(c: Cipher, s: System, s': System, i: nat)
    requires i < |s.runs| == |s'.runs|
  {
    && RunStep(c, s.db, s.runs[i], s'.db, s'.runs[i])
    && forall j :: 0 <= j < |s.runs| && j != i ==> s'.runs[j] == s.runs[j]
  }

  /** A well-formed plaintext tree of a scheme-0 user, and runs that have not begun. */
  ghost predicate Init(s: System) {
    && s.db.scheme == 0 && Tree(s.db.files)
    && (forall x :: x in s.db.files ==> s.db.files[x].scheme == 0)
    && forall i :: 0 <= i < |s.runs| ==> s.runs[i] == Idle
  }

  ghost predicate Behaviour(c: Cipher, b: seq<System>) {
    && |b| > 0 && Init(b[0])
    && forall i :: 0 <= i < |b| - 1 ==> NextAt(c, b, i)
  }

  ghost predicate NextAt(c: Cipher, b: seq<System>, i: nat)
    requires i + 1 < |b|
  {
    Next(c, b[i], b[i + 1])
  }

  /** Until the first commit nothing has changed and every run works on the original tree; afterwards the
      files are that tree swept by the one winner. */
  ghost predicate Inv(c: Cipher, t0: Table, sats0: map<Id, Sat>, s: System) {
    && Tree(t0)
    && (forall i, j :: 0 <= i < |s.runs| && 0 <= j < |s.runs| && s.runs[i] == Won && s.runs[j] == Won ==> i == j)
    && ((Before(c, t0, sats0, s)) || After(c, t0, s))
  }

  ghost predicate Before(c: Cipher, t0: Table, sats0: map<Id, Sat>, s: System) {
    && s.db == Db(0, t0, sats0)
    && forall i :: 0 <= i < |s.runs| ==> Fresh(c, t0, sats0, s.runs[i])
  }

  ghost predicate Fresh(c: Cipher, t0: Table, sats0: map<Id, Sat>, run: Run) {
    && run != Won
    && (run.Loaded? ==> run.tree == t0)
    && (run.Planned? ==> PlannedFrom(c, t0, sats0, run.job))
  }

  ghost predicate After(c: Cipher, t0: Table, s: System) {
    && s.db.scheme == NCGOFN1
    && (exists i :: 0 <= i < |s.runs| && s.runs[i] == Won)
    && (forall i :: 0 <= i < |s.runs| ==> (s.runs[i].Planned? ==> s.runs[i].job.oldScheme == 0))
    && SweptFrom(c, t0, s.db.files)
  }

  ghost predicate SweptFrom(c: Cipher, t0: Table, u: Table) {
    (t0 == map[] && u == map[])
      || exists keys: map<Id, Key>, root: Id, plan: Plan :: SweptBy(c, t0, keys, root, plan, u)
  }

  ghost predicate SweptBy(c: Cipher, t0: Table, keys: map<Id, Key>, root: Id, plan: Plan, u: Table) {
    EncryptPlan(c, t0, keys, root, plan) && u == Swept(t0, keys, plan)
  }

  lemma JobDirection(c: Cipher, t: Table, sats: map<Id, Sat>, job: Job)
    requires PlannedFrom(c, t, sats, job)
    ensures job.oldScheme == 0
  {
  }

  /** Committing a job planned from the table it meets sweeps that table. */
  lemma FirstCommit(c: Cipher, t0: Table, sats0: map<Id, Sat>, job: Job)
    requires Tree(t0) && PlannedFrom(c, t0, sats0, job) && Commit(Db(0, t0, sats0), job).Ok?
    ensures Commit(Db(0, t0, sats0), job).value.scheme == NCGOFN1
    ensures SweptFrom(c, t0, Commit(Db(0, t0, sats0), job).value.files)
  {
    hide PlanFor, EncryptJob, Commit, EncryptPlan, Swept, Tree;
    if t0 == map[] && RootlessJob(c, sats0, job) {
      RootlessCommit(c, sats0, job);
    } else {
      var keys: map<Id, Key>, root: Id, plan: Plan :| JobBy(c, t0, keys, root, plan, sats0, job);
      CommitSweeps(c, Db(0, t0, sats0), keys, root, plan, sats0, job);
      assert SweptBy(c, t0, keys, root, plan, Commit(Db(0, t0, sats0), job).value.files);
    }
  }

  /** Without rows the commit only flips the scheme. */
  lemma RootlessCommit(c: Cipher, sats0: map<Id, Sat>, job: Job)
    requires RootlessJob(c, sats0, job) && Commit(Db(0, map[], sats0), job).Ok?
    ensures Commit(Db(0, map[], sats0), job).value.scheme == NCGOFN1
    ensures Commit(Db(0, map[], sats0), job).value.files == map[]
  {
    hide ApplySats, CipherFor;
  }

  lemma NothingStored(c: Cipher, scheme: int, p: string)
    requires Normalize(p).Ok?
    ensures Tree(map[]) && Lookup(map[], Normalize(p).value).None? && Get(c, map[], scheme, p).Err?
  {
    hide Normalize;
    var t: Table := map[];
    assert Lookup(t, "/").None?;
  }

  lemma BeforeStep(c: Cipher, t0: Table, sats0: map<Id, Sat>, s: System, s': System, i: nat)
    requires Inv(c, t0, sats0, s) && Before(c, t0, sats0, s) && i < |s.runs| == |s'.runs| && StepOf(c, s, s', i)
    ensures Inv(c, t0, sats0, s')
  {
    hide Tree, PlannedFrom, Commit, SweptFrom;
    assert forall j :: 0 <= j < |s.runs| ==> Fresh(c, t0, sats0, s.runs[j]);
    if s.runs[i].Planned? && Commit(s.db, s.runs[i].job).Ok? {
      FirstCommit(c, t0, sats0, s.runs[i].job);
      forall j | 0 <= j < |s'.runs| && s'.runs[j].Planned?
        ensures s'.runs[j].job.oldScheme == 0
      {
        JobDirection(c, t0, sats0, s'.runs[j].job);
      }
      assert After(c, t0, s');
    } else {
      assert s'.db == s.db;
      assert forall j :: 0 <= j < |s'.runs| ==> Fresh(c, t0, sats0, s'.runs[j]);
      assert Before(c, t0, sats0, s');
    }
  }

  lemma AfterStep(c: Cipher, t0: Table, sats0: map<Id, Sat>, s: System, s': System, i: nat)
    requires Inv(c, t0, sats0, s) && After(c, t0, s) && i < |s.runs| == |s'.runs| && StepOf(c, s, s', i)
    ensures Inv(c, t0, sats0, s')
  {
    hide Tree, PlannedFrom, Commit, SweptFrom, Before;
    if s.runs[i].Planned? {
      GuardFails(s.db, s.runs[i].job);
    }
    if s'.runs[i].Planned? {
      JobDirection(c, s.runs[i].tree, s.db.sats, s'.runs[i].job);
    }
    assert s'.db == s.db;
    var w :| 0 <= w < |s.runs| && s.runs[w] == Won;
    assert s'.runs[w] == Won;
    assert After(c, t0, s');
  }

  /** The flip guard: a job of the other direction never commits. */
  lemma GuardFails(db: Db, job: Job)
    requires db.scheme != job.oldScheme
    ensures Commit(db, job).Err?
  {
  }

  lemma {:induction false} Invariant(c: Cipher, b: seq<System>, n: nat)
    requires Behaviour(c, b) && n < |b|
    ensures Inv(c, b[0].db.files, b[0].db.sats, b[n])
  {
    hide Tree, PlannedFrom, Commit, SweptFrom;
    var t0, sats0 := b[0].db.files, b[0].db.sats;
    if n == 0 {
      assert forall i :: 0 <= i < |b[0].runs| ==> Fresh(c, t0, sats0, b[0].runs[i]);
      assert Before(c, t0, sats0, b[0]);
    } else {
      Invariant(c, b, n - 1);
      assert NextAt(c, b, n - 1);
      var s, s' := b[n - 1], b[n];
      var i :| 0 <= i < |s.runs| && StepOf(c, s, s', i);
      if Before(c, t0, sats0, s) {
        BeforeStep(c, t0, sats0, s, s', i);
      } else {
        AfterStep(c, t0, sats0, s, s', i);
      }
    }
  }

  // ---------- the theorems ----------

  /** At most one run wins. */
  lemma AtMostOneWinner(c: Cipher, b: seq<System>, n: nat, i: nat, j: nat)
    requires Behaviour(c, b) && n < |b| && i < |b[n].runs| && j < |b[n].runs| && b[n].runs[i] == Won
      && b[n].runs[j] == Won
    ensures i == j
  {
    Invariant(c, b, n);
  }

  /** In every reachable state the user's scheme is the scheme of every files row. */
  lemma SchemesAgree(c: Cipher, b: seq<System>, n: nat, x: Id)
    requires Behaviour(c, b) && n < |b| && x in b[n].db.files
    ensures b[n].db.files[x].scheme == b[n].db.scheme
  {
    Invariant(c, b, n);
    var t0 := b[0].db.files;
    if After(c, t0, b[n]) {
      var keys: map<Id, Key>, root: Id, plan: Plan :| SweptBy(c, t0, keys, root, plan, b[n].db.files);
      PlanCovers(c, t0, keys, root, plan);
      SweptKeys(t0, keys, plan);
      SweptKey(c, t0, keys, root, plan, x);
    }
    hide EncryptPlan, Swept, Tree;
  }

  ghost predicate HasWinner(s: System) {
    exists i :: 0 <= i < |s.runs| && s.runs[i] == Won
  }

  /** Losers write nothing: until a run has won the tables are the initial ones, and from then on they never
      change again, whatever the other runs do. */
  lemma {:induction false} WrittenByWinnerOnly(c: Cipher, b: seq<System>, m: nat, n: nat)
    requires Behaviour(c, b) && m <= n < |b|
    ensures !HasWinner(b[n]) ==> b[n].db == b[0].db
    ensures HasWinner(b[m]) ==> HasWinner(b[n]) && b[n].db == b[m].db
  {
    hide Next, Init, After, HasWinner;
    Settled(c, b, n);
    if m < n {
      WrittenByWinnerOnly(c, b, m, n - 1);
      Settled(c, b, n - 1);
      assert NextAt(c, b, n - 1);
      if HasWinner(b[n - 1]) {
        NothingAfterWin(c, b[0].db.files, b[n - 1], b[n]);
      }
    }
  }

  lemma Settled(c: Cipher, b: seq<System>, n: nat)
    requires Behaviour(c, b) && n < |b|
    ensures !HasWinner(b[n]) ==> b[n].db == b[0].db
    ensures HasWinner(b[n]) ==> After(c, b[0].db.files, b[n])
  {
    hide Tree, PlannedFrom, SweptFrom, Next;
    Invariant(c, b, n);
  }

  lemma NothingAfterWin(c: Cipher, t0: Table, s: System, s': System)
    requires After(c, t0, s) && Next(c, s, s')
    ensures s'.db == s.db && HasWinner(s')
  {
    hide PlannedFrom, Commit, SweptFrom;
    var i :| 0 <= i < |s.runs| && StepOf(c, s, s', i);
    if s.runs[i].Planned? {
      GuardFails(s.db, s.runs[i].job);
    }
    var w :| 0 <= w < |s.runs| && s.runs[w] == Won;
    assert s'.runs[w] == Won;
  }

  /** Through the whole race a reader that goes by the user's scheme sees one and the same tree: every
      plaintext path resolves to the row id, name, path and kind it had at the start, or to nothing if it
      had none. */
  lemma ReadersSeeOneTree(c: Cipher, b: seq<System>, n: nat, p: string)
    requires Behaviour(c, b) && n < |b| && Normalize(p).Ok?
    ensures Tree(b[n].db.files)
    ensures var before, now := Lookup(b[0].db.files, Normalize(p).value), Get(c, b[n].db.files, b[n].db.scheme, p);
            && (before.None? ==> now.Err?)
            && (before.Some? ==>
                  now.Ok? && now.value.0 == before.value && SameEntry(b[0].db.files[before.value], now.value.1))
  {
    hide Tree, Get, Normalize, Lookup, SweptFrom, PlannedFrom, Next, SameEntry;
    Invariant(c, b, n);
    var t0, s := b[0].db.files, b[n];
    if After(c, t0, s) {
      SweptReads(c, t0, s.db.files, p);
    } else {
      PlainGet(c, t0, p);
    }
  }

  lemma SweptReads(c: Cipher, t0: Table, u: Table, p: string)
    requires SweptFrom(c, t0, u) && Normalize(p).Ok?
    ensures Tree(u)
    ensures var before, now := Lookup(t0, Normalize(p).value), Get(c, u, NCGOFN1, p);
            && (before.None? ==> now.Err?)
            && (before.Some? ==> now.Ok? && now.value.0 == before.value && SameEntry(t0[before.value], now.value.1))
  {
    hide EncryptPlan, Swept, Tree, Get, Normalize, Lookup;
    if t0 == map[] && u == map[] {
      NothingStored(c, NCGOFN1, p);
    } else {
      var keys: map<Id, Key>, root: Id, plan: Plan :| SweptBy(c, t0, keys, root, plan, u);
      SweepKeepsLookups(c, t0, keys, root, plan, p);
    }
  }

  ghost predicate SameEntry(r: Row, q: Row) {
    q.name == r.name && q.path == r.path && q.isDir == r.isDir && q.parent == r.parent && q.size == r.size
      && q.mtime == r.mtime
  }

  lemma PlainGet(c: Cipher, t: Table, p: string)
    requires Tree(t) && Normalize(p).Ok? && forall x :: x in t ==> t[x].scheme == 0
    ensures var before, now := Lookup(t, Normalize(p).value), Get(c, t, 0, p);
            && (before.None? ==> now.Err?)
            && (before.Some? ==> now.Ok? && now.value.0 == before.value && SameEntry(t[before.value], now.value.1))
  {
  }
}
