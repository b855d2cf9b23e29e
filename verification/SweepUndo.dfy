/** An encrypting sweep followed by a decrypting one, through both transactions
    (internal/files/namesweep.go:466-583, 1148-1265). */
module SweepUndo {
  import opened Common
  import opened Paths
  import opened Filecache
  import opened NameTranslation
  import opened Refinement
  import opened SweepPlan
  import opened NameSweep
  import opened Satellites
  import opened SweepCommit

  /** The update commitPlan issues for a row in the decrypting direction. */
  function DecryptWrite(r: Row, name: string, path: string): RowWrite {
    RowWrite(name, path, 0, if r.isDir && r.key.Some? then ClearKey else KeepKey)
  }

  /** `job` is what a DecryptUser run planned from the table `u` it loaded and the lock rows it read. */
  ghost predicate DecryptJob(c: Cipher, u: Table, root: Id, back: Plan, sats: map<Id, Sat>, job: Job) {
    && NoRepeats(job.ids) && (forall x :: x in job.ids <==> x in u)
    && job.writes.Keys == back.names.Keys
    && (forall x :: x in job.writes && x in u && x in back.paths ==>
          job.writes[x] == DecryptWrite(u[x], back.names[x], back.paths[x]))
    && job.oldScheme == NCGOFN1 && job.newScheme == 0
    && SatsPlanned(c, u, map[], root, false, sats, job.satIds, job.satPaths)
  }

  /** A committed decrypting sweep writes every row as planned. */
  lemma CommitRestores(c: Cipher, db: Db, root: Id, back: Plan, job: Job)
    requires root in db.files && PlanFor(db.files, root, DecryptConv(c, db.files), None, back)
    requires DecryptJob(c, db.files, root, back, db.sats, job) && Commit(db, job).Ok?
    ensures DecryptPlan(c, db.files, root, back) && back.paths.Keys == db.files.Keys
    ensures Commit(db, job).value.scheme == 0 && Commit(db, job).value.files.Keys == db.files.Keys
    ensures forall x :: x in db.files ==>
      Commit(db, job).value.files[x] == RestoredRow(db.files[x], back.names[x], back.paths[x])
  {
    hide PlanFor, ApplyAll, ApplySats, DecryptConv, PlainFor;
    var u := db.files;
    PlannedStored(u, root, DecryptConv(c, u), None, back);
    AllPlanned(u, back, job);
    ApplyAllResult(u, job.ids, job.writes);
    forall x | x in u
      ensures x in back.paths && Commit(db, job).value.files[x] == RestoredRow(u[x], back.names[x], back.paths[x])
    {
      RestoredBy(u[x], back.names[x], back.paths[x]);
      hide DecryptWrite, RestoredRow, WrittenRow;
    }
  }

  lemma RestoredBy(r: Row, name: string, path: string)
    ensures WrittenRow(r, DecryptWrite(r, name, path)) == RestoredRow(r, name, path)
  {
  }

  /** The lock rows after a decrypting sweep. */
  lemma SatellitesRestored(c: Cipher, db: Db, root: Id, back: Plan, job: Job, l: Id)
    requires DecryptJob(c, db.files, root, back, db.sats, job) && Commit(db, job).Ok?
    requires l in db.sats && PlainFor(c, db.files, root, db.sats[l].path).Ok?
    ensures Commit(db, job).value.sats.Keys == db.sats.Keys
    ensures Ok(Commit(db, job).value.sats[l].path) == PlainFor(c, db.files, root, db.sats[l].path)
  {
    hide ApplyAll, ApplySats, PlainFor;
    ApplySatsResult(db.sats, job.satIds, job.satPaths);
  }

  /** The lock rows after an encrypting sweep. */
  lemma SatellitesSealed(c: Cipher, db: Db, keys: map<Id, Key>, root: Id, plan: Plan, job: Job, l: Id)
    requires EncryptJob(c, db.files, keys, root, plan, db.sats, job) && Commit(db, job).Ok?
    requires l in db.sats && CipherFor(c, db.files, keys, root, db.sats[l].path).Ok?
    ensures Commit(db, job).value.sats.Keys == db.sats.Keys
    ensures Ok(Commit(db, job).value.sats[l].path) == CipherFor(c, db.files, keys, root, db.sats[l].path)
  {
    hide ApplyAll, ApplySats, CipherFor;
    ApplySatsResult(db.sats, job.satIds, job.satPaths);
  }

  /** Every satellite row after a decrypting sweep of a scheme-1 tree: in a folder it has its decrypted name behind the
      folder's plaintext path; in no folder it is left as it was. */
  lemma SatelliteRowsBack(c: Cipher, db: Db, root: Id, back: Plan, job: Job, l: Id)
    requires Sealed(c, db.files) && root in db.files && db.files[root].parent.None?
    requires DecryptJob(c, db.files, root, back, db.sats, job) && Commit(db, job).Ok? && l in db.sats
    ensures Commit(db, job).value.sats.Keys == db.sats.Keys && Normalize(db.sats[l].path).Ok?
    ensures var u, np, before, after :=
              db.files, Normalize(db.sats[l].path).value, db.sats[l], Commit(db, job).value.sats[l];
            && after == before.(path := after.path)
            && (np == "/" ==> after.path == "/")
            && (np != "/" ==> forall d :: d in u && u[d].isDir && u[d].path == Dir(np) ==>
                                && u[d].key.Some? && c.dec(u[d].key.value, Base(np)).Some?
                                && after.path == Join(PlainPathOf(c, u, d), c.dec(u[d].key.value, Base(np)).value))
            && (np != "/" && !FolderAt(u, Dir(np)) ==> after == before)
  {
    hide Sealed, PlainFor, Normalize, ApplyAll, ApplySats, Base, Dir, Join, Tree, EndsAt, Canonical, PlainPathOf;
    var u, p := db.files, db.sats[l].path;
    ApplySatsResult(db.sats, job.satIds, job.satPaths);
    SealedTree(c, u);
    DecryptionNormal(c, u, root, p);
    var np := Normalize(p).value;
    if np != "/" {
      forall d | d in u && u[d].isDir && u[d].path == Dir(np)
        ensures u[d].key.Some?
        ensures var n := c.dec(u[d].key.value, Base(np));
                PlainFor(c, u, root, p) == if n.None? then Err(Integrity) else Ok(Join(PlainPathOf(c, u, d), n.value))
      {
        DecryptsInFolder(c, u, root, p, np, d);
      }
      if !FolderAt(u, Dir(np)) {
        NormalizeCanonical(p);
        var d, n, rest := ParentOrEnd(u, root, np);
        DecryptionEnds(c, u, root, p, np, d, n, rest);
      }
    }
  }

  lemma DecryptionNormal(c: Cipher, u: Table, root: Id, p: string)
    ensures Normalize(p).Err? ==> PlainFor(c, u, root, p) == Err(InvalidPath)
    ensures Normalize(p) == Ok("/") ==> PlainFor(c, u, root, p) == Ok("/")
  {
  }

  /** A row the encrypting sweep passed over, for want of a folder, stops every decrypting sweep of the table it left,
      as long as it is there and the first name of its path is no token: nothing can be planned. */
  lemma PassedOverStopsUndo(c: Cipher, db: Db, keys: map<Id, Key>, root: Id, plan: Plan, job: Job, back: Plan,
                            undo: Job, l: Id)
    requires EncryptPlan(c, db.files, keys, root, plan) && EncryptJob(c, db.files, keys, root, plan, db.sats, job)
    requires Commit(db, job).Ok? && l in db.sats && root in keys
    requires var np := Normalize(db.sats[l].path);
             np.Ok? && np.value != "/" && !FolderAt(db.files, Dir(np.value))
             && Segments(np.value) != [] && c.dec(keys[root], Segments(np.value)[0]).None?
    ensures var mid := Commit(db, job).value;
            l in mid.sats && mid.sats[l] == db.sats[l] && !DecryptJob(c, mid.files, root, back, mid.sats, undo)
  {
    hide Normalize, EncryptPlan, EncryptJob, DecryptJob, Commit, FolderAt, Dir, Segments, PlainFor;
    var mid, p := Commit(db, job).value, db.sats[l].path;
    PassedOverStays(c, db, keys, root, plan, job, l);
    RootKeyAfter(c, db, keys, root, plan, job);
    FirstNoToken(c, mid.files, root, p, keys[root]);
    StopsJob(c, mid.files, root, back, mid.sats, undo, l);
  }

  lemma PassedOverStays(c: Cipher, db: Db, keys: map<Id, Key>, root: Id, plan: Plan, job: Job, l: Id)
    requires EncryptPlan(c, db.files, keys, root, plan) && EncryptJob(c, db.files, keys, root, plan, db.sats, job)
    requires Commit(db, job).Ok? && l in db.sats && Normalize(db.sats[l].path).Ok?
    requires Normalize(db.sats[l].path).value != "/" && !FolderAt(db.files, Dir(Normalize(db.sats[l].path).value))
    ensures var after := Commit(db, job).value.sats; l in after && after[l] == db.sats[l]
  {
    hide Normalize, EncryptPlan, EncryptJob, Commit, FolderAt, Dir, Base, TokenUnder;
    SatelliteRows(c, db, keys, root, plan, job, l);
  }

  lemma RootKeyAfter(c: Cipher, db: Db, keys: map<Id, Key>, root: Id, plan: Plan, job: Job)
    requires EncryptPlan(c, db.files, keys, root, plan) && EncryptJob(c, db.files, keys, root, plan, db.sats, job)
    requires Commit(db, job).Ok? && root in keys
    ensures var u := Commit(db, job).value.files; root in u && u[root].key == Some(keys[root])
  {
    hide EncryptPlan, EncryptJob, Commit, Swept, Tree;
    PlanTree(c, db.files, keys, root, plan);
    PlanCovers(c, db.files, keys, root, plan);
    CommittedFiles(c, db, keys, root, plan, job);
    RootFolder(db.files, root);
    SweptKey(c, db.files, keys, root, plan, root);
  }

  lemma FirstNoToken(c: Cipher, u: Table, root: Id, p: string, k: Key)
    requires root in u && u[root].key == Some(k) && Normalize(p).Ok? && Normalize(p).value != "/"
    requires Segments(Normalize(p).value) != [] && c.dec(k, Segments(Normalize(p).value)[0]).None?
    ensures PlainFor(c, u, root, p) == Err(Integrity)
  {
    hide Normalize, Segments;
  }

  lemma StopsJob(c: Cipher, u: Table, root: Id, back: Plan, sats: map<Id, Sat>, job: Job, l: Id)
    requires l in sats && PlainFor(c, u, root, sats[l].path) == Err(Integrity)
    ensures !DecryptJob(c, u, root, back, sats, job)
  {
    hide PlainFor;
  }

  lemma CommittedFiles(c: Cipher, db: Db, keys: map<Id, Key>, root: Id, plan: Plan, job: Job)
    requires EncryptPlan(c, db.files, keys, root, plan) && EncryptJob(c, db.files, keys, root, plan, db.sats, job)
    requires Commit(db, job).Ok?
    ensures db.files.Keys <= plan.names.Keys && db.files.Keys <= plan.paths.Keys
    ensures Commit(db, job).value.files == Swept(db.files, keys, plan)
  {
    hide Tree, PlanFor, EncryptJob, Commit, Swept;
    PlanCovers(c, db.files, keys, root, plan);
    CommitSweeps(c, db, keys, root, plan, db.sats, job);
  }

  /** The two runs of a round trip: each planned from the database it then committed to. */
  ghost predicate RoundTrip(c: Cipher, db: Db, keys: map<Id, Key>, root: Id, plan: Plan, job: Job, back: Plan,
                            undo: Job) {
    && Tree(db.files) && Keyed(db.files, keys) && root in db.files && db.files[root].parent.None?
    && (forall x :: x in db.files ==> db.files[x].scheme == 0)
    && PlanFor(db.files, root, EncryptConv(c, db.files, keys), Some(MAX_CIPHER_PATH), plan)
    && EncryptJob(c, db.files, keys, root, plan, db.sats, job) && Commit(db, job).Ok?
    && var mid := Commit(db, job).value;
       && PlanFor(mid.files, root, DecryptConv(c, mid.files), None, back)
       && DecryptJob(c, mid.files, root, back, mid.sats, undo) && Commit(mid, undo).Ok?
  }

  /** Both commits together are the identity on the names, paths and schemes of all rows and on the user's
      scheme; only folder keys are gone. */
  lemma FilesComeBack(c: Cipher, db: Db, keys: map<Id, Key>, root: Id, plan: Plan, job: Job, back: Plan, undo: Job)
    requires RoundTrip(c, db, keys, root, plan, job, back, undo)
    ensures var t, end := db.files, Commit(Commit(db, job).value, undo).value;
            && end.scheme == 0 && end.files.Keys == t.Keys
            && forall x :: x in t ==> end.files[x] == t[x].(key := if t[x].isDir then None else t[x].key)
  {
    hide Tree, Keyed, PlanFor, EncryptJob, DecryptJob, Commit, DecryptPlan, EncryptPlan, Swept, RestoredRow;
    var t, mid := db.files, Commit(db, job).value;
    CommitSweeps(c, db, keys, root, plan, db.sats, job);
    PlanCovers(c, t, keys, root, plan);
    SweptKeys(t, keys, plan);
    CommitRestores(c, mid, root, back, undo);
    forall x | x in t
      ensures Commit(mid, undo).value.files[x] == t[x].(key := if t[x].isDir then None else t[x].key)
    {
      SweepRoundTrip(c, t, keys, root, plan, back, x);
    }
  }

  /** And on every lock the first sweep could convert: it is back at its normalised path. */
  lemma SatelliteComesBack(c: Cipher, db: Db, keys: map<Id, Key>, root: Id, plan: Plan, job: Job, back: Plan, undo: Job,
                      l: Id)
    requires RoundTrip(c, db, keys, root, plan, job, back, undo)
    requires l in db.sats && CipherFor(c, db.files, keys, root, db.sats[l].path).Ok?
    ensures var end := Commit(Commit(db, job).value, undo).value;
            l in end.sats && Ok(end.sats[l].path) == Normalize(db.sats[l].path)
  {
    hide Tree, Keyed, PlanFor, EncryptJob, DecryptJob, Commit, EncryptPlan, Swept, CipherFor, PlainFor, Normalize;
    var t, mid := db.files, Commit(db, job).value;
    CommitSweeps(c, db, keys, root, plan, db.sats, job);
    PlanCovers(c, t, keys, root, plan);
    SatellitesSealed(c, db, keys, root, plan, job, l);
    SatelliteRoundTrip(c, t, keys, root, plan, db.sats[l].path);
    ConvertedNormal(c, t, keys, root, db.sats[l].path);
    SatellitesRestored(c, mid, root, back, undo, l);
  }
}
