/** Concrete tables that meet the premises of the main theorems: a sealed two-row tree on which the translated
    operations succeed, and a sweep of a plaintext tree that commits, is undone, and wins a race of one. */
module Instances {
  import opened Common
  import opened Paths
  import opened Filecache
  import opened NameTranslation
  import opened Refinement
  import opened MoveRefinement
  import opened SweepPlan
  import opened NameSweep
  import opened Satellites
  import opened SweepCommit
  import opened SweepUndo
  import opened SweepRace

  /** The cipher that leaves ordinary names as they are. */
  ghost function Plain(): Cipher {
    ClearSound();
    Clear()
  }

  function Keys(): map<Id, Key> {
    map[1 := 5, 2 := 6]
  }

  function SealedRows(): Table {
    map[1 := Row(None, "", "/", true, 0, 0, Some(5), 1), 2 := Row(Some(1), "a", "/a", true, 0, 0, Some(6), 1)]
  }

  lemma SealedRowsTree()
    ensures Tree(SealedRows()) && Lookup(SealedRows(), "/a") == Some(2) && Lookup(SealedRows(), "/") == Some(1)
    ensures Lookup(SealedRows(), "/a/b").None?
  {
    var t := SealedRows();
    assert Join("/", "a") == "/a";
    assert t[2].path == "/a" && t[1].path == "/";
    LookupStored(t, 1);
    LookupStored(t, 2);
  }

  lemma SealedInstance()
    ensures Sealed(Plain(), SealedRows()) && WithinBudget(Plain(), SealedRows())
    ensures PlainPathOf(Plain(), SealedRows(), 2) == "/a"
  {
    hide ClearToken, ClearName, Sound;
    var c, t := Plain(), SealedRows();
    ClearOrdinary("a");
    SealedRowsTree();
    assert SealedRow(c, t, 1);
    assert SealedRow(c, t, 2);
    PlainStep(c, t, 2);
    assert PlainName(c, t, 2) == "a" && PlainName(c, t, 1) == "";
    assert PlainPathOf(c, t, 1) == "/" && Join("/", "a") == "/a";
  }

  /** The premises of the refinement theorems can be met: the row moves from /a to /b, and can be deleted. */
  lemma OperationsSucceed()
    ensures var c, t := Plain(), SealedRows();
            && Tree(t) && Sealed(c, t) && WithinBudget(c, t) && Canonical("/a") && Canonical("/b") && !Below("/b", "/a")
            && Rename(c, t, "/a", "/b", 7).Ok? && Delete(c, t, "/a").Ok?
  {
    hide Normalize, Canonical, Sealed, WithinBudget, Tree, Dir, Base;
    var c, t := Plain(), SealedRows();
    SealedRowsTree();
    SealedInstance();
    TwoPaths();
    PathB();
    NormalizeCanonical("/a");
    NormalizeCanonical("/b");
    ResolveFinds(c, t, "/a", 2);
    RootParent();
    assert Join("/", "b") == "/b";
    assert Lookup(t, "/b").None? by { assert t[1].path == "/" && t[2].path == "/a"; }
    assert TokenPath(c, t, 1, "b") == Ok("/b");
    assert RenamePaths(c, t, "/a", "/b") == Ok(("/a", "/b"));
    assert "/b"[..2] != "/a";
  }

  lemma RootParent()
    ensures CipherParent(Plain(), SealedRows(), "/b") == Ok(1)
  {
    hide Normalize, Canonical;
    PathB();
    RootCanonical();
    SealedRowsTree();
  }

  // ---------- a sweep and its undoing ----------

  function NamePlan(): Plan {
    Plan(map[1 := "", 2 := "a"], map[1 := "/", 2 := "/a"])
  }

  function Start(): Db {
    Db(0, TwoRows(), map[])
  }

  function EncryptingJob(): Job {
    Job([1, 2], map[1 := RowWrite("", "/", 1, ClaimKey(5)), 2 := RowWrite("a", "/a", 1, ClaimKey(6))], [], map[], 0, 1)
  }

  function DecryptingJob(): Job {
    Job([1, 2], map[1 := RowWrite("", "/", 0, ClearKey), 2 := RowWrite("a", "/a", 0, ClearKey)], [], map[], 1, 0)
  }

  lemma EncryptStep()
    ensures Commit(Start(), EncryptingJob()) == Ok(Db(1, SealedRows(), map[]))
  {
    var t, w := TwoRows(), EncryptingJob().writes;
    var u := t[1 := WrittenRow(t[1], w[1])];
    assert Accepts(t, 1, w[1]) && Accepts(u, 2, w[2]);
    assert [1, 2][1..] == [2] && [2][1..] == [];
    assert u[2 := WrittenRow(u[2], w[2])] == SealedRows();
    assert ApplyAll(u, [2], w) == Ok(SealedRows());
    assert ApplyAll(t, [1, 2], w) == Ok(SealedRows());
    assert ApplySats(map[], [], map[]) == Ok(map[]);
  }

  lemma DecryptStep()
    ensures Commit(Db(1, SealedRows(), map[]), DecryptingJob()) == Ok(Start())
  {
    var t, w := SealedRows(), DecryptingJob().writes;
    var u := t[1 := WrittenRow(t[1], w[1])];
    assert Accepts(t, 1, w[1]) && Accepts(u, 2, w[2]);
    assert [1, 2][1..] == [2] && [2][1..] == [];
    assert u[2 := WrittenRow(u[2], w[2])] == TwoRows();
    assert ApplyAll(u, [2], w) == Ok(TwoRows());
    assert ApplyAll(t, [1, 2], w) == Ok(TwoRows());
    assert ApplySats(map[], [], map[]) == Ok(map[]);
  }

  lemma Planned()
    ensures JobBy(Plain(), TwoRows(), Keys(), 1, NamePlan(), map[], EncryptingJob())
  {
    hide Tree, PlanFor, EncryptJob, Sound;
    PlannedNames();
    PlannedJob();
  }

  lemma PlannedNames()
    ensures PlanFor(TwoRows(), 1, EncryptConv(Plain(), TwoRows(), Keys()), Some(MAX_CIPHER_PATH), NamePlan())
  {
    hide Tree, ClearToken, ClearName, Sound;
    var c, t := Plain(), TwoRows();
    ClearOrdinary("a");
    assert Join("/", "a") == "/a";
    assert PlanRow(t, EncryptConv(c, t, Keys()), Some(MAX_CIPHER_PATH), NamePlan(), 2);
  }

  lemma PlannedJob()
    ensures EncryptJob(Plain(), TwoRows(), Keys(), 1, NamePlan(), map[], EncryptingJob())
  {
    hide CipherFor, Sound;
    assert EncryptingJob().writes.Keys == {1, 2} && NamePlan().names.Keys == {1, 2};
  }

  lemma PlannedBack()
    ensures PlanFor(SealedRows(), 1, DecryptConv(Plain(), SealedRows()), None, NamePlan())
    ensures DecryptJob(Plain(), SealedRows(), 1, NamePlan(), map[], DecryptingJob())
  {
    hide Tree, ClearToken, ClearName, Sound, PlainFor;
    var c, u := Plain(), SealedRows();
    ClearOrdinary("a");
    assert Join("/", "a") == "/a";
    assert PlanRow(u, DecryptConv(c, u), None, NamePlan(), 2);
  }

  /** The premise of the round trip can be met. */
  lemma RoundTripInstance()
    ensures RoundTrip(Plain(), Start(), Keys(), 1, NamePlan(), EncryptingJob(), NamePlan(), DecryptingJob())
  {
    hide PlanFor, EncryptJob, DecryptJob, Commit, Tree;
    TwoRowsTree();
    EncryptStep();
    DecryptStep();
    Planned();
    PlannedBack();
  }

  /** A lock below a folder "-" that is gone. */
  function StaleLock(): map<Id, Sat> {
    map[1 := Sat(LockRow, "/-/x", "")]
  }

  /** The encrypting sweep passes over it and commits; no decrypting sweep can then be planned. */
  lemma StaleLockStopsUndo(back: Plan, undo: Job)
    ensures var c, db, mid := Plain(), Db(0, TwoRows(), StaleLock()), Db(1, SealedRows(), StaleLock());
            && EncryptJob(c, db.files, Keys(), 1, NamePlan(), db.sats, EncryptingJob())
            && Commit(db, EncryptingJob()) == Ok(mid)
            && !DecryptJob(c, mid.files, 1, back, mid.sats, undo)
  {
    hide ApplyAll, CipherFor, Normalize, Segments, Dir, Base, Tree, PlanFor, Sound, ClearToken, FolderAt, SatsPlanned;
    var c, db := Plain(), Db(0, TwoRows(), StaleLock());
    TwoRowsTree();
    EncryptStep();
    Planned();
    assert EncryptPlan(c, TwoRows(), Keys(), 1, NamePlan());
    StalePath();
    StalePassed();
    PassedOverStopsUndo(c, db, Keys(), 1, NamePlan(), EncryptingJob(), back, undo, 1);
  }

  lemma StalePath()
    ensures Normalize("/-/x") == Ok("/-/x") && Dir("/-/x") == "/-" && Segments("/-/x") == ["-", "x"]
    ensures Canonical("/-/x")
  {
    assert ValidName("-") && ValidName("x") && ValidNames(["-", "x"]);
    assert Join("/", "-") == "/-" && Join("/-", "x") == "/-/x";
    DirBaseOfJoin("/-", "x");
    assert ["-", "x"][1..] == ["x"] && ["x"][1..] == [];
    assert JoinAll("/", ["-", "x"]) == "/-/x";
    SegmentsOfRender(["-", "x"]);
    NormalizeCanonical("/-/x");
  }

  lemma StalePassed()
    requires EncryptPlan(Plain(), TwoRows(), Keys(), 1, NamePlan())
    ensures !FolderAt(TwoRows(), "/-")
    ensures SatsPlanned(Plain(), TwoRows(), Keys(), 1, true, StaleLock(), [], map[])
  {
    hide EncryptPlan, CipherFor, Normalize, Segments, Dir, Base, Tree, Sound, ClearToken, Canonical;
    var c, t := Plain(), TwoRows();
    StalePath();
    TwoRowsTree();
    assert t[1].path == "/" && t[2].path == "/a";
    assert Join("/", "-") == "/-" && JoinAll("/-", ["x"]) == "/-/x" by {
      assert ["x"][1..] == [] && Join("/-", "x") == "/-/x";
    }
    assert ValidName("-") && ValidNames(["x"]);
    assert EndsAt(t, "/-/x", 1, "-", ["x"]);
    ConversionEnds(c, t, Keys(), 1, NamePlan(), "/-/x", "/-/x", 1, "-", ["x"]);
    assert Lookup(t, "/-").None?;
    assert TokenUnder(c, Keys(), NamePlan(), 1, "-") == "/--" by {
      DashToken();
    }
  }

  lemma DashToken()
    ensures Plain().enc(5, "-") == "--" && Plain().dec(5, "-").None?
  {
    assert "-"[1..] == "";
    assert Escape("-") == "-";
  }

  lemma Accounted()
    ensures PlannedFrom(Plain(), TwoRows(), map[], EncryptingJob())
  {
    hide JobBy;
    Planned();
  }

  /** A run of the race in which the one sweep there is commits. */
  lemma RaceInstance() returns (b: seq<System>)
    ensures Behaviour(Plain(), b) && |b| == 5 && b[4].runs == [Won]
  {
    hide PlannedFrom, Commit, Tree;
    TwoRowsTree();
    EncryptStep();
    Accounted();
    var db := Start();
    b := [System(db, [Idle]), System(db, [Passed]), System(db, [Loaded(TwoRows())]),
          System(db, [Run.Planned(EncryptingJob())]), System(Db(1, SealedRows(), map[]), [Won])];
    forall i | 0 <= i < 4
      ensures NextAt(Plain(), b, i)
    {
      assert StepOf(Plain(), b[i], b[i + 1], 0);
    }
  }

  // ---------- inputs on which the length limits bite ----------

  function Times(n: nat, x: char): (s: string)
    ensures |s| == n && forall i :: 0 <= i < n ==> s[i] == x
  {
    seq(n, _ => x)
  }

  /** A cipher whose tokens of "b" and "c" are 400 characters long. */
  function Swap(n: string): string {
    if n == "b" then Times(400, 'b') else if n == "c" then Times(400, 'c')
    else if n == Times(400, 'b') then "b" else if n == Times(400, 'c') then "c"
    else n
  }

  lemma SwapTwice(n: string)
    ensures Swap(Swap(n)) == n && (ValidName(n) ==> ValidName(Swap(n)))
  {
    assert Times(400, 'b')[0] == 'b' && Times(400, 'c')[0] == 'c';
  }

  ghost function Wide(): Cipher {
    WideSound();
    WideCipher()
  }

  function WideCipher(): NameCipher {
    NameCipher((k: Key, n: string) => WideToken(n), (k: Key, t: string) => WideName(t))
  }

  function WideToken(n: string): string {
    Swap(ClearToken(n))
  }

  function WideName(t: string): Option<string> {
    ClearName(Swap(t))
  }

  lemma WideUndone(n: string)
    ensures n != "" ==> ValidName(WideToken(n)) && WideName(WideToken(n)) == Some(n)
    ensures WideName(n) != Some("")
  {
    hide Swap, ClearToken, ClearName, ValidName;
    if n != "" {
      ClearUndone(n);
      SwapTwice(ClearToken(n));
    }
    ClearNamesProper(Swap(n));
  }

  lemma WideSound()
    ensures Sound(WideCipher())
  {
    hide WideToken, WideName, ValidName;
    forall n: string
      ensures n != "" ==> ValidName(WideToken(n)) && WideName(WideToken(n)) == Some(n)
      ensures WideName(n) != Some("")
    {
      WideUndone(n);
    }
  }

  /** A folder /a with one file "c", whose token is long. */
  function LongRows(): Table {
    map[1 := Row(None, "", "/", true, 0, 0, Some(5), 1), 2 := Row(Some(1), "a", "/a", true, 0, 0, Some(6), 1),
        3 := Row(Some(2), Times(400, 'c'), "/a/" + Times(400, 'c'), false, 0, 0, None, 1)]
  }

  lemma WideTokens()
    ensures WideToken("a") == "a" && WideName("a") == Some("a") && WideToken("b") == Times(400, 'b')
    ensures WideToken("c") == Times(400, 'c') && WideName(Times(400, 'c')) == Some("c")
    ensures ValidName("a") && ValidName("b") && ValidName("c") && ValidName(Times(400, 'c'))
  {
    hide Times;
    ClearOrdinary("a");
    ClearOrdinary("b");
    ClearOrdinary("c");
    assert Times(400, 'b')[0] == 'b' && Times(400, 'c')[0] == 'c';
  }

  lemma LongRowsSealed()
    ensures Sealed(Wide(), LongRows()) && WithinBudget(Wide(), LongRows()) && PlainPathOf(Wide(), LongRows(), 2) == "/a"
    ensures Lookup(LongRows(), "/") == Some(1) && Lookup(LongRows(), "/a") == Some(2)
    ensures Lookup(LongRows(), "/" + Times(400, 'b')).None?
  {
    hide WideToken, WideName, Sound, Times;
    var c, t := Wide(), LongRows();
    WideTokens();
    assert Join("/", "a") == "/a" && Join("/a", Times(400, 'c')) == "/a/" + Times(400, 'c');
    assert t[1].path == "/" && t[2].path == "/a" && |t[3].path| == 403;
    assert |"/" + Times(400, 'b')| == 401;
    LookupStored(t, 1);
    LookupStored(t, 2);
    assert SealedRow(c, t, 1);
    assert SealedRow(c, t, 2);
    assert SealedRow(c, t, 3);
    PlainStep(c, t, 2);
    assert PlainName(c, t, 1) == "" && PlainName(c, t, 2) == "a" && PlainName(c, t, 3) == "c";
    assert PlainPathOf(c, t, 1) == "/";
  }

  /** Moving /a to /b succeeds and takes the file below it out of reach. */
  lemma RenameOverBudget()
    ensures var c, t := Wide(), LongRows();
            && Sealed(c, t) && WithinBudget(c, t) && Canonical("/a") && Canonical("/b") && !Below("/b", "/a")
            && Rename(c, t, "/a", "/b", 7).Ok?
            && var u := Rename(c, t, "/a", "/b", 7).value;
               Sealed(c, u) && exists y :: y in u && CipherPath(c, u, NCGOFN1, PlainPathOf(c, u, y)).Err?
  {
    hide Normalize, Canonical, Sealed, WithinBudget, Tree, Dir, Base, Times, WideToken, CipherPath, Below, RenameIn,
         PlainPathOf;
    var c, t := Wide(), LongRows();
    LongRowsSealed();
    LongRename();
    var u := Rename(c, t, "/a", "/b", 7).value;
    RenameRefines(c, t, "/a", "/b", 7);
    RenameBudget(c, t, "/a", "/b", 7);
    LongChild();
    BudgetIsResolvability(c, u);
  }

  lemma LongChild()
    ensures 3 in LongRows() && Below(LongRows()[3].path, "/a") && |LongRows()[3].path| - 2 + 401 > MAX_CIPHER_PATH
  {
    var p := LongRows()[3].path;
    assert p[..3] == "/a" + "/";
  }

  lemma LongRename()
    ensures var c, t := Wide(), LongRows();
            && RenamePaths(c, t, "/a", "/b") == Ok(("/a", "/" + Times(400, 'b'))) && Rename(c, t, "/a", "/b", 7).Ok?
    ensures Canonical("/a") && Canonical("/b") && !Below("/b", "/a") && |"/" + Times(400, 'b')| == 401
  {
    hide Normalize, Canonical, Sealed, WithinBudget, Tree, Base, Times, WideToken, WideName, Sound, CipherPath,
         Below, PlainPathOf;
    var c, t := Wide(), LongRows();
    LongRowsSealed();
    WideTokens();
    TwoPaths();
    PathB();
    NormalizeCanonical("/a");
    ResolveFinds(c, t, "/a", 2);
    LongParent();
    assert Join("/", Times(400, 'b')) == "/" + Times(400, 'b');
    assert TokenPath(c, t, 1, "b") == Ok("/" + Times(400, 'b'));
    LongFree();
  }

  lemma LongParent()
    ensures CipherParent(Wide(), LongRows(), "/b") == Ok(1)
  {
    hide Normalize, Canonical, Times;
    PathB();
    RootCanonical();
    LongRowsSealed();
  }

  lemma LongFree()
    ensures !Below("/b", "/a") && Dir("/" + Times(400, 'b')) == "/"
  {
    hide Times;
    assert '/' !in Times(400, 'b');
    DirBaseOfJoin("/", Times(400, 'b'));
  }

  /** A lock on a file that is not there, under a name of 256 characters: the sweep converts it, and nobody
      finds it at its old path. */
  lemma LongLeafNotFound()
    ensures var c, t, p := Plain(), TwoRows(), "/" + Times(256, 'x');
            && EncryptPlan(c, t, Keys(), 1, NamePlan()) && CipherFor(c, t, Keys(), 1, p).Ok?
            && CipherPath(c, Swept(t, Keys(), NamePlan()), NCGOFN1, p) != CipherFor(c, t, Keys(), 1, p)
  {
    hide Tree, PlanFor, CipherPath, CipherFor, Swept, Times, Normalize, Canonical, Base, Sound, ClearToken, EncryptJob;
    var c, t, p := Plain(), TwoRows(), "/" + Times(256, 'x');
    TwoRowsTree();
    Planned();
    assert EncryptPlan(c, t, Keys(), 1, NamePlan());
    LongLeaf();
    SatelliteFound(c, t, Keys(), 1, NamePlan(), p);
  }

  lemma LongLeaf()
    ensures var p := "/" + Times(256, 'x'); Normalize(p) == Ok(p) && |Base(p)| == 256 && p != "/"
    ensures CipherFor(Plain(), TwoRows(), Keys(), 1, "/" + Times(256, 'x')).Ok?
  {
    hide Times, Normalize, Base, Sound, ClearToken, Canonical, Segments;
    var n := Times(256, 'x');
    assert n[0] == 'x' && ValidName(n);
    ClearOrdinary(n);
    DirBaseOfJoin("/", n);
    LongPath(n);
  }

  lemma LongPath(n: string)
    requires ValidName(n)
    ensures Normalize("/" + n) == Ok("/" + n) && Segments("/" + n) == [n]
  {
    hide Normalize, Segments;
    assert Render([n]) == "/" + n by { JoinAllSnoc("/", [], n); assert [] + [n] == [n]; }
    assert ValidNames([n]);
    SegmentsOfRender([n]);
    NormalizeCanonical("/" + n);
  }

  /** A folder inserted without a key: the insert succeeds and the table is no longer sealed. */
  lemma KeylessFolderNotSealed()
    ensures var c, t, f := Plain(), SealedRows(), Row(None, "", "/b", true, 0, 0, None, 0);
            && Sealed(c, t) && Canonical("/b") && Insert(c, t, 3, f, "/b").Ok?
            && !Sealed(c, Insert(c, t, 3, f, "/b").value)
  {
    hide Normalize, Canonical, Sealed, WithinBudget, Tree, Sound, ClearToken, Base, Dir;
    var c, t, f := Plain(), SealedRows(), Row(None, "", "/b", true, 0, 0, None, 0);
    SealedRowsTree();
    SealedInstance();
    PathB();
    ClearOrdinary("b");
    RootParent();
    assert Join("/", "b") == "/b";
    assert Lookup(t, "/b").None? by { assert t[1].path == "/" && t[2].path == "/a"; }
    assert TokenPath(c, t, 1, "b") == Ok("/b");
    InsertExact(c, t, 3, f, "/b");
  }

  // ---------- a sweep the unique index stops ----------

  /** A cipher under which "a" and "b" are each other's tokens. */
  function Flip(n: string): string {
    if n == "a" then "b" else if n == "b" then "a" else n
  }

  function FlipToken(n: string): string {
    Flip(ClearToken(n))
  }

  function FlipName(t: string): Option<string> {
    ClearName(Flip(t))
  }

  function FlipCipher(): NameCipher {
    NameCipher((k: Key, n: string) => FlipToken(n), (k: Key, t: string) => FlipName(t))
  }

  lemma FlipUndone(n: string)
    ensures n != "" ==> ValidName(FlipToken(n)) && FlipName(FlipToken(n)) == Some(n)
    ensures FlipName(n) != Some("")
  {
    hide ClearToken, ClearName;
    if n != "" {
      ClearUndone(n);
    }
    ClearNamesProper(Flip(n));
  }

  lemma FlipSound()
    ensures Sound(FlipCipher())
  {
    hide FlipToken, FlipName, ValidName;
    forall n: string
      ensures n != "" ==> ValidName(FlipToken(n)) && FlipName(FlipToken(n)) == Some(n)
      ensures FlipName(n) != Some("")
    {
      FlipUndone(n);
    }
  }

  ghost function Flipping(): Cipher {
    FlipSound();
    FlipCipher()
  }

  /** Two files, "a" and "b". */
  function TwoFiles(): Table {
    map[1 := Row(None, "", "/", true, 0, 0, None, 0), 2 := Row(Some(1), "a", "/a", false, 0, 0, None, 0),
        3 := Row(Some(1), "b", "/b", false, 0, 0, None, 0)]
  }

  function FlipPlan(): Plan {
    Plan(map[1 := "", 2 := "b", 3 := "a"], map[1 := "/", 2 := "/b", 3 := "/a"])
  }

  function FlipJob(): Job {
    Job([1, 2, 3], map[1 := RowWrite("", "/", 1, ClaimKey(5)), 2 := RowWrite("b", "/b", 1, KeepKey),
                       3 := RowWrite("a", "/a", 1, KeepKey)], [], map[], 0, 1)
  }

  lemma FlipPlanned()
    ensures EncryptPlan(Flipping(), TwoFiles(), map[1 := 5], 1, FlipPlan())
  {
    hide ClearToken, ClearName, Sound;
    var c, t := Flipping(), TwoFiles();
    ClearOrdinary("a");
    ClearOrdinary("b");
    assert Join("/", "a") == "/a" && Join("/", "b") == "/b";
    assert t[1].path == "/" && t[2].path == "/a" && t[3].path == "/b";
    var conv := EncryptConv(c, t, map[1 := 5]);
    assert PlanRow(t, conv, Some(MAX_CIPHER_PATH), FlipPlan(), 2);
    assert PlanRow(t, conv, Some(MAX_CIPHER_PATH), FlipPlan(), 3);
  }

  lemma FlipJobPlanned()
    ensures EncryptJob(Flipping(), TwoFiles(), map[1 := 5], 1, FlipPlan(), map[], FlipJob())
  {
    hide CipherFor, Sound;
    assert FlipJob().writes.Keys == {1, 2, 3} && FlipPlan().names.Keys == {1, 2, 3};
  }

  /** The new path of "a" is the stored path of "b", whose turn is still to come: the sweep does not commit. */
  lemma SweepStopped()
    ensures var db := Db(0, TwoFiles(), map[]);
            && EncryptPlan(Flipping(), db.files, map[1 := 5], 1, FlipPlan())
            && EncryptJob(Flipping(), db.files, map[1 := 5], 1, FlipPlan(), db.sats, FlipJob())
            && Commit(db, FlipJob()).Err?
  {
    hide EncryptPlan, EncryptJob, Commit, FreeAtTurns;
    var db := Db(0, TwoFiles(), map[]);
    FlipPlanned();
    FlipJobPlanned();
    SweepCommitsIff(Flipping(), db, map[1 := 5], 1, FlipPlan(), FlipJob());
    assert FlipPlan().paths[FlipJob().ids[1]] == db.files[FlipJob().ids[2]].path;
  }
}
