/** Trash location ids assigned by a sweep (internal/files/namesweep.go:806-922, trashstore.go:160-183). */
module TrashIds {
  import opened Common

  // ---------- decimal numerals ----------

  lemma DigitInjective(a: nat, b: nat)
    requires a < 10 && b < 10 && Digit(a) == Digit(b)
    ensures a == b
  {
  }

  lemma {:induction false} ItoaInjective(a: nat, b: nat)
    requires Itoa(a) == Itoa(b)
    ensures a == b
  {
    var s, t := Itoa(a), Itoa(b);
    assert s[|s| - 1] == Digit(a % 10) && t[|t| - 1] == Digit(b % 10);
    DigitInjective(a % 10, b % 10);
    if a >= 10 && b >= 10 {
      assert Itoa(a / 10) == s[..|s| - 1] && Itoa(b / 10) == t[..|t| - 1];
      ItoaInjective(a / 10, b / 10);
    }
  }

  // ---------- dedupTrashLoc ----------

  /** loc + "-" + i. */
  function Candidate(loc: string, i: nat): string {
    loc + "-" + Itoa(i)
  }

  lemma CandidateInjective(loc: string, i: nat, j: nat)
    requires Candidate(loc, i) == Candidate(loc, j)
    ensures i == j
  {
    assert Candidate(loc, i)[|loc| + 1..] == Itoa(i);
    assert Candidate(loc, j)[|loc| + 1..] == Itoa(j);
    ItoaInjective(i, j);
  }

  /** The used ids that the search has not ruled out yet: finite, and one fewer after every miss. */
  ghost function Ahead(loc: string, used: set<string>, i: nat): set<string> {
    set x | x in used && IsCandidateFrom(loc, x, i)
  }

  ghost predicate IsCandidateFrom(loc: string, x: string, i: nat) {
    exists j :: j >= i && x == Candidate(loc, j)
  }

  lemma MissShrinksAhead(loc: string, used: set<string>, i: nat)
    requires Candidate(loc, i) in used
    ensures Ahead(loc, used, i + 1) < Ahead(loc, used, i)
  {
    var x := Candidate(loc, i);
    assert IsCandidateFrom(loc, x, i);
    forall y | y in Ahead(loc, used, i + 1)
      ensures y in Ahead(loc, used, i) && y != x
    {
      var j :| j >= i + 1 && y == Candidate(loc, j);
      if y == x {
        CandidateInjective(loc, i, j);
      }
    }
    assert x in Ahead(loc, used, i) && x !in Ahead(loc, used, i + 1);
  }

  /** The id with number `n`; 0 stands for no number. */
  function WithNumber(loc: string, n: nat): string {
    if n == 0 then loc else Candidate(loc, n)
  }

  /** `n` is the number the search must find: 0 for a free id, else the smallest that leads to a free one. */
  ghost predicate IsFreeNumber(loc: string, used: set<string>, n: nat) {
    && WithNumber(loc, n) !in used
    && (n > 0 ==> loc in used && forall k: nat :: 1 <= k < n ==> Candidate(loc, k) in used)
  }

  /** Such a number exists, because the used ids are finitely many and the candidates all differ. */
  lemma {:induction false} FreeNumberExists(loc: string, used: set<string>, i: nat) returns (n: nat)
    requires i >= 1 && loc in used && forall k: nat :: 1 <= k < i ==> Candidate(loc, k) in used
    ensures IsFreeNumber(loc, used, n)
    decreases |Ahead(loc, used, i)|
  {
    hide Ahead, Candidate;
    if Candidate(loc, i) in used {
      MissShrinksAhead(loc, used, i);
      Smaller(Ahead(loc, used, i + 1), Ahead(loc, used, i));
      n := FreeNumberExists(loc, used, i + 1);
    } else {
      n := i;
    }
  }

  lemma SomeFreeNumber(loc: string, used: set<string>)
    ensures exists n: nat :: IsFreeNumber(loc, used, n)
  {
    if loc in used {
      var n := FreeNumberExists(loc, used, 1);
    } else {
      assert IsFreeNumber(loc, used, 0);
    }
  }

  ghost function FreeNumber(loc: string, used: set<string>): (n: nat)
    ensures IsFreeNumber(loc, used, n)
  {
    SomeFreeNumber(loc, used);
    var n: nat :| IsFreeNumber(loc, used, n);
    n
  }

  /** There is only one. */
  lemma FreeNumberUnique(loc: string, used: set<string>, m: nat, n: nat)
    requires IsFreeNumber(loc, used, m) && IsFreeNumber(loc, used, n)
    ensures m == n
  {
    hide Candidate;
  }

  /** Pigeonhole: the number is at most the number of used ids. */
  lemma FreeNumberBound(loc: string, used: set<string>, n: nat)
    requires IsFreeNumber(loc, used, n)
    ensures n <= |used|
  {
    hide Candidate;
    if n > 0 {
      var tried := Tried(loc, n);
      LocIsNoCandidate(loc, n);
      assert tried + {loc} <= used;
      AtMost(tried + {loc}, used);
    }
  }

  lemma LocIsNoCandidate(loc: string, n: nat)
    ensures Candidate(loc, n) != loc
  {
    assert |Candidate(loc, n)| > |loc|;
  }

  /** The candidates before number `n`: n - 1 different ones, none of them the id itself. */
  lemma {:induction false} Tried(loc: string, n: nat) returns (s: set<string>)
    requires n >= 1
    ensures |s| == n - 1 && loc !in s
    ensures forall x :: x in s <==> exists k: nat :: 1 <= k < n && x == Candidate(loc, k)
  {
    hide Candidate;
    if n == 1 {
      s := {};
    } else {
      var init := Tried(loc, n - 1);
      var x := Candidate(loc, n - 1);
      LocIsNoCandidate(loc, n - 1);
      forall k: nat | 1 <= k < n - 1
        ensures Candidate(loc, k) != x
      {
        if Candidate(loc, k) == x {
          CandidateInjective(loc, k, n - 1);
        }
      }
      s := init + {x};
    }
  }

  lemma AtMost(a: set<string>, b: set<string>)
    requires a <= b
    ensures |a| <= |b|
  {
    if a != b {
      Smaller(a, b);
    }
  }

  /** The id with the free number. The search needs no bound, and ends after at most one turn more than there are
      used ids. */
  method DedupTrashLoc(loc: string, used: set<string>) returns (id: string, used': set<string>)
    ensures id == WithNumber(loc, FreeNumber(loc, used)) && used' == used + {id}
    ensures id !in used && FreeNumber(loc, used) <= |used| && (FreeNumber(loc, used) == 0 <==> loc !in used)
  {
    hide Candidate, Ahead;
    ghost var n := FreeNumber(loc, used);
    FreeNumberBound(loc, used, n);
    if loc !in used {
      FreeNumberUnique(loc, used, 0, n);
      return loc, used + {loc};
    }
    var i: nat := 1;
    while Candidate(loc, i) in used
      invariant i >= 1 && forall k: nat :: 1 <= k < i ==> Candidate(loc, k) in used
      decreases |Ahead(loc, used, i)|
    {
      MissShrinksAhead(loc, used, i);
      Smaller(Ahead(loc, used, i + 1), Ahead(loc, used, i));
      i := i + 1;
    }
    FreeNumberUnique(loc, used, i, n);
    return Candidate(loc, i), used + {Candidate(loc, i)};
  }

  lemma {:induction false} Smaller(a: set<string>, b: set<string>)
    requires a < b
    ensures |a| < |b|
  {
    if a == {} {
      var x :| x in b;
      assert |b| == |b - {x}| + 1;
    } else {
      var x :| x in a;
      assert |a| == |a - {x}| + 1 && |b| == |b - {x}| + 1;
      Smaller(a - {x}, b - {x});
    }
  }

  // ---------- location ids ----------

  /** The length of a character in UTF-8. */
  function Utf8Length(x: char): nat {
    if x < '\U{80}' then 1 else if x < '\U{800}' then 2 else if x < '\U{10000}' then 3 else 4
  }

  /** len(s). */
  function Bytes(s: string): nat {
    if s == "" then 0 else Bytes(s[..|s| - 1]) + Utf8Length(s[|s| - 1])
  }

  /** The bytes of a character, after RFC 3629. */
  function Utf8(x: char): seq<int> {
    var n := x as int;
    if n < 0x80 then [n]
    else if n < 0x800 then [0xC0 + n / 0x40, 0x80 + n % 0x40]
    else if n < 0x1_0000 then [0xE0 + n / 0x1000, 0x80 + n / 0x40 % 0x40, 0x80 + n % 0x40]
    else [0xF0 + n / 0x4_0000, 0x80 + n / 0x1000 % 0x40, 0x80 + n / 0x40 % 0x40, 0x80 + n % 0x40]
  }

  /** The number a decoder reads: the payload bits of the leading byte, then six bits a byte. */
  function Utf8Value(b: seq<int>): int {
    if |b| == 1 then b[0]
    else if |b| == 2 then (b[0] - 0xC0) * 0x40 + b[1] - 0x80
    else if |b| == 3 then (b[0] - 0xE0) * 0x1000 + (b[1] - 0x80) * 0x40 + b[2] - 0x80
    else if |b| == 4 then (b[0] - 0xF0) * 0x4_0000 + (b[1] - 0x80) * 0x1000 + (b[2] - 0x80) * 0x40 + b[3] - 0x80
    else -1
  }

  /** The leading byte announces the number of bytes, all others are continuation bytes. */
  predicate WellFormedUtf8(b: seq<int>) {
    && b != [] && (forall i :: 1 <= i < |b| ==> 0x80 <= b[i] < 0xC0)
    && if |b| == 1 then b[0] < 0x80 else if |b| == 2 then 0xC0 <= b[0] < 0xE0
       else if |b| == 3 then 0xE0 <= b[0] < 0xF0 else |b| == 4 && 0xF0 <= b[0] < 0xF8
  }

  /** A character takes the bytes of its encoding: well-formed, and read back as the character. */
  lemma Utf8Counts(x: char)
    ensures |Utf8(x)| == Utf8Length(x) && WellFormedUtf8(Utf8(x)) && Utf8Value(Utf8(x)) == x as int
  {
    var n := x as int;
    assert n / 0x40 / 0x40 == n / 0x1000 && n / 0x1000 / 0x40 == n / 0x4_0000;
  }

  /** No well-formed encoding of it is shorter. */
  lemma Utf8Shortest(x: char, b: seq<int>)
    requires WellFormedUtf8(b) && Utf8Value(b) == x as int
    ensures |b| >= Utf8Length(x)
  {
    assert |b| > 1 ==> 0x80 <= b[1] < 0xC0;
    assert |b| > 2 ==> 0x80 <= b[2] < 0xC0;
  }

  predicate DotsAt(s: string, i: nat)
    requires i + 1 < |s|
  {
    s[i] == '.' && s[i + 1] == '.'
  }

  /** strings.Contains(s, ".."). */
  predicate HasDots(s: string) {
    exists i :: 0 <= i < |s| - 1 && DotsAt(s, i)
  }

  /** strings.LastIndex(s, ".d"). */
  function LastDotD(s: string): (i: int)
    ensures -1 <= i
    ensures 0 <= i ==> i + 2 <= |s| && s[i] == '.' && s[i + 1] == 'd'
  {
    if |s| < 2 then -1
    else if s[|s| - 2] == '.' && s[|s| - 1] == 'd' then |s| - 2
    else LastDotD(s[..|s| - 1])
  }

  /** What may follow ".d": digits and, from the second place on, dashes. */
  predicate ValidRest(rest: string) {
    rest != "" && IsDigit(rest[0]) && forall j :: 0 <= j < |rest| ==> IsDigit(rest[j]) || rest[j] == '-'
  }

  predicate ValidLocationID(id: string) {
    && id != "" && Bytes(id) <= 255 && '/' !in id && '\\' !in id && !HasDots(id)
    && LastDotD(id) > 0 && LastDotD(id) + 2 < |id| && ValidRest(id[LastDotD(id) + 2..])
  }

  /** splitTrashLocationID: the embedded basename and the suffix. */
  function SplitLocation(loc: string): Option<(string, string)> {
    if !ValidLocationID(loc) then None
    else Some((loc[..LastDotD(loc)], loc[LastDotD(loc)..]))
  }

  const BASE_MAX := 200

  /** capTrashBase: the longest beginning of the base that fits into 200 bytes. */
  function Cap(base: string): string {
    if Bytes(base) <= BASE_MAX then base else Cap(base[..|base| - 1])
  }

  lemma {:induction false} CapFits(base: string)
    ensures Bytes(Cap(base)) <= 200 && |Cap(base)| <= |base| && Cap(base) == base[..|Cap(base)|]
    ensures forall k :: |Cap(base)| < k <= |base| ==> Bytes(base[..k]) > 200
  {
    if Bytes(base) <= BASE_MAX {
      assert base[..|base|] == base;
    } else {
      var init := base[..|base| - 1];
      CapFits(init);
      assert base[..|base|] == base;
      assert forall k :: 0 <= k <= |init| ==> init[..k] == base[..k];
    }
  }

  lemma CapNotEmpty(base: string)
    ensures Cap(base) == "" <==> base == ""
  {
    CapFits(base);
    if base != "" {
      assert base[..1][..0] == "";
      assert Bytes(base[..1]) == Bytes("") + Utf8Length(base[0]);
    }
  }

  lemma {:induction false} LastDotDOf(base: string, rest: string)
    requires '.' !in rest
    ensures LastDotD(base + ".d" + rest) == |base|
  {
    var s := base + ".d" + rest;
    if rest == "" {
      assert s[|s| - 2] == '.' && s[|s| - 1] == 'd';
    } else {
      var init := rest[..|rest| - 1];
      LastDotDOf(base, init);
      assert s[..|s| - 1] == base + ".d" + init;
      assert s[|s| - 2] == if init == "" then 'd' else init[|init| - 1];
    }
  }

  /** Dots can only meet inside the base or at its end. */
  lemma DotsInBase(base: string, rest: string)
    requires '.' !in rest
    ensures HasDots(base + ".d" + rest) <==> HasDots(base + ".")
  {
    var s, b := base + ".d" + rest, base + ".";
    assert forall i :: 0 <= i < |b| ==> s[i] == b[i];
    assert s[|b|] == 'd';
    assert s[|b| + 1..] == rest;
    assert forall i :: |b| + 1 <= i < |s| ==> s[i] != '.' by {
      forall i | |b| + 1 <= i < |s| ensures s[i] != '.' { assert s[i] == s[|b| + 1..][i - |b| - 1]; }
    }
    if HasDots(s) {
      var i :| 0 <= i < |s| - 1 && DotsAt(s, i);
      assert i + 1 < |b|;
      assert DotsAt(b, i);
    }
    if HasDots(b) {
      var i :| 0 <= i < |b| - 1 && DotsAt(b, i);
      assert DotsAt(s, i);
    }
  }

  /** A base that can stand in a location id. */
  predicate ProperBase(base: string) {
    base != "" && '/' !in base && '\\' !in base && !HasDots(base + ".")
  }

  /** An id put together from a base and a proper ending is valid exactly when the base is proper and it fits. */
  lemma ValidWhenPutTogether(base: string, rest: string)
    requires ValidRest(rest)
    ensures ValidLocationID(base + ".d" + rest) <==> ProperBase(base) && Bytes(base + ".d" + rest) <= 255
  {
    hide Bytes, LastDotD, HasDots;
    var s := base + ".d" + rest;
    assert '.' !in rest && '/' !in rest && '\\' !in rest;
    LastDotDOf(base, rest);
    DotsInBase(base, rest);
    assert s[|base| + 2..] == rest;
    assert forall x :: x in s <==> x in base || x == '.' || x == 'd' || x in rest;
  }

  /** Splitting is putting together undone: every valid id is its base and its suffix, and both are proper. */
  lemma SplitInverts(loc: string)
    requires ValidLocationID(loc)
    ensures var (base, suffix) := SplitLocation(loc).value;
            loc == base + suffix && ProperBase(base) && |suffix| > 2 && suffix[..2] == ".d" && ValidRest(suffix[2..])
  {
    hide Bytes, HasDots;
    var k := LastDotD(loc);
    var base, rest := loc[..k], loc[k + 2..];
    assert loc[k..] == ".d" + rest;
    assert loc == base + ".d" + rest;
    ValidWhenPutTogether(base, rest);
  }

  // ---------- planTrash ----------

  /** A trash row as planTrash reads it; `name` is the last segment of the path convertPath made of its
      original path, or nothing when that no longer resolves. */
  datatype Item = Item(id: nat, loc: string, name: Option<string>)

  /** The id the dedup pass starts from: the capped new basename with the old suffix; nothing for a row that is
      skipped. */
  function Proposed(item: Item): Option<string> {
    match SplitLocation(item.loc)
    case None => None
    case Some(parts) => if item.name.None? then None else Some(Cap(item.name.value) + parts.1)
  }

  /** The rows that are converted, in order. */
  function Converted(items: seq<Item>): (out: seq<Item>)
    ensures forall i :: 0 <= i < |out| ==> Proposed(out[i]).Some? && out[i] in items
  {
    if items == [] then []
    else
      var init, last := items[..|items| - 1], items[|items| - 1];
      if Proposed(last).Some? then Converted(init) + [last] else Converted(init)
  }

  ghost predicate DistinctLocs(items: seq<Item>) {
    forall i, j :: 0 <= i < j < |items| ==> items[i].loc != items[j].loc
  }

  /** The ids of the rows that are skipped. */
  ghost function Kept(items: seq<Item>): set<string> {
    set i | 0 <= i < |items| && Proposed(items[i]).None? :: items[i].loc
  }

  /** The kept ids, found as the code finds them: no converted row has the same old id. */
  method KeptLocs(items: seq<Item>) returns (used: set<string>)
    requires DistinctLocs(items)
    ensures used == Kept(items)
  {
    hide Proposed;
    used := {};
    for i := 0 to |items|
      invariant used == set k | 0 <= k < i && Proposed(items[k]).None? :: items[k].loc
    {
      var kept := true;
      for j := 0 to |items|
        invariant kept <==> forall k :: 0 <= k < j ==> !(Proposed(items[k]).Some? && items[k].loc == items[i].loc)
      {
        if Proposed(items[j]).Some? && items[j].loc == items[i].loc {
          kept := false;
        }
      }
      if kept {
        used := used + {items[i].loc};
      }
    }
  }

  /** Every row is converted or keeps its id. */
  lemma {:induction false} KeptCount(items: seq<Item>)
    ensures |Kept(items)| + |Converted(items)| <= |items|
  {
    hide Proposed;
    if items != [] {
      var init, last := items[..|items| - 1], items[|items| - 1];
      KeptCount(init);
      var more := if Proposed(last).None? then {last.loc} else {};
      assert Kept(items) == Kept(init) + more;
      assert |Kept(init) + more| <= |Kept(init)| + |more|;
    }
  }

  /** The numbers of the rows, in order: each row takes the free number beside the ids in use before it. */
  ghost function Numbers(rows: seq<Item>, used: set<string>): (ns: seq<nat>)
    requires forall i :: 0 <= i < |rows| ==> Proposed(rows[i]).Some?
    ensures |ns| == |rows|
  {
    hide Proposed;
    if rows == [] then []
    else
      var loc := Proposed(rows[0]).value;
      var n := FreeNumber(loc, used);
      [n] + Numbers(rows[1..], used + {WithNumber(loc, n)})
  }

  /** The dedup pass: one id per row, in order, pairwise distinct and outside `used`. */
  method AssignIds(rows: seq<Item>, used: set<string>) returns (locs: seq<string>)
    requires forall i :: 0 <= i < |rows| ==> Proposed(rows[i]).Some?
    ensures |locs| == |rows|
    ensures forall i :: 0 <= i < |rows| ==> locs[i] == WithNumber(Proposed(rows[i]).value, Numbers(rows, used)[i])
    ensures forall i :: 0 <= i < |rows| ==> locs[i] !in used && Numbers(rows, used)[i] < |used| + |rows|
    ensures forall i, j :: 0 <= i < j < |locs| ==> locs[i] != locs[j]
  {
    hide Proposed, WithNumber, FreeNumber;
    locs := [];
    var taken := used;
    ghost var ns := Numbers(rows, used);
    assert rows[0..] == rows;
    for m := 0 to |rows|
      invariant |locs| == m && used <= taken && |taken| <= |used| + m
      invariant ns[m..] == Numbers(rows[m..], taken)
      invariant forall i :: 0 <= i < m ==>
                  locs[i] == WithNumber(Proposed(rows[i]).value, ns[i]) && ns[i] < |used| + |rows|
      invariant forall i :: 0 <= i < m ==> locs[i] !in used && locs[i] in taken
      invariant forall i, j :: 0 <= i < j < m ==> locs[i] != locs[j]
    {
      var loc;
      ghost var before := taken;
      loc, taken := DedupTrashLoc(Proposed(rows[m]).value, taken);
      assert rows[m..][0] == rows[m] && rows[m..][1..] == rows[m + 1..];
      assert ns[m] == ns[m..][0] && ns[m..][1..] == ns[m + 1..];
      assert |taken| == |before| + 1;
      locs := locs + [loc];
    }
  }

  /** What the number adds to the length of an id. */
  function NumberBytes(n: nat): nat {
    if n == 0 then 0 else 1 + |Itoa(n)|
  }

  /** planTrash: the i-th converted row gets the i-th id, the capped new basename with the old suffix and its
      number. The ids are pairwise distinct and avoid every id a skipped row keeps, every number is below the
      number of rows, and an id is valid again exactly when the basename can stand in an id and basename, suffix
      and number fit into 255 bytes. */
  method PlanTrash(items: seq<Item>) returns (locs: seq<string>)
    requires DistinctLocs(items)
    ensures |locs| == |Converted(items)|
    ensures var ns := Numbers(Converted(items), Kept(items));
            forall i :: 0 <= i < |locs| ==>
              locs[i] == WithNumber(Proposed(Converted(items)[i]).value, ns[i]) && ns[i] < |items|
    ensures var ns := Numbers(Converted(items), Kept(items));
            forall i :: 0 <= i < |locs| ==> (ValidLocationID(locs[i]) <==> Fits(Converted(items)[i], ns[i]))
    ensures forall i, j :: 0 <= i < j < |locs| ==> locs[i] != locs[j]
    ensures forall i, k :: 0 <= i < |locs| && 0 <= k < |items| && Proposed(items[k]).None? ==> locs[i] != items[k].loc
  {
    hide Proposed, ValidLocationID, Fits, WithNumber, Numbers;
    var used := KeptLocs(items);
    KeptCount(items);
    locs := AssignIds(Converted(items), used);
    forall i | 0 <= i < |locs|
      ensures ValidLocationID(locs[i]) <==> Fits(Converted(items)[i], Numbers(Converted(items), Kept(items))[i])
    {
      NewIdValid(Converted(items)[i], Numbers(Converted(items), Kept(items))[i]);
    }
  }

  /** The new basename of the row can stand in an id, and leaves room for the suffix and the number. */
  predicate Fits(item: Item, n: nat)
    requires Proposed(item).Some?
  {
    var base, suffix := Cap(item.name.value), SplitLocation(item.loc).value.1;
    ProperBase(base) && Bytes(base) + Bytes(suffix) + NumberBytes(n) <= 255
  }

  /** The new id of a row is valid exactly when it fits. */
  lemma NewIdValid(item: Item, n: nat)
    requires Proposed(item).Some?
    ensures ValidLocationID(WithNumber(Proposed(item).value, n)) <==> Fits(item, n)
  {
    hide ValidLocationID, ProperBase, Cap, Bytes, Candidate, ValidRest;
    SplitInverts(item.loc);
    var suffix := SplitLocation(item.loc).value.1;
    var base, rest := Cap(item.name.value), suffix[2..];
    assert base + suffix == base + ".d" + rest;
    BytesConcat(base, suffix);
    if n == 0 {
      ValidWhenPutTogether(base, rest);
    } else {
      var numbered := NumberedRest(base, rest, n);
      ValidWhenPutTogether(base, numbered);
      NumberedBytes(base + suffix, n);
    }
  }

  lemma NumberedBytes(loc: string, n: nat)
    ensures Bytes(Candidate(loc, n)) == Bytes(loc) + 1 + |Itoa(n)|
  {
    hide Bytes, Itoa;
    DigitsOnly(n);
    BytesConcat(loc, "-");
    BytesConcat(loc + "-", Itoa(n));
    DigitBytes(Itoa(n));
    DashBytes();
  }

  lemma DashBytes()
    ensures Bytes("-") == 1
  {
    assert "-"[..0] == "";
  }

  lemma {:induction false} DigitBytes(s: string)
    requires forall j :: 0 <= j < |s| ==> IsDigit(s[j])
    ensures Bytes(s) == |s|
  {
    if s != "" {
      DigitBytes(s[..|s| - 1]);
    }
  }

  /** A larger number is not shorter. */
  lemma {:induction false} ItoaLength(m: nat, n: nat)
    requires m <= n
    ensures |Itoa(m)| <= |Itoa(n)|
  {
    if m >= 10 {
      ItoaLength(m / 10, n / 10);
    }
  }

  /** On the inputs alone: the id of a row is valid if basename and suffix leave room for the longest number among
      that many rows, and not valid unless they fit by themselves. */
  lemma FitsOnInputs(item: Item, n: nat, rows: nat)
    requires Proposed(item).Some? && n < rows
    ensures Fits(item, rows) ==> Fits(item, n)
    ensures Fits(item, n) ==> Fits(item, 0)
  {
    hide Proposed, ProperBase, Bytes, Cap, SplitLocation, Itoa;
    ItoaLength(n, rows);
  }

  lemma NumberedRest(base: string, rest: string, n: nat) returns (numbered: string)
    requires ValidRest(rest)
    ensures ValidRest(numbered) && Candidate(base + ".d" + rest, n) == base + ".d" + numbered
  {
    hide Itoa;
    DigitsOnly(n);
    numbered := rest + "-" + Itoa(n);
    assert numbered[0] == rest[0];
  }

  lemma {:induction false} BytesConcat(a: string, b: string)
    ensures Bytes(a + b) == Bytes(a) + Bytes(b)
    decreases |b|
  {
    if b == "" {
      assert a + b == a;
    } else {
      BytesConcat(a, b[..|b| - 1]);
      assert (a + b)[..|a + b| - 1] == a + b[..|b| - 1];
    }
  }

  lemma NoDots(base: string)
    requires '.' !in base
    ensures !HasDots(base + ".")
  {
    var s := base + ".";
    forall i | 0 <= i < |s| - 1
      ensures !DotsAt(s, i)
    {
      assert s[i] == base[i];
    }
  }

  /** A basename without dots and slashes, as every token is one, gets a valid id whatever its length, as long as
      suffix and number stay within 55 bytes. */
  lemma TokenIdsValid(item: Item, n: nat)
    requires Proposed(item).Some? && Bytes(SplitLocation(item.loc).value.1) + NumberBytes(n) <= 55
    requires var m := item.name.value; m != "" && '.' !in m && '/' !in m && '\\' !in m
    ensures ValidLocationID(WithNumber(Proposed(item).value, n))
  {
    hide Bytes, ValidLocationID, SplitLocation, WithNumber, NumberBytes;
    var base := Cap(item.name.value);
    CapFits(item.name.value);
    CapNotEmpty(item.name.value);
    NoDots(base);
    NewIdValid(item, n);
  }

  lemma {:induction false} DigitsOnly(n: nat)
    ensures forall j :: 0 <= j < |Itoa(n)| ==> IsDigit(Itoa(n)[j])
  {
    if n >= 10 {
      DigitsOnly(n / 10);
    }
  }

  /** A decrypting sweep gives an entry named "x." an id that is no longer valid. */
  lemma TrailingDotInvalid()
    ensures var item := Item(1, "t.d5", Some("x."));
            Proposed(item) == Some("x..d5") && ValidLocationID(item.loc) && !ValidLocationID("x..d5")
  {
    ShortBytes();
    ValidWhenPutTogether("t", "5");
    assert "t" + ".d" + "5" == "t.d5";
    NoDots("t");
    assert "t" + "." == "t.";
    SplitInverts("t.d5");
    LastDotDOf("t", "5");
    assert "t.d5"[1..] == ".d5" && "x." + ".d5" == "x..d5";
    assert SplitLocation("t.d5").value.1 == ".d5";
    assert DotsAt("x..d5", 1);
  }

  lemma ShortBytes()
    ensures Bytes("t.d5") == 4 && Bytes("x.") == 2 && Cap("x.") == "x."
  {
    assert "t.d5"[..3] == "t.d" && "t.d"[..2] == "t." && "t."[..1] == "t" && "t"[..0] == "";
    assert Bytes("t") == 1 && Bytes("t.") == 2 && Bytes("t.d") == 3;
    assert "x."[..1] == "x" && "x"[..0] == "";
    assert Bytes("x") == 1;
  }
}
