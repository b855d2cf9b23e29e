/** Assembling a chunked upload (internal/files/uploads.go:94-108, 495-531, 575-591). */
module Chunks {
  import opened Common

  const MAX_CHUNKS := 10000

  /** A stored entry of the staging folder. */
  datatype Entry = Entry(name: string, size: nat, data: seq<bv8>)

  datatype Chunk = Chunk(index: int, size: nat, data: seq<bv8>)

  /** strconv.ParseInt on a string of digits; leading zeros are accepted. */
  function Number(s: string): nat
    requires forall i :: 0 <= i < |s| ==> IsDigit(s[i])
  {
    if s == "" then 0 else 10 * Number(s[..|s| - 1]) + DigitValue(s[|s| - 1])
  }

  function DigitValue(c: char): nat
    requires IsDigit(c)
  {
    (c - '0') as int
  }

  /** parseChunkName. */
  function ParseChunkName(name: string): Option<int> {
    if name == "" || exists i :: 0 <= i < |name| && !IsDigit(name[i]) then None
    else if Number(name) < 1 || Number(name) > MAX_CHUNKS then None
    else Some(Number(name))
  }

  /** The entries that are chunks, in listing order. */
  function Parsed(ents: seq<Entry>): (out: seq<Chunk>)
    ensures forall i :: 0 <= i < |out| ==> 1 <= out[i].index <= MAX_CHUNKS
  {
    if ents == [] then []
    else
      var init, e := Parsed(ents[..|ents| - 1]), ents[|ents| - 1];
      match ParseChunkName(e.name)
      case None => init
      case Some(n) => init + [Chunk(n, e.size, e.data)]
  }

  ghost predicate Sorted(cs: seq<Chunk>) {
    forall i, j :: 0 <= i < j < |cs| ==> cs[i].index <= cs[j].index
  }

  /** The numbers are exactly 1..n, n at least 1, each once. */
  ghost predicate Complete(cs: seq<Chunk>) {
    && cs != []
    && (forall i, j :: 0 <= i < j < |cs| ==> cs[i].index != cs[j].index)
    && forall k :: 1 <= k <= |cs| ==> HasIndex(cs, k)
  }

  ghost predicate HasIndex(cs: seq<Chunk>, k: int) {
    exists i :: 0 <= i < |cs| && cs[i].index == k
  }

  ghost predicate InSequence(cs: seq<Chunk>) {
    forall i :: 0 <= i < |cs| ==> cs[i].index == i + 1
  }

  function Weight(cs: seq<Chunk>, w: Chunk -> nat): nat {
    if cs == [] then 0 else Weight(cs[..|cs| - 1], w) + w(cs[|cs| - 1])
  }

  function SizeOf(): Chunk -> nat {
    (c: Chunk) => c.size
  }

  /** The sum of the listed sizes. */
  function TotalSize(cs: seq<Chunk>): nat {
    Weight(cs, SizeOf())
  }

  function Concat(cs: seq<Chunk>): seq<bv8> {
    if cs == [] then [] else Concat(cs[..|cs| - 1]) + cs[|cs| - 1].data
  }

  /** A sorted list of n numbers that contains 1..n is 1..n. */
  lemma {:induction false} SortedCoverInSequence(cs: seq<Chunk>)
    requires Sorted(cs) && forall k :: 1 <= k <= |cs| ==> HasIndex(cs, k)
    ensures InSequence(cs)
    decreases |cs|
  {
    if cs != [] {
      var n := |cs|;
      var init := cs[..n - 1];
      assert HasIndex(cs, n);
      assert cs[n - 1].index >= n;
      forall k | 1 <= k <= n - 1
        ensures HasIndex(init, k)
      {
        assert HasIndex(cs, k);
        var i :| 0 <= i < n && cs[i].index == k;
        assert init[i] == cs[i];
      }
      SortedCoverInSequence(init);
      assert forall i :: 0 <= i < n - 1 ==> init[i] == cs[i];
      var j :| 0 <= j < n && cs[j].index == n;
      forall i | 0 <= i < n
        ensures cs[i].index == i + 1
      {
        if i < n - 1 {
          assert init[i] == cs[i];
        }
      }
    }
  }

  /** The order check passes exactly for complete numberings, in whatever order the entries were listed. */
  lemma OrderCheckIsCompleteness(cs: seq<Chunk>, sorted: seq<Chunk>)
    requires Sorted(sorted) && multiset(sorted) == multiset(cs)
    ensures |sorted| == |cs|
    ensures cs != [] && InSequence(sorted) <==> Complete(cs)
  {
    assert |sorted| == |multiset(sorted)| == |multiset(cs)| == |cs|;
    if Complete(cs) {
      forall k | 1 <= k <= |sorted|
        ensures HasIndex(sorted, k)
      {
        assert HasIndex(cs, k);
        var i :| 0 <= i < |cs| && cs[i].index == k;
        assert cs[i] in multiset(cs);
        assert cs[i] in sorted;
      }
      SortedCoverInSequence(sorted);
    }
    if cs != [] && InSequence(sorted) {
      forall k | 1 <= k <= |cs|
        ensures HasIndex(cs, k)
      {
        assert sorted[k - 1] in multiset(sorted);
        assert sorted[k - 1] in cs;
      }
      CoverWithoutRepeats(cs, sorted);
    }
  }

  /** Two equal numbers among n that cover 1..n would leave the sorted copy short. */
  lemma CoverWithoutRepeats(cs: seq<Chunk>, sorted: seq<Chunk>)
    requires multiset(sorted) == multiset(cs) && InSequence(sorted)
    ensures forall i, j :: 0 <= i < j < |cs| ==> cs[i].index != cs[j].index
  {
    forall i, j | 0 <= i < j < |cs|
      ensures cs[i].index != cs[j].index
    {
      if cs[i].index == cs[j].index {
        RepeatedIndex(cs, sorted, i, j);
      }
    }
  }

  lemma RepeatedIndex(cs: seq<Chunk>, sorted: seq<Chunk>, i: nat, j: nat)
    requires multiset(sorted) == multiset(cs) && InSequence(sorted) && i < j < |cs|
    ensures cs[i].index != cs[j].index
  {
    assert cs[i] in multiset(cs) && cs[j] in multiset(cs);
    assert cs[i] in sorted && cs[j] in sorted;
    var a :| 0 <= a < |sorted| && sorted[a] == cs[i];
    var b :| 0 <= b < |sorted| && sorted[b] == cs[j];
    if cs[i].index == cs[j].index {
      assert a == b && cs[i] == cs[j];
      TwiceIn(cs, i, j);
      OnceIn(sorted, a);
    }
  }

  lemma TwiceIn(cs: seq<Chunk>, i: nat, j: nat)
    requires i < j < |cs| && cs[i] == cs[j]
    ensures multiset(cs)[cs[i]] >= 2
  {
    assert cs == cs[..i] + [cs[i]] + cs[i + 1..j] + [cs[j]] + cs[j + 1..];
  }

  lemma OnceIn(s: seq<Chunk>, a: nat)
    requires InSequence(s) && a < |s|
    ensures multiset(s)[s[a]] == 1
  {
    assert s == s[..a] + [s[a]] + s[a + 1..];
    assert s[a] !in s[..a] && s[a] !in s[a + 1..];
    assert s[a] !in multiset(s[..a]) && s[a] !in multiset(s[a + 1..]);
  }

  /** The chunk with number `k`. */
  ghost function Numbered(cs: seq<Chunk>, k: int): Chunk
    requires HasIndex(cs, k)
  {
    var i :| 0 <= i < |cs| && cs[i].index == k;
    cs[i]
  }

  /** Chunk 1, chunk 2, ... of a complete upload, read off the numbers and not off any sorting. */
  ghost function InNumericOrder(cs: seq<Chunk>): seq<Chunk>
    requires Complete(cs)
  {
    seq(|cs|, i requires 0 <= i < |cs| => Numbered(cs, i + 1))
  }

  /** Every sorted copy of a complete upload is the chunks in numeric order, so neither the listing nor the
      sort can influence the body. */
  lemma SortedIsNumericOrder(cs: seq<Chunk>, sorted: seq<Chunk>)
    requires Complete(cs) && Sorted(sorted) && multiset(sorted) == multiset(cs)
    ensures sorted == InNumericOrder(cs)
  {
    OrderCheckIsCompleteness(cs, sorted);
    forall i | 0 <= i < |sorted|
      ensures sorted[i] == Numbered(cs, i + 1)
    {
      assert sorted[i] in multiset(sorted);
      assert sorted[i] in cs;
      var j :| 0 <= j < |cs| && cs[j] == sorted[i];
      assert HasIndex(cs, i + 1);
      var k :| 0 <= k < |cs| && cs[k] == Numbered(cs, i + 1);
    }
  }

  /** A sum over the chunks does not depend on their order. */
  lemma {:induction false} WeightPermutes(a: seq<Chunk>, b: seq<Chunk>, w: Chunk -> nat)
    requires multiset(a) == multiset(b)
    ensures Weight(a, w) == Weight(b, w)
    decreases |a|
  {
    assert |multiset(a)| == |a| && |multiset(b)| == |b|;
    if a != [] {
      var init, x := a[..|a| - 1], a[|a| - 1];
      assert a == init + [x];
      assert x in multiset(b);
      var rest := TakenOut(b, x, w);
      assert multiset(init) == multiset(rest);
      WeightPermutes(init, rest, w);
    }
  }

  lemma TakenOut(b: seq<Chunk>, x: Chunk, w: Chunk -> nat) returns (rest: seq<Chunk>)
    requires x in b
    ensures multiset(rest) == multiset(b) - multiset{x} && Weight(b, w) == Weight(rest, w) + w(x)
  {
    hide Weight;
    var k :| 0 <= k < |b| && b[k] == x;
    rest := b[..k] + b[k + 1..];
    assert rest[..k] + [x] + rest[k..] == b;
    InsertedAt(rest, x, k);
    WeightInsert(rest, x, k, w);
  }

  lemma {:induction false} WeightInsert(s: seq<Chunk>, x: Chunk, k: nat, w: Chunk -> nat)
    requires k <= |s|
    ensures Weight(s[..k] + [x] + s[k..], w) == Weight(s, w) + w(x)
    decreases |s|
  {
    var t := s[..k] + [x] + s[k..];
    if k == |s| {
      assert t[..|t| - 1] == s;
    } else {
      var s' := s[..|s| - 1];
      assert t[..|t| - 1] == s'[..k] + [x] + s'[k..];
      WeightInsert(s', x, k, w);
    }
  }

  method SortByIndex(cs: seq<Chunk>) returns (s: seq<Chunk>)
    ensures Sorted(s) && multiset(s) == multiset(cs)
  {
    s := [];
    for i := 0 to |cs|
      invariant Sorted(s) && multiset(s) == multiset(cs[..i])
    {
      s := InsertByIndex(s, cs[i]);
      assert cs[..i + 1] == cs[..i] + [cs[i]];
    }
    assert cs[..|cs|] == cs;
  }

  method InsertByIndex(s: seq<Chunk>, c: Chunk) returns (r: seq<Chunk>)
    requires Sorted(s)
    ensures Sorted(r) && multiset(r) == multiset(s) + multiset{c}
  {
    var k := 0;
    while k < |s| && s[k].index <= c.index
      invariant 0 <= k <= |s|
      invariant forall j :: 0 <= j < k ==> s[j].index <= c.index
    {
      k := k + 1;
    }
    r := s[..k] + [c] + s[k..];
    InsertedAt(s, c, k);
  }

  // ---------- the body ----------

  /** How many bytes of the upload come before its chunk number `k`. */
  ghost function Before(ents: seq<Entry>, k: int): nat {
    if ents == [] then 0
    else
      var e := ents[|ents| - 1];
      var n := ParseChunkName(e.name);
      Before(ents[..|ents| - 1], k) + if n.Some? && n.value < k then |e.data| else 0
  }

  function LengthBefore(k: int): Chunk -> nat {
    (c: Chunk) => if c.index < k then |c.data| else 0
  }

  lemma {:induction false} BeforeIsWeight(ents: seq<Entry>, k: int)
    ensures Before(ents, k) == Weight(Parsed(ents), LengthBefore(k))
    decreases |ents|
  {
    hide ParseChunkName;
    if ents != [] {
      var init, e := ents[..|ents| - 1], ents[|ents| - 1];
      BeforeIsWeight(init, k);
      if ParseChunkName(e.name).Some? {
        var c := Chunk(ParseChunkName(e.name).value, e.size, e.data);
        assert Parsed(ents) == Parsed(init) + [c];
        assert (Parsed(init) + [c])[..|Parsed(init)|] == Parsed(init);
      }
    }
  }

  /** Of chunks 1, 2, ... the first ones up to number k come before k. */
  lemma {:induction false} WeightInSequence(cs: seq<Chunk>, k: nat)
    requires InSequence(cs)
    ensures Weight(cs, LengthBefore(k + 1)) == |Concat(cs[..if k < |cs| then k else |cs|])|
    decreases |cs|
  {
    if cs != [] {
      var n := |cs|;
      var init := cs[..n - 1];
      assert cs[n - 1].index == n;
      WeightInSequence(init, k);
      if k < n {
        assert init[..if k < n - 1 then k else n - 1] == cs[..k];
      } else {
        assert init[..n - 1] == init && cs[..n] == cs;
      }
    }
  }

  /** Each chunk is found in the concatenation where the chunks before it end. */
  lemma {:induction false} ConcatAt(cs: seq<Chunk>, i: nat)
    requires i < |cs|
    ensures var off := |Concat(cs[..i])|;
            off + |cs[i].data| <= |Concat(cs)| && Concat(cs)[off..off + |cs[i].data|] == cs[i].data
    decreases |cs|
  {
    var n := |cs|;
    var init := cs[..n - 1];
    if i < n - 1 {
      ConcatAt(init, i);
      assert init[..i] == cs[..i];
      var off, l := |Concat(cs[..i])|, |cs[i].data|;
      assert Concat(cs)[off..off + l] == Concat(init)[off..off + l];
    }
  }

  /** The chunks are the entries whose names are chunk names, with their sizes and contents. */
  lemma {:induction false} ParsedIs(ents: seq<Entry>, c: Chunk)
    ensures c in Parsed(ents) <==> exists e :: e in ents && ParseChunkName(e.name) == Some(c.index) && c.size == e.size
                                               && c.data == e.data
    decreases |ents|
  {
    hide ParseChunkName;
    if ents != [] {
      var init, last := ents[..|ents| - 1], ents[|ents| - 1];
      ParsedIs(init, c);
      assert forall e :: e in ents <==> e in init || e == last;
    }
  }

  /** In a complete upload the contents of the entry named k stand behind those of all entries with smaller
      numbers, and nothing else is in the body. */
  lemma BodyHolds(ents: seq<Entry>, sorted: seq<Chunk>, e: Entry)
    requires Sorted(sorted) && multiset(sorted) == multiset(Parsed(ents)) && InSequence(sorted)
    requires e in ents && ParseChunkName(e.name).Some?
    ensures var off := Before(ents, ParseChunkName(e.name).value);
            off + |e.data| <= |Concat(sorted)| && Concat(sorted)[off..off + |e.data|] == e.data
  {
    hide ParseChunkName, Parsed, Weight, Concat, Before;
    var k := ParseChunkName(e.name).value;
    var c := Chunk(k, e.size, e.data);
    ParsedIs(ents, c);
    assert c in multiset(sorted);
    var i :| 0 <= i < |sorted| && sorted[i] == c;
    BeforeIsWeight(ents, k);
    WeightPermutes(Parsed(ents), sorted, LengthBefore(k));
    WeightInSequence(sorted, i);
    ConcatAt(sorted, i);
  }

  lemma BodyLength(ents: seq<Entry>, sorted: seq<Chunk>)
    requires multiset(sorted) == multiset(Parsed(ents)) && InSequence(sorted)
    ensures |Concat(sorted)| == Before(ents, |sorted| + 1)
    ensures (forall e :: e in ents ==> |e.data| == e.size) ==> TotalSize(Parsed(ents)) == |Concat(sorted)|
  {
    hide Parsed, Concat, Before;
    BeforeIsWeight(ents, |sorted| + 1);
    WeightPermutes(Parsed(ents), sorted, LengthBefore(|sorted| + 1));
    WeightInSequence(sorted, |sorted|);
    assert sorted[..|sorted|] == sorted;
    if forall e :: e in ents ==> |e.data| == e.size {
      forall c | c in sorted
        ensures c.size == |c.data|
      {
        assert c in multiset(sorted);
        ParsedIs(ents, c);
      }
      WeightPermutes(Parsed(ents), sorted, SizeOf());
      SameWeight(sorted, SizeOf(), LengthBefore(|sorted| + 1));
    }
  }

  lemma {:induction false} SameWeight(cs: seq<Chunk>, v: Chunk -> nat, w: Chunk -> nat)
    requires forall c :: c in cs ==> v(c) == w(c)
    ensures Weight(cs, v) == Weight(cs, w)
    decreases |cs|
  {
    if cs != [] {
      SameWeight(cs[..|cs| - 1], v, w);
    }
  }

  /** The checks and the body of Assemble: `total` is the declared length, 0 when there is none. The body is
      the concatenation in numeric order of the chunks, however they were listed. */
  method Assemble(ents: seq<Entry>, total: nat) returns (r: Result<seq<bv8>>)
    ensures r.Ok? <==> Complete(Parsed(ents)) && (total > 0 ==> TotalSize(Parsed(ents)) == total)
    ensures r.Ok? ==> r.value == Concat(InNumericOrder(Parsed(ents)))
    ensures r.Ok? ==> |r.value| == Before(ents, |Parsed(ents)| + 1)
    ensures r.Ok? ==> forall e :: e in ents && ParseChunkName(e.name).Some? ==>
      var off := Before(ents, ParseChunkName(e.name).value);
      off + |e.data| <= |r.value| && r.value[off..off + |e.data|] == e.data
    ensures r.Ok? && total > 0 && (forall e :: e in ents ==> |e.data| == e.size) ==> |r.value| == total
  {
    hide Complete, Parsed, Before, Weight, ParseChunkName;
    var chunks := SortByIndex(Parsed(ents));
    OrderCheckIsCompleteness(Parsed(ents), chunks);
    WeightPermutes(chunks, Parsed(ents), SizeOf());
    if chunks == [] {
      r := Err(Invalid);
      return;
    }
    var size := 0;
    var body := [];
    TotalSteps(chunks, 0);
    for i := 0 to |chunks|
      invariant forall j :: 0 <= j < i ==> chunks[j].index == j + 1
      invariant size == TotalSize(chunks[..i]) && body == Concat(chunks[..i])
    {
      if chunks[i].index != i + 1 {
        r := Err(Invalid);
        return;
      }
      assert chunks[..i + 1][..i] == chunks[..i];
      TotalSteps(chunks, i);
      size := size + chunks[i].size;
      body := body + chunks[i].data;
    }
    assert chunks[..|chunks|] == chunks;
    assert InSequence(chunks);
    SortedIsNumericOrder(Parsed(ents), chunks);
    if total > 0 && size != total {
      r := Err(Invalid);
      return;
    }
    r := Ok(body);
    BodyLength(ents, chunks);
    forall e | e in ents && ParseChunkName(e.name).Some?
      ensures var off := Before(ents, ParseChunkName(e.name).value);
              off + |e.data| <= |body| && body[off..off + |e.data|] == e.data
    {
      BodyHolds(ents, chunks, e);
    }
  }

  lemma TotalSteps(cs: seq<Chunk>, i: nat)
    requires i < |cs|
    ensures TotalSize(cs[..0]) == 0 && TotalSize(cs[..i + 1]) == TotalSize(cs[..i]) + cs[i].size
  {
    assert cs[..i + 1][..i] == cs[..i];
  }

  /** Two entries whose names stand for the same number spoil every upload. */
  lemma SameNumberFails(ents: seq<Entry>, i: nat, j: nat)
    requires i < j < |ents| && ParseChunkName(ents[i].name).Some?
    requires ParseChunkName(ents[j].name) == ParseChunkName(ents[i].name)
    ensures !Complete(Parsed(ents))
  {
    hide ParseChunkName;
    var a, b := TwicePresent(ents, i, j);
  }

  lemma {:induction false} TwicePresent(ents: seq<Entry>, i: nat, j: nat) returns (a: nat, b: nat)
    requires i < j < |ents| && ParseChunkName(ents[i].name).Some?
    requires ParseChunkName(ents[j].name) == ParseChunkName(ents[i].name)
    ensures a < b < |Parsed(ents)| && Parsed(ents)[a].index == Parsed(ents)[b].index
    decreases |ents|
  {
    hide ParseChunkName;
    var init := ents[..|ents| - 1];
    if j < |ents| - 1 {
      a, b := TwicePresent(init, i, j);
    } else {
      a := Present(init, i);
      b := |Parsed(init)|;
    }
  }

  lemma {:induction false} Present(ents: seq<Entry>, i: nat) returns (a: nat)
    requires i < |ents| && ParseChunkName(ents[i].name).Some?
    ensures a < |Parsed(ents)| && Parsed(ents)[a].index == ParseChunkName(ents[i].name).value
    decreases |ents|
  {
    hide ParseChunkName;
    if i < |ents| - 1 {
      a := Present(ents[..|ents| - 1], i);
    } else {
      a := |Parsed(ents[..|ents| - 1])|;
    }
  }

  /** A leading zero does not change the number a name stands for. */
  lemma PaddingParses(name: string)
    requires name != ""
    ensures ParseChunkName("0" + name) == ParseChunkName(name)
  {
    var padded := "0" + name;
    assert forall i :: 0 <= i < |name| ==> padded[i + 1] == name[i];
    if i :| 0 <= i < |name| && !IsDigit(name[i]) {
      assert !IsDigit(padded[i + 1]);
    } else {
      assert forall i :: 0 <= i < |padded| ==> IsDigit(padded[i]);
      PaddedNumber(name);
    }
  }

  lemma {:induction false} PaddedNumber(s: string)
    requires (forall i :: 0 <= i < |s| ==> IsDigit(s[i])) && forall i :: 0 <= i < |"0" + s| ==> IsDigit(("0" + s)[i])
    ensures Number("0" + s) == Number(s)
  {
    var padded := "0" + s;
    if s == "" {
      assert padded[..0] == "";
    } else {
      var init := s[..|s| - 1];
      assert padded[..|padded| - 1] == "0" + init;
      PaddedNumber(init);
    }
  }

  /** A zero-padded duplicate of one of its chunks spoils any upload. */
  lemma PaddedDuplicateFails(ents: seq<Entry>, i: nat, dup: Entry)
    requires i < |ents| && ParseChunkName(ents[i].name).Some? && dup.name == "0" + ents[i].name
    ensures !Complete(Parsed(ents + [dup]))
  {
    PaddingParses(ents[i].name);
    SameNumberFails(ents + [dup], i, |ents|);
  }

  // ---------- chunk names ----------

  function Zeros(z: nat): (s: string)
    ensures |s| == z
  {
    seq(z, _ => '0')
  }

  predicate Digits(s: string) {
    forall i :: 0 <= i < |s| ==> IsDigit(s[i])
  }

  /** A chunk name is a decimal numeral between 1 and 10000, behind any number of zeros; nothing else is one. */
  lemma ChunkNames(name: string, n: int)
    ensures ParseChunkName(name) == Some(n) <==>
              1 <= n <= 10000 && exists z: nat :: name == Zeros(z) + Itoa(n)
  {
    hide ParseChunkName;
    if ParseChunkName(name) == Some(n) {
      ParsedName(name);
      var z := Unpadded(name);
    }
    if 1 <= n <= 10000 {
      forall z: nat | name == Zeros(z) + Itoa(n)
        ensures ParseChunkName(name) == Some(n)
      {
        NumeralParses(n);
        PaddedParses(Itoa(n), z);
      }
    }
  }

  lemma ParsedName(name: string)
    requires ParseChunkName(name).Some?
    ensures Digits(name) && name != "" && Number(name) == ParseChunkName(name).value && 1 <= Number(name) <= 10000
  {
  }

  lemma NumeralParses(n: nat)
    requires 1 <= n <= 10000
    ensures ParseChunkName(Itoa(n)) == Some(n)
  {
    hide Itoa, Number;
    NumberOfNumeral(n);
  }

  lemma {:induction false} NumberOfNumeral(n: nat)
    ensures Digits(Itoa(n)) && Number(Itoa(n)) == n
  {
    var s := Itoa(n);
    if n >= 10 {
      NumberOfNumeral(n / 10);
      assert s[..|s| - 1] == Itoa(n / 10);
      assert DigitValue(Digit(n % 10)) == n % 10;
    } else {
      assert s[..0] == "" && DigitValue(Digit(n)) == n;
    }
  }

  lemma {:induction false} PaddedParses(name: string, z: nat)
    requires name != ""
    ensures ParseChunkName(Zeros(z) + name) == ParseChunkName(name)
    decreases z
  {
    hide ParseChunkName;
    if z == 0 {
      assert Zeros(0) + name == name;
    } else {
      PaddedParses(name, z - 1);
      assert Zeros(z) + name == "0" + (Zeros(z - 1) + name);
      PaddingParses(Zeros(z - 1) + name);
    }
  }

  /** Digits that stand for a positive number are its numeral behind zeros. */
  lemma {:induction false} Unpadded(s: string) returns (z: nat)
    requires Digits(s) && Number(s) >= 1
    ensures s == Zeros(z) + Itoa(Number(s))
    decreases |s|
  {
    var init, d := s[..|s| - 1], DigitValue(s[|s| - 1]);
    assert s == init + [s[|s| - 1]] && Digit(d) == s[|s| - 1];
    if Number(init) == 0 {
      AllZeros(init);
      z := |init|;
      assert Number(s) == d && Itoa(d) == [Digit(d)];
    } else {
      z := Unpadded(init);
      assert Number(s) / 10 == Number(init) && Number(s) % 10 == d;
      assert Itoa(Number(s)) == Itoa(Number(init)) + [Digit(d)];
      assert Zeros(z) + Itoa(Number(s)) == (Zeros(z) + Itoa(Number(init))) + [Digit(d)];
    }
  }

  lemma {:induction false} AllZeros(s: string)
    requires Digits(s) && Number(s) == 0
    ensures s == Zeros(|s|)
    decreases |s|
  {
    if s != "" {
      AllZeros(s[..|s| - 1]);
      assert s == s[..|s| - 1] + [s[|s| - 1]];
    }
  }
}
