/** The in-memory plan of a name sweep (internal/files/namesweep.go:256-301, 426-496): the tree is loaded
    and indexed, and a breadth-first pass assigns every row its converted name and path. */
module SweepPlan {
  import opened Common
  import opened Paths
  import opened Filecache

  // ---------- loadTree ----------

  datatype Index = Index(root: Option<Id>, kids: map<Id, seq<Id>>)

  ghost predicate NoRepeats(s: seq<Id>) {
    forall i, j :: 0 <= i < j < |s| ==> s[i] != s[j]
  }

  /** The index lists each row once, under its parent; the root, when there is one, under nobody. */
  ghost predicate Indexed(t: Table, idx: Index) {
    && KidsIndexed(t, t.Keys, idx.kids)
    && (forall x :: x in t && t[x].parent.None? ==> idx.root == Some(x))
    && (idx.root.Some? ==> idx.root.value in t && t[idx.root.value].parent.None?)
    && (idx.root.None? ==> t == map[])
  }

  /** What makes loadTree refuse a table. */
  ghost predicate Loadable(t: Table) {
    && (forall x, y :: x in t && y in t && t[x].parent.None? && t[y].parent.None? ==> x == y)
    && (forall x :: x in t && t[x].parent.Some? ==> t[x].parent.value in t)
    && (t != map[] ==> exists x :: x in t && t[x].parent.None?)
  }

  function KidsAt(kids: map<Id, seq<Id>>, p: Id): seq<Id> {
    if p in kids then kids[p] else []
  }

  method LoadTree(t: Table, ids: seq<Id>) returns (r: Result<Index>)
    requires NoRepeats(ids) && forall x :: x in ids <==> x in t
    ensures r.Ok? <==> Loadable(t)
    ensures r.Ok? ==> Indexed(t, r.value)
  {
    var root := FindRoot(t, ids);
    if root.Err? {
      return Err(Invalid);
    }
    var kids := IndexKids(t, ids);
    if kids.Err? || (root.value.None? && t != map[]) {
      return Err(Invalid);
    }
    return Ok(Index(root.value, kids.value));
  }

  method FindRoot(t: Table, ids: seq<Id>) returns (r: Result<Option<Id>>)
    requires NoRepeats(ids) && forall x :: x in ids <==> x in t
    ensures r.Ok? <==> forall x, y :: x in t && y in t && t[x].parent.None? && t[y].parent.None? ==> x == y
    ensures r.Ok? ==> forall x :: x in t && t[x].parent.None? ==> r.value == Some(x)
    ensures r.Ok? && r.value.Some? ==> r.value.value in t && t[r.value.value].parent.None?
  {
    var root: Option<Id> := None;
    for i := 0 to |ids|
      invariant forall k :: 0 <= k < i && t[ids[k]].parent.None? ==> root == Some(ids[k])
      invariant root.Some? ==> root.value in t && t[root.value].parent.None? && root.value in ids[..i]
    {
      var x := ids[i];
      if t[x].parent.None? {
        if root.Some? {
          return Err(Invalid);
        }
        root := Some(x);
      }
    }
    return Ok(root);
  }

  method IndexKids(t: Table, ids: seq<Id>) returns (r: Result<map<Id, seq<Id>>>)
    requires NoRepeats(ids) && forall x :: x in ids <==> x in t
    ensures r.Ok? <==> forall x :: x in t && t[x].parent.Some? ==> t[x].parent.value in t
    ensures r.Ok? ==> KidsIndexed(t, t.Keys, r.value)
  {
    var kids: map<Id, seq<Id>> := map[];
    ghost var seen: set<Id> := {};
    for i := 0 to |ids|
      invariant seen == set x | x in ids[..i]
      invariant KidsIndexed(t, seen, kids)
      invariant forall x :: x in seen && t[x].parent.Some? ==> t[x].parent.value in t
    {
      var x := ids[i];
      assert x in ids && x !in seen;
      if t[x].parent.Some? {
        var p := t[x].parent.value;
        if p !in t {
          return Err(Invalid);
        }
        AddKid(t, seen, kids, x);
        kids := kids[p := KidsAt(kids, p) + [x]];
      }
      seen := seen + {x};
    }
    assert seen == t.Keys;
    return Ok(kids);
  }

  /** The rows in `seen` are listed, each once and under its parent. */
  ghost predicate KidsIndexed(t: Table, seen: set<Id>, kids: map<Id, seq<Id>>) {
    && (forall p :: p in kids ==> NoRepeats(kids[p]))
    && (forall p, x :: p in kids && x in kids[p] ==> x in seen && x in t && t[x].parent == Some(p))
    && (forall x :: x in seen && x in t && t[x].parent.Some? ==>
          t[x].parent.value in kids && x in kids[t[x].parent.value])
  }

  lemma AddKid(t: Table, seen: set<Id>, kids: map<Id, seq<Id>>, x: Id)
    requires KidsIndexed(t, seen, kids) && x in t && x !in seen && t[x].parent.Some?
    ensures var p := t[x].parent.value; KidsIndexed(t, seen + {x}, kids[p := KidsAt(kids, p) + [x]])
  {
    var p := t[x].parent.value;
    assert x !in KidsAt(kids, p);
  }

  // ---------- reachability ----------

  ghost predicate Link(t: Table, ch: seq<Id>, i: int)
    requires 0 < i < |ch|
  {
    ch[i] in t && ch[i - 1] in t && t[ch[i]].parent == Some(ch[i - 1]) && (i == 1 || t[ch[i - 1]].isDir)
  }

  /** A way down from the root through directories; the root itself is not asked whether it is one. */
  ghost predicate Chain(t: Table, root: Id, ch: seq<Id>) {
    && |ch| > 0 && ch[0] == root && root in t && t[root].parent.None?
    && forall i :: 0 < i < |ch| ==> Link(t, ch, i)
  }

  /** The pass goes on below `x`. */
  predicate Opens(t: Table, root: Id, x: Id)
    requires x in t
  {
    x == root || t[x].isDir
  }

  ghost predicate Reachable(t: Table, root: Id, x: Id) {
    exists ch :: Chain(t, root, ch) && ch[|ch| - 1] == x
  }

  lemma ChainGrows(t: Table, root: Id, ch: seq<Id>, x: Id)
    requires Chain(t, root, ch) && x in t && t[x].parent == Some(ch[|ch| - 1])
    requires ch[|ch| - 1] in t && Opens(t, root, ch[|ch| - 1])
    ensures Chain(t, root, ch + [x])
  {
    if |ch| > 1 {
      assert Link(t, ch, |ch| - 1);
    }
    forall i | 0 < i < |ch + [x]|
      ensures Link(t, ch + [x], i)
    {
      if i < |ch| {
        assert Link(t, ch, i);
      }
    }
  }

  lemma ChainShrinks(t: Table, root: Id, ch: seq<Id>)
    requires Chain(t, root, ch) && |ch| > 1
    ensures Chain(t, root, ch[..|ch| - 1])
    ensures Link(t, ch, |ch| - 1)
  {
    var init := ch[..|ch| - 1];
    forall i | 0 < i < |init|
      ensures Link(t, init, i)
    {
      assert Link(t, ch, i);
    }
  }

  /** Each row has one parent, so there is at most one way down to it. */
  lemma {:induction false} ChainUnique(t: Table, root: Id, a: seq<Id>, b: seq<Id>)
    requires Chain(t, root, a) && Chain(t, root, b) && a[|a| - 1] == b[|b| - 1]
    ensures a == b
    decreases |a|
  {
    if |a| > 1 {
      ChainShrinks(t, root, a);
    }
    if |b| > 1 {
      ChainShrinks(t, root, b);
    }
    if |a| > 1 && |b| > 1 {
      ChainUnique(t, root, a[..|a| - 1], b[..|b| - 1]);
      assert a == a[..|a| - 1] + [a[|a| - 1]];
      assert b == b[..|b| - 1] + [b[|b| - 1]];
    }
  }

  // ---------- the breadth-first pass ----------

  /** How a sweep converts the name of a child of a folder: EncryptName or DecryptName, with its errors. */
  type Conversion = (Id, Id) -> Result<string>

  /** What a sweep asks of a folder before it looks at its children: encryptPaths its key, decryptPaths nothing. */
  type Opening = Id -> Result<()>

  datatype Plan = Plan(names: map<Id, string>, paths: map<Id, string>)

  function PlannedStep(parent: string, name: Result<string>, limit: Option<nat>): Result<string> {
    match name
    case Err(e) => Err(e)
    case Ok(n) => if limit.Some? && |Join(parent, n)| > limit.value then Err(NameBudget) else Ok(Join(parent, n))
  }

  /** The converted path at the end of a chain, or the first error on the way. */
  ghost function PlannedPath(conv: Conversion, limit: Option<nat>, ch: seq<Id>): Result<string>
    requires |ch| > 0
  {
    if |ch| == 1 then Ok("/")
    else match PlannedPath(conv, limit, ch[..|ch| - 1])
      case Err(e) => Err(e)
      case Ok(pp) => PlannedStep(pp, conv(ch[|ch| - 2], ch[|ch| - 1]), limit)
  }

  /** The chain cannot be planned, or the folder at its end cannot be opened. */
  ghost predicate ChainFails(t: Table, root: Id, conv: Conversion, open: Opening, limit: Option<nat>, ch: seq<Id>,
                             e: Error) {
    && Chain(t, root, ch)
    && var x := ch[|ch| - 1];
       || PlannedPath(conv, limit, ch) == Err(e)
       || (PlannedPath(conv, limit, ch).Ok? && x in t && Opens(t, root, x) && open(x) == Err(e))
  }

  /** A complete plan for the rows it covers. */
  ghost predicate PlanFor(t: Table, root: Id, conv: Conversion, limit: Option<nat>, plan: Plan) {
    && plan.names.Keys == plan.paths.Keys
    && root in plan.names && plan.names[root] == "" && plan.paths[root] == "/"
    && forall x :: x in plan.names && x != root ==> PlanRow(t, conv, limit, plan, x)
  }

  ghost predicate PlanRow(t: Table, conv: Conversion, limit: Option<nat>, plan: Plan, x: Id)
    requires x in plan.names && x in plan.paths
  {
    && x in t && t[x].parent.Some? && t[x].parent.value in plan.paths
    && conv(t[x].parent.value, x) == Ok(plan.names[x])
    && plan.paths[x] == Join(plan.paths[t[x].parent.value], plan.names[x])
    && (limit.Some? ==> |plan.paths[x]| <= limit.value)
  }

  /** Every planned row has its way down, and its path is the one planned along it. */
  ghost predicate Tracked(t: Table, root: Id, conv: Conversion, limit: Option<nat>, paths: map<Id, string>,
                          chains: map<Id, seq<Id>>) {
    && chains.Keys == paths.Keys
    && forall x :: x in chains ==> Tracks(t, root, conv, limit, paths, chains[x], x)
  }

  ghost predicate Tracks(t: Table, root: Id, conv: Conversion, limit: Option<nat>, paths: map<Id, string>,
                         ch: seq<Id>, x: Id)
    requires x in paths
  {
    Chain(t, root, ch) && ch[|ch| - 1] == x && PlannedPath(conv, limit, ch) == Ok(paths[x])
  }

  /** `done` folders are finished, the queue holds the folders found and not yet finished, and exactly the
      root and children of finished folders are planned. */
  ghost predicate Queued(t: Table, root: Id, planned: set<Id>, done: set<Id>, queue: seq<Id>) {
    && root in t && t[root].parent.None? && planned <= t.Keys && done <= planned
    && NoRepeats(queue)
    && (forall x :: x in queue ==> x !in done && x in planned && Opens(t, root, x))
    && (forall x :: x in planned && Opens(t, root, x) ==> x in done || x in queue)
    && (forall x :: x in planned && x != root ==> t[x].parent.Some? && t[x].parent.value in done)
  }

  lemma PlanChild(t: Table, root: Id, conv: Conversion, limit: Option<nat>, plan: Plan, p: Id, x: Id, n: string)
    requires PlanFor(t, root, conv, limit, plan) && p in plan.paths && x !in plan.names
    requires x in t && t[x].parent == Some(p) && conv(p, x) == Ok(n) && PlannedStep(plan.paths[p], Ok(n), limit).Ok?
    ensures PlanFor(t, root, conv, limit, Plan(plan.names[x := n], plan.paths[x := Join(plan.paths[p], n)]))
  {
    hide Join;
    var plan' := Plan(plan.names[x := n], plan.paths[x := Join(plan.paths[p], n)]);
    assert plan'.names.Keys == plan.names.Keys + {x} && plan'.paths.Keys == plan.paths.Keys + {x};
    forall y | y in plan'.names && y != root
      ensures PlanRow(t, conv, limit, plan', y)
    {
      if y != x {
        assert PlanRow(t, conv, limit, plan, y);
      }
    }
  }

  lemma TrackChild(t: Table, root: Id, conv: Conversion, limit: Option<nat>, paths: map<Id, string>,
                   chains: map<Id, seq<Id>>,
                   p: Id, x: Id, n: string)
    requires Tracked(t, root, conv, limit, paths, chains) && p in paths && x !in paths && p in t && Opens(t, root, p)
    requires x in t && t[x].parent == Some(p) && conv(p, x) == Ok(n) && PlannedStep(paths[p], Ok(n), limit).Ok?
    ensures p in chains && Tracked(t, root, conv, limit, paths[x := Join(paths[p], n)], chains[x := chains[p] + [x]])
  {
    var paths' := paths[x := Join(paths[p], n)];
    var ch := chains[p] + [x];
    assert Tracks(t, root, conv, limit, paths, chains[p], p);
    ChainGrows(t, root, chains[p], x);
    assert ch[..|ch| - 1] == chains[p];
    assert Tracks(t, root, conv, limit, paths', ch, x);
    forall y | y in paths
      ensures Tracks(t, root, conv, limit, paths', chains[y], y)
    {
      assert Tracks(t, root, conv, limit, paths, chains[y], y);
    }
  }

  lemma QueueChild(t: Table, root: Id, planned: set<Id>, done: set<Id>, queue: seq<Id>, p: Id, x: Id)
    requires Queued(t, root, planned, done, queue) && p in done && x in t && t[x].parent == Some(p) && x !in planned
    ensures Queued(t, root, planned + {x}, done, if t[x].isDir then queue + [x] else queue)
  {
    var q := if t[x].isDir then queue + [x] else queue;
    assert x !in queue;
    assert forall y :: y in q <==> y in queue || (y == x && t[x].isDir);
  }

  /** Taking a folder off the queue: none of its children has been planned. */
  lemma QueueTake(t: Table, root: Id, planned: set<Id>, done: set<Id>, queue: seq<Id>)
    requires Queued(t, root, planned, done, queue) && queue != []
    ensures var p := queue[0];
            && p in t && p in planned && p !in done && Opens(t, root, p)
            && Queued(t, root, planned, done + {p}, queue[1..])
            && forall x :: x in t && t[x].parent == Some(p) ==> x !in planned
  {
    var p := queue[0];
    assert p in queue;
    assert forall y :: y in queue <==> y == p || y in queue[1..];
    forall y | y in queue[1..]
      ensures y != p
    {
      var i :| 0 <= i < |queue[1..]| && queue[1..][i] == y;
      assert queue[i + 1] == y;
    }
  }

  /** With the queue empty, everything reachable is planned. */
  lemma {:induction false} ReachablePlanned(t: Table, root: Id, planned: set<Id>, done: set<Id>, ch: seq<Id>)
    requires Queued(t, root, planned, done, []) && root in planned && Chain(t, root, ch)
    requires forall p, x :: p in done && x in t && t[x].parent == Some(p) ==> x in planned
    ensures ch[|ch| - 1] in planned
    decreases |ch|
  {
    if |ch| > 1 {
      ChainShrinks(t, root, ch);
      ReachablePlanned(t, root, planned, done, ch[..|ch| - 1]);
    }
  }

  /** The breadth-first pass. There is no visited set; the pass ends because every row has one parent and
      so no folder is queued twice. It plans exactly the rows reachable through directories, and fails with
      the first error met on some way down. */
  method PlanPaths(t: Table, idx: Index, conv: Conversion, open: Opening, limit: Option<nat>) returns (r: Result<Plan>)
    requires Indexed(t, idx)
    ensures idx.root.None? ==> r == Ok(Plan(map[], map[]))
    ensures idx.root.Some? && r.Ok? ==> PlanFor(t, idx.root.value, conv, limit, r.value)
    ensures idx.root.Some? && r.Ok? ==> forall x :: x in r.value.names <==> Reachable(t, idx.root.value, x)
    ensures idx.root.Some? && r.Ok? ==> forall ch :: Chain(t, idx.root.value, ch) ==> PlannedPath(conv, limit, ch).Ok?
    ensures idx.root.Some? && r.Ok? ==>
      forall x :: x in t && x in r.value.names && Opens(t, idx.root.value, x) ==> open(x).Ok?
    ensures idx.root.Some? && r.Err? ==> exists ch :: ChainFails(t, idx.root.value, conv, open, limit, ch, r.error)
  {
    hide PlanFor, Tracked, Chain, PlannedPath, Queued, Reachable, KidsIndexed, ChainFails;
    if idx.root.None? {
      return Ok(Plan(map[], map[]));
    }
    var root := idx.root.value;
    var plan := Plan(map[root := ""], map[root := "/"]);
    var queue := [root];
    ghost var done: set<Id> := {};
    ghost var chains: map<Id, seq<Id>> := map[root := [root]];
    StartPass(t, root, conv, limit);
    while queue != []
      invariant PlanFor(t, root, conv, limit, plan) && plan.names.Keys == plan.paths.Keys && root in plan.names
      invariant Tracked(t, root, conv, limit, plan.paths, chains) && Queued(t, root, plan.names.Keys, done, queue)
      invariant forall p, x :: p in done && x in t && t[x].parent == Some(p) ==> x in plan.names
      invariant done <= t.Keys && forall p :: p in done ==> open(p).Ok?
      decreases t.Keys - done
    {
      QueueTake(t, root, plan.names.Keys, done, queue);
      var p := queue[0];
      queue := queue[1..];
      done := done + {p};
      var res;
      res, plan, queue, chains := PlanFolder(t, root, idx.kids, conv, open, limit, plan, done, queue, chains, p);
      if res.Err? {
        return Err(res.error);
      }
    }
    PassComplete(t, root, conv, limit, plan, done, chains);
    AllOpened(t, root, plan.names.Keys, done);
    return Ok(plan);
  }

  lemma AllOpened(t: Table, root: Id, planned: set<Id>, done: set<Id>)
    requires Queued(t, root, planned, done, [])
    ensures forall x :: x in t && x in planned && Opens(t, root, x) ==> x in done
  {
  }

  lemma StartPass(t: Table, root: Id, conv: Conversion, limit: Option<nat>)
    requires root in t && t[root].parent.None?
    ensures PlanFor(t, root, conv, limit, Plan(map[root := ""], map[root := "/"]))
    ensures Tracked(t, root, conv, limit, map[root := "/"], map[root := [root]])
    ensures Queued(t, root, (map[root := ""]).Keys, {}, [root])
  {
    assert (map[root := ""]).Keys == {root};
    assert Tracks(t, root, conv, limit, map[root := "/"], [root], root);
  }

  lemma PassComplete(t: Table, root: Id, conv: Conversion, limit: Option<nat>, plan: Plan, done: set<Id>,
                     chains: map<Id, seq<Id>>)
    requires Queued(t, root, plan.names.Keys, done, []) && root in plan.names && plan.names.Keys == plan.paths.Keys
    requires Tracked(t, root, conv, limit, plan.paths, chains)
    requires forall p, x :: p in done && x in t && t[x].parent == Some(p) ==> x in plan.names
    ensures forall x :: x in plan.names <==> Reachable(t, root, x)
    ensures forall ch :: Chain(t, root, ch) ==> PlannedPath(conv, limit, ch).Ok?
  {
    hide Queued, PlannedPath;
    forall x | x in plan.names
      ensures Reachable(t, root, x)
    {
      assert Tracks(t, root, conv, limit, plan.paths, chains[x], x);
    }
    forall ch | Chain(t, root, ch)
      ensures ch[|ch| - 1] in plan.names && PlannedPath(conv, limit, ch).Ok?
    {
      var x := ch[|ch| - 1];
      ReachablePlanned(t, root, plan.names.Keys, done, ch);
      assert Tracks(t, root, conv, limit, plan.paths, chains[x], x);
      ChainUnique(t, root, ch, chains[x]);
    }
  }

  lemma FailingChain(t: Table, root: Id, conv: Conversion, limit: Option<nat>, paths: map<Id, string>,
                     chains: map<Id, seq<Id>>,
                     p: Id, x: Id)
    requires Tracked(t, root, conv, limit, paths, chains) && p in paths && p in t && Opens(t, root, p)
    requires x in t && t[x].parent == Some(p) && PlannedStep(paths[p], conv(p, x), limit).Err?
    ensures exists ch :: Chain(t, root, ch) && PlannedPath(conv, limit, ch) == PlannedStep(paths[p], conv(p, x), limit)
  {
    assert Tracks(t, root, conv, limit, paths, chains[p], p);
    var ch := chains[p] + [x];
    ChainGrows(t, root, chains[p], x);
    assert ch[..|ch| - 1] == chains[p];
    assert PlannedPath(conv, limit, ch) == PlannedStep(paths[p], conv(p, x), limit);
  }

  lemma FolderFails(t: Table, root: Id, conv: Conversion, open: Opening, limit: Option<nat>, paths: map<Id, string>,
                    chains: map<Id, seq<Id>>, p: Id)
    requires Tracked(t, root, conv, limit, paths, chains) && p in paths && p in t && Opens(t, root, p) && open(p).Err?
    ensures exists ch :: ChainFails(t, root, conv, open, limit, ch, open(p).error)
  {
    hide PlannedPath, Chain;
    assert Tracks(t, root, conv, limit, paths, chains[p], p);
    assert ChainFails(t, root, conv, open, limit, chains[p], open(p).error);
  }

  lemma ChildFails(t: Table, root: Id, conv: Conversion, open: Opening, limit: Option<nat>, paths: map<Id, string>,
                   chains: map<Id, seq<Id>>, p: Id, x: Id)
    requires Tracked(t, root, conv, limit, paths, chains) && p in paths && p in t && Opens(t, root, p)
    requires x in t && t[x].parent == Some(p) && PlannedStep(paths[p], conv(p, x), limit).Err?
    ensures exists ch :: ChainFails(t, root, conv, open, limit, ch, PlannedStep(paths[p], conv(p, x), limit).error)
  {
    hide PlannedPath, Tracked, PlannedStep, Link;
    FailingChain(t, root, conv, limit, paths, chains, p, x);
    var ch :| Chain(t, root, ch) && PlannedPath(conv, limit, ch) == PlannedStep(paths[p], conv(p, x), limit);
    assert ChainFails(t, root, conv, open, limit, ch, PlannedStep(paths[p], conv(p, x), limit).error);
  }

  /** One folder: it is opened, then its children are planned. */
  method PlanFolder(t: Table, root: Id, kidsOf: map<Id, seq<Id>>, conv: Conversion, open: Opening, limit: Option<nat>,
                    plan0: Plan, ghost done: set<Id>, queue0: seq<Id>, ghost chains0: map<Id, seq<Id>>, p: Id)
    returns (r: Result<()>, plan: Plan, queue: seq<Id>, ghost chains: map<Id, seq<Id>>)
    requires KidsIndexed(t, t.Keys, kidsOf) && p in done && p in t && Opens(t, root, p) && p in plan0.names
    requires PlanFor(t, root, conv, limit, plan0) && plan0.names.Keys == plan0.paths.Keys && root in plan0.names
    requires Tracked(t, root, conv, limit, plan0.paths, chains0) && Queued(t, root, plan0.names.Keys, done, queue0)
    requires forall x :: x in t && t[x].parent == Some(p) ==> x !in plan0.names
    ensures PlanFor(t, root, conv, limit, plan) && plan.names.Keys == plan.paths.Keys
      && plan0.names.Keys <= plan.names.Keys
    ensures Tracked(t, root, conv, limit, plan.paths, chains) && Queued(t, root, plan.names.Keys, done, queue)
    ensures r.Ok? ==> open(p).Ok? && forall x :: x in t && t[x].parent == Some(p) ==> x in plan.names
    ensures r.Err? ==> exists ch :: ChainFails(t, root, conv, open, limit, ch, r.error)
  {
    hide PlanFor, Tracked, Chain, PlannedPath, Queued, ChainFails;
    plan, queue, chains := plan0, queue0, chains0;
    r := open(p);
    if r.Err? {
      FolderFails(t, root, conv, open, limit, plan.paths, chains, p);
      return;
    }
    var kids := KidsAt(kidsOf, p);
    assert forall x :: x in kids <==> x in t && t[x].parent == Some(p);
    for i := 0 to |kids|
      invariant PlanFor(t, root, conv, limit, plan) && plan.names.Keys == plan.paths.Keys
        && plan0.names.Keys <= plan.names.Keys
      invariant Tracked(t, root, conv, limit, plan.paths, chains) && Queued(t, root, plan.names.Keys, done, queue)
      invariant forall k :: 0 <= k < i ==> kids[k] in plan.names
      invariant forall k :: i <= k < |kids| ==> kids[k] !in plan.names
    {
      var x := kids[i];
      assert x in kids;
      var n := conv(p, x);
      var step := PlannedStep(plan.paths[p], n, limit);
      if step.Err? {
        ChildFails(t, root, conv, open, limit, plan.paths, chains, p, x);
        r := Err(step.error);
        return;
      }
      PlanChild(t, root, conv, limit, plan, p, x, n.value);
      TrackChild(t, root, conv, limit, plan.paths, chains, p, x, n.value);
      QueueChild(t, root, plan.names.Keys, done, queue, p, x);
      assert plan.names[x := n.value].Keys == plan.names.Keys + {x};
      chains := chains[x := chains[p] + [x]];
      plan := Plan(plan.names[x := n.value], plan.paths[x := step.value]);
      if t[x].isDir {
        queue := queue + [x];
      }
    }
    r := Ok(());
  }
}
