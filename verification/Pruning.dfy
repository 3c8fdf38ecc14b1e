/** What Steps B to D of prepare_runqueue mean for the task graph: which tasks
survive, how they are renumbered and how the two graphs correspond. */
module Pruning {
  import opened Collections
  import opened Graph
  import opened TaskWeights

  /** One of the targets is t or depends on it. */
  ghost predicate Wanted(g: Digraph, targets: set<TaskId>, t: TaskId) {
    exists s :: s in targets && Reaches(g, s, t)
  }

  /** The active task ids below k, in ascending order. */
  function Kept(build: seq<bool>, k: nat): (ids: seq<TaskId>)
    requires k <= |build|
    ensures |ids| <= k
  {
    if k == 0 then []
    else if build[k-1] then Kept(build, k - 1) + [k - 1]
    else Kept(build, k - 1)
  }

  /** The entries of s at the active positions below k. */
  function KeepEntries<T>(s: seq<T>, build: seq<bool>, k: nat): (r: seq<T>)
    requires k <= |build| && k <= |s|
    ensures |r| == |Kept(build, k)|
  {
    if k == 0 then []
    else if build[k-1] then KeepEntries(s, build, k - 1) + [s[k-1]]
    else KeepEntries(s, build, k - 1)
  }

  lemma {:induction false} KeptAt(build: seq<bool>, k: nat, t: TaskId)
    requires 0 <= t < k <= |build| && build[t]
    ensures |Kept(build, t)| < |Kept(build, k)| && Kept(build, k)[|Kept(build, t)|] == t
  {
    if t < k - 1 {
      KeptAt(build, k - 1, t);
    }
  }

  lemma {:induction false} KeptEntry<T>(s: seq<T>, build: seq<bool>, k: nat, i: nat)
    requires k <= |build| && k <= |s| && i < |Kept(build, k)|
    ensures 0 <= Kept(build, k)[i] < k && build[Kept(build, k)[i]]
    ensures KeepEntries(s, build, k)[i] == s[Kept(build, k)[i]]
    ensures |Kept(build, Kept(build, k)[i])| == i
  {
    if build[k-1] && i == |Kept(build, k - 1)| {
    } else {
      KeptEntry(s, build, k - 1, i);
    }
  }

  /** del s[at] */
  function DeleteAt<T>(s: seq<T>, at: nat): seq<T>
    requires at < |s|
  {
    s[..at] + s[at+1..]
  }

  /** A list after the pruning loop has handled the first k ids. */
  function PrunedList<T>(s: seq<T>, build: seq<bool>, k: nat): (r: seq<T>)
    requires k <= |s| == |build|
    ensures |r| == |s| - k + |Kept(build, k)|
  {
    if k == 0 then s
    else if build[k-1] then PrunedList(s, build, k - 1)
    else DeleteAt(PrunedList(s, build, k - 1), |Kept(build, k - 1)|)
  }

  lemma DeleteMiddle<T>(a: seq<T>, x: T, b: seq<T>)
    ensures DeleteAt(a + ([x] + b), |a|) == a + b && a + ([x] + b) == (a + [x]) + b
  {
    assert (a + ([x] + b))[..|a|] == a && (a + ([x] + b))[|a|+1..] == b;
  }

  /** Deleting one by one with shifted positions keeps exactly the active
      entries and leaves the unvisited ones untouched. */
  lemma {:induction false} PrunedSplit<T>(s: seq<T>, build: seq<bool>, k: nat)
    requires k <= |s| == |build|
    ensures PrunedList(s, build, k) == KeepEntries(s, build, k) + s[k..]
  {
    if k > 0 {
      PrunedSplit(s, build, k - 1);
      var kept, rest := KeepEntries(s, build, k - 1), s[k..];
      assert s[k-1..] == [s[k-1]] + rest;
      hide Kept, KeepEntries, PrunedList;
      DeleteMiddle(kept, s[k-1], rest);
    }
  }

  lemma NothingPruned<T>(s: seq<T>, build: seq<bool>)
    requires |s| == |build|
    ensures PrunedList(s, build, 0) == s
  {
  }

  lemma PrunedNext<T>(s: seq<T>, build: seq<bool>, k: nat)
    requires k < |s| == |build|
    ensures |Kept(build, k)| < |PrunedList(s, build, k)| && |Kept(build, k)| <= k
    ensures PrunedList(s, build, k)[|Kept(build, k)|] == s[k]
    ensures PrunedList(s, build, k + 1) ==
      if build[k] then PrunedList(s, build, k) else DeleteAt(PrunedList(s, build, k), |Kept(build, k)|)
    ensures |Kept(build, k + 1)| == |Kept(build, k)| + if build[k] then 1 else 0
  {
    PrunedSplit(s, build, k);
  }

  /** maps as Step C leaves it: the new id of an active task, -1 for the others. */
  ghost predicate MapsTo(maps: seq<int>, build: seq<bool>) {
    && |maps| == |build|
    && (forall t :: 0 <= t < |maps| ==> maps[t] == if build[t] then |Kept(build, t)| else -1)
  }

  /** The first k entries of maps. */
  function MapsBelow(build: seq<bool>, k: nat): (m: seq<int>)
    requires k <= |build|
    ensures |m| == k
    ensures forall t :: 0 <= t < k ==> m[t] == if build[t] then |Kept(build, t)| else -1
  {
    if k == 0 then [] else MapsBelow(build, k - 1) + [if build[k-1] then |Kept(build, k - 1)| else -1]
  }

  ghost predicate ClosedMarks(g: Digraph, build: seq<bool>) {
    && WellFormed(g) && |build| == |g|
    && (forall t, d :: 0 <= t < |g| && build[t] && d in g[t] ==> build[d])
  }

  /** h is g restricted to the active tasks and renumbered: new task i stands
      for the i-th active task, and the dependencies correspond exactly. */
  ghost predicate Restriction(g: Digraph, build: seq<bool>, h: Digraph)
    requires |build| == |g|
  {
    var kept := Kept(build, |g|);
    && |h| == |kept| && WellFormed(h)
    && (forall i :: 0 <= i < |h| ==> 0 <= kept[i] < |g|)
    && (forall i, j :: 0 <= i < |h| && 0 <= j < |h| ==> (j in h[i] <==> kept[j] in g[kept[i]]))
  }

  /** maps and kept are inverse, order-preserving numberings. */
  lemma MapsAreBijective(maps: seq<int>, build: seq<bool>)
    requires MapsTo(maps, build)
    ensures var kept := Kept(build, |build|);
      && (forall i :: 0 <= i < |kept| ==> 0 <= kept[i] < |build| && build[kept[i]] && maps[kept[i]] == i)
      && (forall t :: 0 <= t < |maps| && build[t] ==> 0 <= maps[t] < |kept| && kept[maps[t]] == t)
      && (forall i, j :: 0 <= i < j < |kept| ==> kept[i] < kept[j])
  {
    var kept := Kept(build, |build|);
    forall i | 0 <= i < |kept|
      ensures 0 <= kept[i] < |build| && build[kept[i]] && maps[kept[i]] == i
    {
      KeptEntry(build, build, |build|, i);
    }
    forall t | 0 <= t < |maps| && build[t]
      ensures 0 <= maps[t] < |kept| && kept[maps[t]] == t
    {
      KeptAt(build, |build|, t);
    }
    KeptAscends(build, |build|);
  }

  lemma {:induction false} KeptAscends(build: seq<bool>, k: nat)
    requires k <= |build|
    ensures forall i, j :: 0 <= i < j < |Kept(build, k)| ==> Kept(build, k)[i] < Kept(build, k)[j] < k
    ensures forall i :: 0 <= i < |Kept(build, k)| ==> 0 <= Kept(build, k)[i] < k
  {
    if k > 0 {
      KeptAscends(build, k - 1);
      var init, all := Kept(build, k - 1), Kept(build, k);
      assert all == if build[k-1] then init + [k - 1] else init;
      hide Kept;
      forall i, j | 0 <= i < j < |all| ensures all[i] < all[j] < k {
        assert j < |init| ==> init[i] < init[j];
      }
      forall i | 0 <= i < |all| ensures 0 <= all[i] < k {
        assert i < |init| ==> 0 <= init[i];
      }
    }
  }

  ghost function Renumber(deps: set<TaskId>, maps: seq<int>): set<TaskId> {
    set d | d in deps && 0 <= d < |maps| :: maps[d]
  }

  /** Renumbering the dependencies of the surviving tasks through maps gives
      exactly the restriction. */
  lemma RenumberedIsRestriction(g: Digraph, build: seq<bool>, maps: seq<int>, h: Digraph)
    requires ClosedMarks(g, build) && MapsTo(maps, build)
    requires |h| == |Kept(build, |g|)|
    requires forall i :: 0 <= i < |h| ==>
      0 <= Kept(build, |g|)[i] < |g| && h[i] == Renumber(g[Kept(build, |g|)[i]], maps)
    ensures Restriction(g, build, h)
  {
    MapsAreBijective(maps, build);
    var kept := Kept(build, |g|);
    forall i, e | 0 <= i < |h| && e in h[i]
      ensures 0 <= e < |h| && kept[e] in g[kept[i]]
    {
      var d :| d in g[kept[i]] && 0 <= d < |maps| && maps[d] == e;
    }
    forall i, j | 0 <= i < |h| && 0 <= j < |h| && kept[j] in g[kept[i]]
      ensures j in h[i]
    {
      assert maps[kept[j]] == j;
    }
  }

  /** Paths of the pruned graph are the paths of the full graph that start at
      an active task. */
  lemma PathUp(g: Digraph, build: seq<bool>, h: Digraph, p: seq<TaskId>)
    requires |build| == |g| && Restriction(g, build, h) && IsPath(h, p)
    ensures var kept := Kept(build, |g|);
      IsPath(g, seq(|p|, i requires 0 <= i < |p| => kept[p[i]]))
  {
    var kept := Kept(build, |g|);
    KeptAscends(build, |g|);
    var q := seq(|p|, i requires 0 <= i < |p| => kept[p[i]]);
    forall i | 0 <= i < |q| - 1
      ensures q[i+1] in g[q[i]]
    {
      assert p[i+1] in h[p[i]];
    }
  }

  lemma {:induction false} MarksFollowPath(g: Digraph, build: seq<bool>, p: seq<TaskId>, i: nat)
    requires ClosedMarks(g, build) && IsPath(g, p) && build[p[0]] && i < |p|
    ensures build[p[i]]
  {
    if i > 0 {
      MarksFollowPath(g, build, p, i - 1);
      assert p[i-1+1] in g[p[i-1]];
    }
  }

  lemma PathDown(g: Digraph, build: seq<bool>, maps: seq<int>, h: Digraph, p: seq<TaskId>)
    requires ClosedMarks(g, build) && MapsTo(maps, build) && Restriction(g, build, h)
    requires IsPath(g, p) && build[p[0]]
    ensures IsPath(h, seq(|p|, i requires 0 <= i < |p| => maps[p[i]]))
  {
    MapsAreBijective(maps, build);
    var q := seq(|p|, i requires 0 <= i < |p| => maps[p[i]]);
    forall i | 0 <= i < |q|
      ensures 0 <= q[i] < |h| && Kept(build, |g|)[q[i]] == p[i]
    {
      MarksFollowPath(g, build, p, i);
    }
    forall i | 0 <= i < |q| - 1
      ensures q[i+1] in h[q[i]]
    {
      assert p[i+1] in g[p[i]];
    }
  }

  ghost predicate WantedCycle(g: Digraph, build: seq<bool>)
    requires |build| == |g|
  {
    exists c :: IsCycle(g, c) && build[c[0]]
  }

  /** The pruned graph is cyclic exactly when an active task lies on a cycle. */
  lemma CyclesCorrespond(g: Digraph, build: seq<bool>, maps: seq<int>, h: Digraph)
    requires ClosedMarks(g, build) && MapsTo(maps, build) && Restriction(g, build, h)
    ensures Cyclic(h) <==> WantedCycle(g, build)
  {
    MapsAreBijective(maps, build);
    if Cyclic(h) {
      var c :| IsCycle(h, c);
      PathUp(g, build, h, c);
      var kept := Kept(build, |g|);
      assert IsCycle(g, seq(|c|, i requires 0 <= i < |c| => kept[c[i]]));
    }
    if WantedCycle(g, build) {
      var c :| IsCycle(g, c) && build[c[0]];
      PathDown(g, build, maps, h, c);
      assert IsCycle(h, seq(|c|, i requires 0 <= i < |c| => maps[c[i]]));
    }
  }

  ghost function Unmarked(build: seq<bool>): set<TaskId> {
    set t | t in Below(|build|) && !build[t]
  }

  /** Everything newly marked has its dependencies marked and is reached from s. */
  ghost predicate MarkedFrom(g: Digraph, before: seq<bool>, after: seq<bool>, s: TaskId) {
    && |before| == |after| == |g|
    && (forall t :: 0 <= t < |g| && before[t] ==> after[t])
    && (forall t :: 0 <= t < |g| && after[t] && !before[t] ==> Reaches(g, s, t))
  }

  ghost predicate NewClosed(g: Digraph, before: seq<bool>, after: seq<bool>)
    requires |before| == |after| == |g| && WellFormed(g)
  {
    forall t, d :: 0 <= t < |g| && after[t] && !before[t] && d in g[t] ==> after[d]
  }

  /** mark_active: depth-first, in whatever order the dependency set is walked. */
  method MarkActive(runq_depends: Digraph, runq_build0: seq<bool>, listid: TaskId) returns (runq_build: seq<bool>)
    requires WellFormed(runq_depends) && |runq_build0| == |runq_depends| && 0 <= listid < |runq_depends|
    ensures MarkedFrom(runq_depends, runq_build0, runq_build, listid)
    ensures runq_build[listid] && NewClosed(runq_depends, runq_build0, runq_build)
    decreases |Unmarked(runq_build0)|
  {
    runq_build := runq_build0;
    ReachesSelf(runq_depends, listid);
    if runq_build[listid] {
      return;
    }
    runq_build := runq_build[listid := true];
    var rest := runq_depends[listid];
    while rest != {}
      invariant rest <= runq_depends[listid]
      invariant MarkedFrom(runq_depends, runq_build0, runq_build, listid) && runq_build[listid]
      invariant forall t, d :: 0 <= t < |runq_build| && runq_build[t] && !runq_build0[t] && t != listid
                                  && d in runq_depends[t] ==>
        runq_build[d]
      invariant forall d :: d in runq_depends[listid] - rest ==> runq_build[d]
    {
      ghost var some := Member(rest);
      var depend :| depend in rest;
      rest := rest - {depend};
      FewerUnmarked(runq_build0, runq_build, listid);
      ghost var before := runq_build;
      runq_build := MarkActive(runq_depends, runq_build, depend);
      forall t | 0 <= t < |runq_build| && runq_build[t] && !before[t]
        ensures Reaches(runq_depends, listid, t)
      {
        ReachesFirst(runq_depends, listid, depend, t);
      }
    }
  }

  lemma FewerUnmarked(before: seq<bool>, after: seq<bool>, t: TaskId)
    requires |before| == |after| && forall u :: 0 <= u < |before| && before[u] ==> after[u]
    requires 0 <= t < |before| && !before[t] && after[t]
    ensures |Unmarked(after)| < |Unmarked(before)|
  {
    assert t in Unmarked(before) && t !in Unmarked(after);
    assert Unmarked(after) <= Unmarked(before);
    SubsetCard(Unmarked(after), Unmarked(before));
  }

  /** Step B: the tasks left active are exactly those a target reaches. */
  method MarkTargets(runq_depends: Digraph, targets: seq<TaskId>) returns (runq_build: seq<bool>)
    requires WellFormed(runq_depends) && forall i :: 0 <= i < |targets| ==> 0 <= targets[i] < |runq_depends|
    ensures ClosedMarks(runq_depends, runq_build)
    ensures forall t :: 0 <= t < |runq_build| ==> (runq_build[t] <==> Wanted(runq_depends, Elements(targets), t))
  {
    runq_build := seq(|runq_depends|, i => false);
    for k := 0 to |targets|
      invariant ClosedMarks(runq_depends, runq_build)
      invariant forall i :: 0 <= i < k ==> runq_build[targets[i]]
      invariant forall t :: 0 <= t < |runq_build| && runq_build[t] ==> Wanted(runq_depends, Elements(targets), t)
    {
      ghost var before := runq_build;
      runq_build := MarkActive(runq_depends, runq_build, targets[k]);
      assert targets[k] in Elements(targets);
    }
    forall t | 0 <= t < |runq_build| && Wanted(runq_depends, Elements(targets), t)
      ensures runq_build[t]
    {
      var s :| s in Elements(targets) && Reaches(runq_depends, s, t);
      var p :| PathBetween(runq_depends, p, s, t);
      MarksFollowPath(runq_depends, runq_build, p, |p| - 1);
    }
  }
}
