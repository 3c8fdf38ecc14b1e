/** Task graphs, dependency paths and cycles.

A graph is BitBake's runq_depends list: entry t is the set of task ids that
task t depends on.  Everything the run queue promises about order, weights
and circular dependencies is stated with the explicit paths defined here. */
module Graph {

  type TaskId = int

  type Digraph = seq<set<TaskId>>

  ghost predicate WellFormed(g: Digraph) {
    forall t, d :: 0 <= t < |g| && d in g[t] ==> 0 <= d < |g|
  }

  /** Each element of p depends directly on the next one. */
  ghost predicate IsPath(g: Digraph, p: seq<TaskId>) {
    && |p| > 0
    && (forall i :: 0 <= i < |p| ==> 0 <= p[i] < |g|)
    && (forall i :: 0 <= i < |p| - 1 ==> p[i+1] in g[p[i]])
  }

  ghost predicate PathBetween(g: Digraph, p: seq<TaskId>, s: TaskId, t: TaskId) {
    IsPath(g, p) && p[0] == s && p[|p|-1] == t
  }

  /** s is t, or s depends on t directly or through other tasks. */
  ghost predicate Reaches(g: Digraph, s: TaskId, t: TaskId) {
    exists p :: PathBetween(g, p, s, t)
  }

  ghost predicate IsCycle(g: Digraph, p: seq<TaskId>) {
    IsPath(g, p) && |p| > 1 && p[0] == p[|p|-1]
  }

  ghost predicate Cyclic(g: Digraph) {
    exists p :: IsCycle(g, p)
  }

  /** rev is runq_revdeps for runq_depends g. */
  ghost predicate Inverse(g: Digraph, rev: Digraph) {
    && |rev| == |g|
    && WellFormed(g) && WellFormed(rev)
    && (forall s, t :: 0 <= s < |g| && 0 <= t < |g| ==> (t in g[s] <==> s in rev[t]))
  }

  lemma PathSlice(g: Digraph, p: seq<TaskId>, i: nat, j: nat)
    requires IsPath(g, p) && i < j <= |p|
    ensures IsPath(g, p[i..j])
  {
    forall k | 0 <= k < j - i - 1
      ensures p[i..j][k+1] in g[p[i..j][k]]
    {
      assert p[i+k+1] in g[p[i+k]];
    }
  }

  lemma PathExtend(g: Digraph, p: seq<TaskId>, t: TaskId)
    requires IsPath(g, p) && 0 <= t < |g| && t in g[p[|p|-1]]
    ensures IsPath(g, p + [t])
  {
  }

  lemma PathPrepend(g: Digraph, s: TaskId, p: seq<TaskId>)
    requires IsPath(g, p) && 0 <= s < |g| && p[0] in g[s]
    ensures IsPath(g, [s] + p)
  {
    var q := [s] + p;
    forall i | 0 <= i < |q| - 1
      ensures q[i+1] in g[q[i]]
    {
      if i > 0 {
        assert p[i-1+1] in g[p[i-1]];
      }
    }
  }

  lemma ReachesSelf(g: Digraph, t: TaskId)
    requires 0 <= t < |g|
    ensures Reaches(g, t, t)
  {
    assert PathBetween(g, [t], t, t);
  }

  lemma ReachesStep(g: Digraph, s: TaskId, t: TaskId, u: TaskId)
    requires Reaches(g, s, t) && 0 <= t < |g| && u in g[t] && 0 <= u < |g|
    ensures Reaches(g, s, u)
  {
    var p :| PathBetween(g, p, s, t);
    PathExtend(g, p, u);
    assert PathBetween(g, p + [u], s, u);
  }

  lemma ReachesFirst(g: Digraph, s: TaskId, t: TaskId, u: TaskId)
    requires 0 <= s < |g| && t in g[s] && Reaches(g, t, u)
    ensures Reaches(g, s, u)
  {
    var p :| PathBetween(g, p, t, u);
    PathPrepend(g, s, p);
    assert PathBetween(g, [s] + p, s, u);
  }

  /** Every task of p before the last is a task that the last one stands below. */
  lemma PathReaches(g: Digraph, p: seq<TaskId>, i: nat, j: nat)
    requires IsPath(g, p) && i <= j < |p|
    ensures Reaches(g, p[i], p[j])
  {
    PathSlice(g, p, i, j + 1);
    assert PathBetween(g, p[i..j+1], p[i], p[j]);
  }

  /** More positions than values: two positions agree. */
  lemma {:induction false} Pigeonhole(p: seq<TaskId>, S: set<TaskId>) returns (i: nat, j: nat)
    requires |p| > |S|
    requires forall k :: 0 <= k < |p| ==> p[k] in S
    ensures i < j < |p| && p[i] == p[j]
  {
    if k :| 0 < k < |p| && p[k] == p[0] {
      i, j := 0, k;
    } else {
      forall k | 0 <= k < |p| - 1
        ensures p[1..][k] in S - {p[0]}
      {
        assert p[1..][k] == p[k+1];
      }
      i, j := Pigeonhole(p[1..], S - {p[0]});
      i, j := i + 1, j + 1;
    }
  }

  ghost predicate DependsInto(g: Digraph, S: set<TaskId>, t: TaskId) {
    0 <= t < |g| && exists d :: d in g[t] && d in S
  }

  ghost predicate NeededFrom(g: Digraph, S: set<TaskId>, t: TaskId) {
    0 <= t < |g| && exists r :: r in S && 0 <= r < |g| && t in g[r]
  }

  lemma NextInto(g: Digraph, S: set<TaskId>, t: TaskId) returns (d: TaskId)
    requires t in S && forall u :: u in S ==> DependsInto(g, S, u)
    ensures 0 <= t < |g| && d in g[t] && d in S && 0 <= d < |g|
  {
    assert DependsInto(g, S, t);
    d :| d in g[t] && d in S;
    assert DependsInto(g, S, d);
  }

  lemma NextFrom(g: Digraph, S: set<TaskId>, t: TaskId) returns (r: TaskId)
    requires NeededFrom(g, S, t)
    ensures r in S && 0 <= r < |g| && t in g[r]
  {
    r :| r in S && 0 <= r < |g| && t in g[r];
  }

  lemma OneTaskIsPath(g: Digraph, S: set<TaskId>, t: TaskId)
    requires DependsInto(g, S, t) || NeededFrom(g, S, t)
    ensures IsPath(g, [t])
  {
  }

  lemma {:induction false} DescendingPath(g: Digraph, S: set<TaskId>, start: TaskId, n: nat) returns (p: seq<TaskId>)
    requires start in S && n > 0
    requires forall t :: t in S ==> DependsInto(g, S, t)
    ensures IsPath(g, p) && |p| == n && forall k :: 0 <= k < n ==> p[k] in S
  {
    hide DependsInto, IsPath;
    if n == 1 {
      p := [start];
      OneTaskIsPath(g, S, start);
    } else {
      p := DescendingPath(g, S, start, n - 1);
      var d := NextInto(g, S, p[n-2]);
      PathExtend(g, p, d);
      p := p + [d];
    }
  }

  /** If each member of S depends on a member of S, the graph has a cycle. */
  lemma EndlessDescentIsCyclic(g: Digraph, S: set<TaskId>, start: TaskId)
    requires start in S
    requires forall t :: t in S ==> DependsInto(g, S, t)
    ensures Cyclic(g)
  {
    var p := DescendingPath(g, S, start, |S| + 1);
    var i, j := Pigeonhole(p, S);
    PathSlice(g, p, i, j + 1);
    assert IsCycle(g, p[i..j+1]);
  }

  lemma {:induction false} AscendingPath(g: Digraph, S: set<TaskId>, t: TaskId, n: nat) returns (p: seq<TaskId>)
    requires t in S && n > 0
    requires forall u :: u in S ==> NeededFrom(g, S, u)
    ensures IsPath(g, p) && |p| == n && p[n-1] == t && forall k :: 0 <= k < n ==> p[k] in S
  {
    hide NeededFrom, IsPath;
    if n == 1 {
      p := [t];
      OneTaskIsPath(g, S, t);
    } else {
      p := AscendingPath(g, S, t, n - 1);
      var r := NextFrom(g, S, p[0]);
      PathPrepend(g, r, p);
      p := [r] + p;
    }
  }

  /** If each member of S is needed by a member of S, a cycle reaches t. */
  lemma EndlessAscentIsCyclic(g: Digraph, S: set<TaskId>, t: TaskId) returns (c: seq<TaskId>)
    requires t in S
    requires forall u :: u in S ==> NeededFrom(g, S, u)
    ensures IsCycle(g, c) && Reaches(g, c[0], t)
  {
    var p := AscendingPath(g, S, t, |S| + 1);
    var i, j := Pigeonhole(p, S);
    PathSlice(g, p, i, j + 1);
    c := p[i..j+1];
    PathReaches(g, p, i, |p| - 1);
  }

  /** An order in which every task comes after all the tasks that need it
      rules out cycles through its tasks. */
  lemma {:induction false} OrderedHasNoCycle(g: Digraph, rank: map<TaskId, int>, p: seq<TaskId>, k: nat)
    requires IsPath(g, p) && k < |p|
    requires p[|p|-1] in rank
    requires forall s, t :: 0 <= s < |g| && t in g[s] && t in rank ==> s in rank && rank[s] < rank[t]
    ensures p[k] in rank && (k < |p| - 1 ==> rank[p[k]] < rank[p[|p|-1]])
    decreases |p| - k
  {
    if k < |p| - 1 {
      OrderedHasNoCycle(g, rank, p, k + 1);
      assert p[k+1] in g[p[k]];
    }
  }
}
