/** What a task weight means: the number of dependency paths that lead from an
endpoint, a task nothing depends on, to the task. */
module PathCount {
  import opened Graph
  import opened TaskWeights

  ghost predicate EndpointPath(g: Digraph, rev: Digraph, p: seq<TaskId>, t: TaskId)
    requires |rev| == |g|
  {
    IsPath(g, p) && rev[p[0]] == {} && p[|p|-1] == t
  }

  /** Everything that depends on t, and t itself. */
  ghost function Ancestors(g: Digraph, t: TaskId): set<TaskId> {
    set s | s in Below(|g|) && Reaches(g, s, t)
  }

  lemma AncestorsShrink(g: Digraph, rev: Digraph, r: TaskId, t: TaskId)
    requires Inverse(g, rev) && !Cyclic(g) && 0 <= t < |g| && r in rev[t]
    ensures |Ancestors(g, r)| < |Ancestors(g, t)|
  {
    forall s | s in Ancestors(g, r)
      ensures s in Ancestors(g, t)
    {
      ReachesStep(g, s, r, t);
    }
    ReachesSelf(g, t);
    if Reaches(g, t, r) {
      var p :| PathBetween(g, p, t, r);
      PathExtend(g, p, t);
      assert IsCycle(g, p + [t]);
    }
    assert t in Ancestors(g, t) && t !in Ancestors(g, r);
    SubsetCard(Ancestors(g, r), Ancestors(g, t));
  }

  /** All paths from endpoints to t, built from the end backwards. */
  ghost function EndpointPaths(g: Digraph, rev: Digraph, t: TaskId): set<seq<TaskId>>
    requires Inverse(g, rev) && !Cyclic(g) && 0 <= t < |g|
    decreases |Ancestors(g, t)|
  {
    if rev[t] == {} then {[t]} else
      assert forall r :: r in rev[t] ==> 0 <= r < |g| && |Ancestors(g, r)| < |Ancestors(g, t)| by {
        forall r | r in rev[t] {
          AncestorsShrink(g, rev, r, t);
        }
      }
      set r, q | r in rev[t] && q in EndpointPaths(g, rev, r) :: q + [t]
  }

  lemma LastStepIsEdge(g: Digraph, rev: Digraph, p: seq<TaskId>, t: TaskId)
    requires Inverse(g, rev) && IsPath(g, p) && p[|p|-1] == t && |p| > 1
    ensures p[|p|-2] in rev[t]
  {
    var r := p[|p|-2];
    assert p[|p|-2+1] in g[r];
  }

  /** EndpointPaths misses no path and lists nothing else. */
  lemma {:induction false} EndpointPathsExact(g: Digraph, rev: Digraph, t: TaskId, p: seq<TaskId>)
    requires Inverse(g, rev) && !Cyclic(g) && 0 <= t < |g|
    ensures p in EndpointPaths(g, rev, t) <==> EndpointPath(g, rev, p, t)
    decreases |Ancestors(g, t)|
  {
    if rev[t] == {} {
      if EndpointPath(g, rev, p, t) && |p| > 1 {
        LastStepIsEdge(g, rev, p, t);
        assert false;
      }
      assert EndpointPath(g, rev, p, t) ==> p == [t];
    } else {
      forall r, q | r in rev[t]
        ensures q in EndpointPaths(g, rev, r) <==> EndpointPath(g, rev, q, r)
      {
        AncestorsShrink(g, rev, r, t);
        EndpointPathsExact(g, rev, r, q);
      }
      if p in EndpointPaths(g, rev, t) {
        var r, q :| r in rev[t] && q in EndpointPaths(g, rev, r) && p == q + [t];
        PathExtend(g, q, t);
      }
      if EndpointPath(g, rev, p, t) {
        assert |p| > 1;
        var q, r := p[..|p|-1], p[|p|-2];
        assert p[|p|-2+1] in g[r];
        PathSlice(g, p, 0, |p| - 1);
        assert p[0..|p|-1] == q;
        assert p == q + [t];
        assert r in rev[t] && q in EndpointPaths(g, rev, r);
      }
    }
  }

  lemma {:induction false} AppendKeepsCard(S: set<seq<TaskId>>, T: set<seq<TaskId>>, t: TaskId)
    requires T == set q | q in S :: q + [t]
    ensures |T| == |S|
  {
    if S != {} {
      var q :| q in S;
      var S', T' := S - {q}, T - {q + [t]};
      forall x | x in S'
        ensures x + [t] in T'
      {
        assert (x + [t])[..|x|] == x && (q + [t])[..|q|] == q;
      }
      assert T' == set x | x in S' :: x + [t];
      AppendKeepsCard(S', T', t);
    }
  }

  ghost predicate LastStepBelow(p: seq<TaskId>, k: int) {
    |p| > 1 && p[|p|-2] < k
  }

  /** The endpoint paths to t whose last step starts at a task below k. */
  ghost function PathsVia(paths: set<seq<TaskId>>, k: int): set<seq<TaskId>> {
    set p | p in paths && LastStepBelow(p, k)
  }

  ghost predicate StepsFrom(paths: set<seq<TaskId>>, sources: set<TaskId>) {
    forall p :: p in paths && |p| > 1 ==> p[|p|-2] in sources
  }

  lemma EndpointPathSteps(g: Digraph, rev: Digraph, t: TaskId)
    requires Inverse(g, rev) && !Cyclic(g) && 0 <= t < |g|
    ensures StepsFrom(EndpointPaths(g, rev, t), rev[t])
  {
    forall p | p in EndpointPaths(g, rev, t) && |p| > 1
      ensures p[|p|-2] in rev[t]
    {
      EndpointPathsExact(g, rev, t, p);
      LastStepIsEdge(g, rev, p, t);
    }
  }

  ghost function PathsViaExactly(paths: set<seq<TaskId>>, r: TaskId): set<seq<TaskId>> {
    set p | p in paths && |p| > 1 && p[|p|-2] == r
  }

  lemma SplitVia(paths: set<seq<TaskId>>, r: TaskId)
    ensures |PathsVia(paths, r + 1)| == |PathsVia(paths, r)| + |PathsViaExactly(paths, r)|
  {
    assert PathsVia(paths, r + 1) == PathsVia(paths, r) + PathsViaExactly(paths, r);
    assert PathsVia(paths, r) * PathsViaExactly(paths, r) == {};
  }

  lemma NoneVia(paths: set<seq<TaskId>>, sources: set<TaskId>, r: TaskId)
    requires StepsFrom(paths, sources)
    ensures r !in sources ==> PathsViaExactly(paths, r) == {}
    ensures (forall s :: s in sources ==> 0 <= s) ==> PathsVia(paths, 0) == {}
  {
  }

  lemma {:induction false} PathsViaCount(g: Digraph, rev: Digraph, w: seq<int>, t: TaskId, k: nat)
    requires Inverse(g, rev) && !Cyclic(g) && 0 <= t < |g| && k <= |g|
    requires WeightsAdd(rev, w)
    ensures |PathsVia(EndpointPaths(g, rev, t), k)| == Sum(w, rev[t], k)
    decreases |Ancestors(g, t)|, 0, k
  {
    var paths := EndpointPaths(g, rev, t);
    EndpointPathSteps(g, rev, t);
    NoneVia(paths, rev[t], k - 1);
    if k > 0 {
      PathsViaCount(g, rev, w, t, k - 1);
      SplitVia(paths, k - 1);
      if k - 1 in rev[t] {
        AncestorsShrink(g, rev, k - 1, t);
        WeightCountsPaths(g, rev, w, k - 1);
        LastStep(g, rev, t, k - 1, PathsViaExactly(paths, k - 1));
        AppendKeepsCard(EndpointPaths(g, rev, k - 1), PathsViaExactly(paths, k - 1), t);
      }
    }
  }

  lemma LastStep(g: Digraph, rev: Digraph, t: TaskId, r: TaskId, last: set<seq<TaskId>>)
    requires Inverse(g, rev) && !Cyclic(g) && 0 <= t < |g| && r in rev[t]
    requires forall p :: p in last <==> p in EndpointPaths(g, rev, t) && |p| > 1 && p[|p|-2] == r
    ensures last == set q | q in EndpointPaths(g, rev, r) :: q + [t]
  {
    forall p | p in last
      ensures p[..|p|-1] in EndpointPaths(g, rev, r) && p == p[..|p|-1] + [t]
    {
      EndpointPathsExact(g, rev, t, p);
      PathSlice(g, p, 0, |p| - 1);
      assert p[0..|p|-1] == p[..|p|-1];
      EndpointPathsExact(g, rev, r, p[..|p|-1]);
    }
    forall q | q in EndpointPaths(g, rev, r)
      ensures q + [t] in last
    {
      EndpointPathsExact(g, rev, r, q);
      PathExtend(g, q, t);
      EndpointPathsExact(g, rev, t, q + [t]);
    }
  }

  /** The weight calculate_task_weights gives a task of an acyclic graph is the
      number of dependency paths from endpoints to it. */
  lemma {:induction false} WeightCountsPaths(g: Digraph, rev: Digraph, w: seq<int>, t: TaskId)
    requires Inverse(g, rev) && !Cyclic(g) && 0 <= t < |g|
    requires WeightsAdd(rev, w)
    ensures w[t] == |EndpointPaths(g, rev, t)|
    decreases |Ancestors(g, t)|, 1
  {
    if rev[t] != {} {
      PathsViaCount(g, rev, w, t, |g|);
      forall p | p in EndpointPaths(g, rev, t)
        ensures p in PathsVia(EndpointPaths(g, rev, t), |g|)
      {
        EndpointPathsExact(g, rev, t, p);
      }
      assert PathsVia(EndpointPaths(g, rev, t), |g|) == EndpointPaths(g, rev, t);
    }
  }
}
