/** The RunQueue class up to execution: Steps B to D of prepare_runqueue. */
module RunQueues {
  import opened Collections
  import opened Graph
  import opened TaskWeights
  import opened Schedulers
  import opened Pruning

  datatype PrepareResult =
    | NothingActive                            // no task survives the pruning
    | CircularPair                             // two tasks depend on each other
    | Unbuildable(problem_tasks: seq<TaskId>)  // found by calculate_task_weights
    | Prepared

  /** The new dependency ids of one task; bad reports a dependency that was pruned. */
  method RenumberDeps(origdeps: set<TaskId>, maps: seq<int>) returns (newdeps: set<TaskId>, bad: bool)
    requires forall d :: d in origdeps ==> 0 <= d < |maps|
    ensures newdeps == Renumber(origdeps, maps)
    ensures bad <==> exists d :: d in origdeps && maps[d] == -1
  {
    newdeps, bad := {}, false;
    var rest := origdeps;
    while rest != {}
      invariant rest <= origdeps
      invariant newdeps == Renumber(origdeps - rest, maps)
      invariant bad <==> exists d :: d in origdeps - rest && maps[d] == -1
    {
      ghost var some := Member(rest);
      var origdep :| origdep in rest;
      assert origdeps - (rest - {origdep}) == (origdeps - rest) + {origdep};
      rest := rest - {origdep};
      if maps[origdep] == -1 {
        bad := true;
      }
      newdeps := newdeps + {maps[origdep]};
    }
    assert origdeps - rest == origdeps;
  }

  /** The tasks below k that depend on t. */
  ghost function DependentsBelow(g: Digraph, t: TaskId, k: nat): set<TaskId>
    requires k <= |g|
  {
    set s | 0 <= s < k && t in g[s]
  }

  /** Enter listid in the reverse dependencies of each of its dependencies. */
  method AddRevdep(revdeps0: Digraph, deps: set<TaskId>, listid: TaskId) returns (revdeps: Digraph)
    requires forall d :: d in deps ==> 0 <= d < |revdeps0|
    ensures |revdeps| == |revdeps0|
    ensures forall t :: 0 <= t < |revdeps| ==> revdeps[t] == if t in deps then revdeps0[t] + {listid} else revdeps0[t]
  {
    revdeps := revdeps0;
    var rest := deps;
    while rest != {}
      invariant rest <= deps && |revdeps| == |revdeps0|
      invariant forall t :: 0 <= t < |revdeps| ==>
        revdeps[t] == if t in deps - rest then revdeps0[t] + {listid} else revdeps0[t]
    {
      ghost var some := Member(rest);
      var dep :| dep in rest;
      rest := rest - {dep};
      revdeps := revdeps[dep := revdeps[dep] + {listid}];
    }
  }

  /** Lines 635-643: the tasks nothing depends on, unless two tasks (or one)
      depend on each other. */
  method FindEndpoints(runq_depends: Digraph, runq_revdeps: Digraph) returns (endpoints: seq<TaskId>, circular: bool)
    requires Inverse(runq_depends, runq_revdeps)
    ensures circular ==> Cyclic(runq_depends)
    ensures !circular ==> Distinct(endpoints)
    ensures !circular ==> forall t :: t in endpoints <==> 0 <= t < |runq_depends| && runq_revdeps[t] == {}
    ensures !circular ==> forall s, t :: 0 <= s < |runq_depends| && t in runq_depends[s] ==> s !in runq_depends[t]
  {
    endpoints, circular := [], false;
    for listid := 0 to |runq_depends|
      invariant Distinct(endpoints)
      invariant forall t :: t in endpoints <==> 0 <= t < listid && runq_revdeps[t] == {}
      invariant forall s, t :: 0 <= t < listid && s in runq_revdeps[t] ==> s !in runq_depends[t]
    {
      var revdeps := runq_revdeps[listid];
      if |revdeps| == 0 {
        endpoints := endpoints + [listid];
      }
      if exists dep :: dep in revdeps && dep in runq_depends[listid] {
        ghost var dep :| dep in revdeps && dep in runq_depends[listid];
        assert IsCycle(runq_depends, [listid, dep, listid]);
        return endpoints, true;
      }
    }
    forall s, t | 0 <= s < |runq_depends| && t in runq_depends[s]
      ensures s !in runq_depends[t]
    {
      assert s in runq_revdeps[t];
    }
  }

  lemma EmptyRevdepsKept(revdeps: Digraph, build: seq<bool>)
    requires |revdeps| == |build| && forall t :: 0 <= t < |revdeps| ==> revdeps[t] == {}
    ensures forall i :: 0 <= i < |Kept(build, |build|)| ==> KeepEntries(revdeps, build, |build|)[i] == {}
  {
    forall i | 0 <= i < |Kept(build, |build|)|
      ensures KeepEntries(revdeps, build, |build|)[i] == {}
    {
      KeptEntry(revdeps, build, |build|, i);
    }
  }

  /** A cycle that a target depends on, directly or indirectly. */
  ghost predicate WantsCycle(g: Digraph, targets: set<TaskId>) {
    exists c :: IsCycle(g, c) && Wanted(g, targets, c[0])
  }

  lemma MarksMeanWanted(g: Digraph, targets: seq<TaskId>, build: seq<bool>)
    requires ClosedMarks(g, build) && forall i :: 0 <= i < |targets| ==> 0 <= targets[i] < |g|
    requires forall t :: 0 <= t < |build| ==> (build[t] <==> Wanted(g, Elements(targets), t))
    ensures WantedCycle(g, build) <==> WantsCycle(g, Elements(targets))
    ensures |Kept(build, |g|)| == 0 <==> targets == []
  {
    if targets != [] {
      assert targets[0] in Elements(targets);
      ReachesSelf(g, targets[0]);
      KeptAt(build, |g|, targets[0]);
    } else if |Kept(build, |g|)| > 0 {
      KeptEntry(build, build, |g|, 0);
    }
  }

  class RunQueue {
    // configuration
    const scheduler: string

    // the queue
    var runq_fnid: seq<int>
    var runq_task: seq<string>
    var runq_depends: Digraph
    var runq_revdeps: Digraph
    var runq_weight: seq<int>
    var prio_map: seq<TaskId>

    /** The queue as Step A of prepare_runqueue leaves it. */
    constructor (scheduler: string, fnids: seq<int>, tasks: seq<string>, depends: Digraph)
      requires |fnids| == |tasks| == |depends|
      ensures this.scheduler == scheduler && Tables()
      ensures runq_fnid == fnids && runq_task == tasks && runq_depends == depends
      ensures forall t :: 0 <= t < |runq_revdeps| ==> runq_revdeps[t] == {}
    {
      this.scheduler := scheduler;
      runq_fnid, runq_task, runq_depends := fnids, tasks, depends;
      runq_revdeps := seq(|depends|, _ => {});
      runq_weight, prio_map := [], [];
    }

    // --- preparation ---

    ghost predicate Tables()
      reads `runq_fnid, `runq_task, `runq_depends, `runq_revdeps
    {
      |runq_fnid| == |runq_task| == |runq_depends| == |runq_revdeps|
    }

    /** Step C: prune the inactive tasks from all lists at once. */
    method Prune(runq_build0: seq<bool>) returns (maps: seq<int>)
      requires Tables() && |runq_build0| == |runq_fnid|
      modifies `runq_fnid, `runq_task, `runq_depends, `runq_revdeps
      ensures Tables() && MapsTo(maps, runq_build0)
      ensures runq_fnid == KeepEntries(old(runq_fnid), runq_build0, |runq_build0|)
      ensures runq_task == KeepEntries(old(runq_task), runq_build0, |runq_build0|)
      ensures runq_depends == KeepEntries(old(runq_depends), runq_build0, |runq_build0|)
      ensures runq_revdeps == KeepEntries(old(runq_revdeps), runq_build0, |runq_build0|)
    {
      hide PrunedList, DeleteAt, KeepEntries, Kept;
      assert |Kept(runq_build0, 0)| == 0 by { NothingPruned(runq_build0, runq_build0); }
      var runq_build := runq_build0;
      maps := [];
      var delcount := 0;
      var count := |runq_fnid|;
      NothingPruned(runq_build0, runq_build0);
      NothingPruned(runq_fnid, runq_build0);
      NothingPruned(runq_task, runq_build0);
      NothingPruned(runq_depends, runq_build0);
      NothingPruned(runq_revdeps, runq_build0);
      for listid := 0 to count
        invariant delcount == listid - |Kept(runq_build0, listid)|
        invariant maps == MapsBelow(runq_build0, listid)
        invariant runq_build == PrunedList(runq_build0, runq_build0, listid)
        invariant runq_fnid == PrunedList(old(runq_fnid), runq_build0, listid)
        invariant runq_task == PrunedList(old(runq_task), runq_build0, listid)
        invariant runq_depends == PrunedList(old(runq_depends), runq_build0, listid)
        invariant runq_revdeps == PrunedList(old(runq_revdeps), runq_build0, listid)
      {
        var at := listid - delcount;
        PrunedNext(runq_build0, runq_build0, listid);
        PrunedNext(old(runq_fnid), runq_build0, listid);
        PrunedNext(old(runq_task), runq_build0, listid);
        PrunedNext(old(runq_depends), runq_build0, listid);
        PrunedNext(old(runq_revdeps), runq_build0, listid);
        if runq_build[at] {
          maps := maps + [at];
        } else {
          runq_fnid := DeleteAt(runq_fnid, at);
          runq_task := DeleteAt(runq_task, at);
          runq_depends := DeleteAt(runq_depends, at);
          runq_build := DeleteAt(runq_build, at);
          runq_revdeps := DeleteAt(runq_revdeps, at);
          delcount := delcount + 1;
          maps := maps + [-1];
        }
      }
      PrunedSplit(old(runq_fnid), runq_build0, count);
      PrunedSplit(old(runq_task), runq_build0, count);
      PrunedSplit(old(runq_depends), runq_build0, count);
      PrunedSplit(old(runq_revdeps), runq_build0, count);
    }

    /** The first loop of Step D.  invalid reports that the "should never happen"
        branch was taken; it never is. */
    method Remap(maps: seq<int>, ghost g: Digraph, ghost build: seq<bool>) returns (invalid: bool)
      requires ClosedMarks(g, build) && MapsTo(maps, build)
      requires runq_depends == KeepEntries(g, build, |g|)
      modifies `runq_depends
      ensures !invalid
      ensures Restriction(g, build, runq_depends)
    {
      invalid := false;
      ghost var kept := Kept(build, |g|);
      MapsAreBijective(maps, build);
      for listid := 0 to |runq_depends|
        invariant |runq_depends| == |kept|
        invariant forall i :: 0 <= i < listid ==> runq_depends[i] == Renumber(g[kept[i]], maps)
        invariant forall i :: listid <= i < |kept| ==> runq_depends[i] == KeepEntries(g, build, |g|)[i]
        invariant !invalid
      {
        KeptEntry(g, build, |g|, listid);
        assert forall d :: d in g[kept[listid]] ==> build[d];
        var newdeps, bad := RenumberDeps(runq_depends[listid], maps);
        invalid := invalid || bad;
        runq_depends := runq_depends[listid := newdeps];
      }
      RenumberedIsRestriction(g, build, maps, runq_depends);
    }

    /** The second loop of Step D fills the reverse dependencies. */
    method FillRevdeps()
      requires WellFormed(runq_depends) && |runq_revdeps| == |runq_depends|
      requires forall t :: 0 <= t < |runq_revdeps| ==> runq_revdeps[t] == {}
      modifies `runq_revdeps
      ensures Inverse(runq_depends, runq_revdeps)
    {
      for listid := 0 to |runq_depends|
        invariant |runq_revdeps| == |runq_depends|
        invariant forall t :: 0 <= t < |runq_revdeps| ==> runq_revdeps[t] == DependentsBelow(runq_depends, t, listid)
      {
        runq_revdeps := AddRevdep(runq_revdeps, runq_depends[listid], listid);
      }
    }

    // --- the prepared queue ---

    /** What prepare_runqueue promises to the executor. */
    ghost predicate IsPrepared()
      reads `runq_fnid, `runq_task, `runq_depends, `runq_revdeps, `prio_map
    {
      && Tables()
      && Inverse(runq_depends, runq_revdeps)
      && !Cyclic(runq_depends)
      && IsPermutation(prio_map, |runq_fnid|)
    }

    /** runq_weight and prio_map belong to the graph and the chosen scheduler. */
    ghost predicate Prioritised()
      reads `runq_fnid, `runq_revdeps, `runq_weight, `prio_map
    {
      && WeightsAdd(runq_revdeps, runq_weight)
      && (scheduler != "completion" ==> HeaviestFirst(prio_map, runq_weight))
      && (scheduler == "completion" ==> exists speed ::
        HeaviestFirst(speed, runq_weight) && prio_map == GroupByFile(speed, runq_fnid))
    }

    /** Line 654: pick the scheduler; every other setting than completion means speed. */
    method ChooseScheduler()
      requires |runq_weight| == |runq_fnid| && forall t :: 0 <= t < |runq_weight| ==> runq_weight[t] >= 1
      requires WeightsAdd(runq_revdeps, runq_weight)
      modifies `prio_map
      ensures IsPermutation(prio_map, |runq_fnid|) && Prioritised()
      ensures AreTasks(prio_map, |runq_fnid|)
      ensures scheduler != "completion" ==> WeightsFall(prio_map, runq_weight)
      ensures scheduler == "completion" ==>
        FilesStayTogether(prio_map, runq_fnid) && HeavyFilesFirst(prio_map, runq_fnid, runq_weight)
    {
      var speed := SpeedPrioMap(runq_weight);
      if scheduler == "completion" {
        prio_map := CompletionPrioMap(speed, runq_fnid);
        GroupsStayTogether(speed, runq_fnid);
        GroupsByHeaviest(speed, runq_fnid, runq_weight);
      } else {
        prio_map := speed;
      }
    }

    /** Steps B to D of prepare_runqueue.  targets are the task ids the requested
        targets resolve to. */
    method PrepareRunqueue(targets: seq<TaskId>) returns (r: PrepareResult, ghost build: seq<bool>)
      requires Tables() && WellFormed(runq_depends)
      requires forall t :: 0 <= t < |runq_revdeps| ==> runq_revdeps[t] == {}
      requires forall i :: 0 <= i < |targets| ==> 0 <= targets[i] < |runq_depends|
      modifies `runq_fnid, `runq_task, `runq_depends, `runq_revdeps, `runq_weight, `prio_map
      ensures r.NothingActive? <==> targets == []
      ensures r.Prepared? <==> targets != [] && !WantsCycle(old(runq_depends), Elements(targets))
      ensures r.Prepared? ==> IsPrepared() && Prioritised()
      ensures r.Prepared? ==>
        && AreTasks(prio_map, |runq_fnid|) && |runq_weight| == |runq_fnid|
        && if scheduler != "completion" then WeightsFall(prio_map, runq_weight)
           else FilesStayTogether(prio_map, runq_fnid) && HeavyFilesFirst(prio_map, runq_fnid, runq_weight)
      ensures |build| == old(|runq_depends|)
      ensures forall t :: 0 <= t < |build| ==> (build[t] <==> Wanted(old(runq_depends), Elements(targets), t))
      ensures r.Unbuildable? ==>
        forall t :: t in r.problem_tasks <==> 0 <= t < |runq_depends| && OnOrBelowCycle(runq_depends, t)
      ensures !r.NothingActive? ==> Restriction(old(runq_depends), build, runq_depends)
      ensures runq_fnid == KeepEntries(old(runq_fnid), build, |build|)
      ensures runq_task == KeepEntries(old(runq_task), build, |build|)
    {
      ghost var g := runq_depends;
      var runq_build := MarkTargets(runq_depends, targets);
      build := runq_build;
      MarksMeanWanted(g, targets, build);
      EmptyRevdepsKept(runq_revdeps, build);
      var maps := Prune(runq_build);
      if |runq_fnid| == 0 {
        return NothingActive, build;
      }
      var invalid := Remap(maps, g, build);
      CyclesCorrespond(g, build, maps, runq_depends);
      FillRevdeps();
      var endpoints, circular := FindEndpoints(runq_depends, runq_revdeps);
      if circular {
        return CircularPair, build;
      }
      var problem_tasks: seq<TaskId>;
      runq_weight, problem_tasks := CalculateTaskWeights(runq_depends, runq_revdeps, endpoints);
      if problem_tasks != [] {
        return Unbuildable(problem_tasks), build;
      }
      ChooseScheduler();
      return Prepared, build;
    }
  }
}
