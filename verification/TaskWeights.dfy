/** RunQueue.calculate_task_weights: a wave that starts at the endpoints and
pushes each finished task's weight to the tasks it depends on. */
module TaskWeights {
  import opened Collections
  import opened Graph

  /** The sum of w[i] over the members i of s below n. */
  ghost function Sum(w: seq<int>, s: set<TaskId>, n: nat): int
    requires n <= |w|
  {
    if n == 0 then 0 else Sum(w, s, n - 1) + if n - 1 in s then w[n-1] else 0
  }

  lemma {:induction false} SumAdd(w: seq<int>, s: set<TaskId>, x: TaskId, n: nat)
    requires 0 <= x < n <= |w| && x !in s
    ensures Sum(w, s + {x}, n) == Sum(w, s, n) + w[x]
  {
    if n - 1 == x {
      SumSame(w, w, s + {x}, s, n - 1);
    } else {
      SumAdd(w, s, x, n - 1);
    }
  }

  lemma {:induction false} SumSame(w: seq<int>, w': seq<int>, s: set<TaskId>, s': set<TaskId>, n: nat)
    requires n <= |w| && n <= |w'|
    requires forall i :: 0 <= i < n ==> (i in s <==> i in s')
    requires forall i :: 0 <= i < n && i in s ==> w[i] == w'[i]
    ensures Sum(w, s, n) == Sum(w', s', n)
  {
    if n > 0 {
      SumSame(w, w', s, s', n - 1);
    }
  }

  lemma {:induction false} SumOfNone(w: seq<int>, s: set<TaskId>, n: nat)
    requires n <= |w|
    requires forall i :: 0 <= i < n ==> i !in s
    ensures Sum(w, s, n) == 0
  {
    if n > 0 {
      SumOfNone(w, s, n - 1);
    }
  }

  lemma {:induction false} SumNotNegative(w: seq<int>, s: set<TaskId>, n: nat)
    requires n <= |w|
    requires forall i :: 0 <= i < n && i in s ==> w[i] >= 0
    ensures Sum(w, s, n) >= 0
  {
    if n > 0 {
      SumNotNegative(w, s, n - 1);
    }
  }

  lemma {:induction false} SumAtLeast(w: seq<int>, s: set<TaskId>, x: TaskId, n: nat)
    requires 0 <= x < n <= |w| && x in s
    requires forall i :: 0 <= i < n && i in s ==> w[i] >= 0
    ensures Sum(w, s, n) >= w[x]
  {
    if n - 1 != x {
      SumAtLeast(w, s, x, n - 1);
    } else {
      SumNotNegative(w, s, n - 1);
    }
  }

  /** 1 at an endpoint, otherwise the sum over the tasks that need t directly. */
  ghost predicate WeightsAdd(rev: Digraph, w: seq<int>) {
    && |w| == |rev|
    && (forall t :: 0 <= t < |w| ==>
      w[t] == if rev[t] == {} then 1 else Sum(w, rev[t], |w|))
  }

  /** The wave's bookkeeping.  pushed[t] holds the tasks whose weight has
      reached t; a task is done once all the tasks that need it have. */
  ghost predicate Edges(g: Digraph, rev: Digraph, pushed: Digraph, task_done: seq<bool>) {
    && Inverse(g, rev)
    && |pushed| == |task_done| == |g|
    && (forall t :: 0 <= t < |g| ==> pushed[t] <= rev[t])
    && (forall t :: 0 <= t < |g| ==> (task_done[t] <==> pushed[t] == rev[t]))
    && (forall s, t :: 0 <= t < |g| && s in pushed[t] ==> 0 <= s < |g| && task_done[s])
  }

  ghost predicate Counts(rev: Digraph, pushed: Digraph, deps_left: seq<int>) {
    && |pushed| == |deps_left| == |rev|
    && (forall t :: 0 <= t < |rev| ==> deps_left[t] == |rev[t]| - |pushed[t]|)
  }

  ghost predicate Sums(rev: Digraph, pushed: Digraph, weight: seq<int>) {
    && |pushed| == |weight| == |rev|
    && (forall t :: 0 <= t < |rev| ==>
      weight[t] == (if rev[t] == {} then 1 else 0) + Sum(weight, pushed[t], |rev|))
  }

  /** rank numbers the done tasks in an order that puts tasks first that need others. */
  ghost predicate Ranked(rev: Digraph, task_done: seq<bool>, rank: map<TaskId, int>) {
    && |task_done| == |rev|
    && (forall t :: t in rank <==> 0 <= t < |rev| && task_done[t])
    && (forall t :: t in rank ==> 0 <= rank[t] < |rank|)
    && (forall s, t :: t in rank && s in rev[t] ==> s in rank && rank[s] < rank[t])
  }

  /** The edges already pushed: those of every done task, except tasks in
      waiting and, for the task being handled, the dependencies in rest. */
  ghost predicate Pushed(g: Digraph, pushed: Digraph, task_done: seq<bool>,
                         waiting: set<TaskId>, current: nat, rest: set<TaskId>)
    requires |pushed| == |task_done| == |g| && WellFormed(g)
  {
    forall s, d :: 0 <= s < |g| && task_done[s] && d in g[s] ==>
      (s in pushed[d] <==> s !in waiting && !(s == current && d in rest))
  }

  lemma PushSums(rev: Digraph, pushed: Digraph, weight: seq<int>, s: TaskId, d: TaskId)
    requires Sums(rev, pushed, weight)
    requires 0 <= s < |rev| && 0 <= d < |rev| && s !in pushed[d] && s != d
    requires forall t :: 0 <= t < |rev| ==> d !in pushed[t]
    ensures Sums(rev, pushed[d := pushed[d] + {s}], weight[d := weight[d] + weight[s]])
  {
    var n := |rev|;
    var weight' := weight[d := weight[d] + weight[s]];
    var pushed' := pushed[d := pushed[d] + {s}];
    forall t | 0 <= t < n
      ensures weight'[t] == (if rev[t] == {} then 1 else 0) + Sum(weight', pushed'[t], n)
    {
      SumSame(weight, weight', pushed[t], pushed[t], n);
      if t == d {
        SumAdd(weight', pushed[d], s, n);
      }
    }
  }

  lemma PushCounts(rev: Digraph, pushed: Digraph, deps_left: seq<int>, s: TaskId, d: TaskId)
    requires Counts(rev, pushed, deps_left)
    requires 0 <= d < |rev| && pushed[d] <= rev[d] && s in rev[d] && s !in pushed[d]
    ensures Counts(rev, pushed[d := pushed[d] + {s}], deps_left[d := deps_left[d] - 1])
    ensures deps_left[d] == 1 <==> pushed[d] + {s} == rev[d]
  {
    SubsetCard(pushed[d] + {s}, rev[d]);
  }

  lemma RankNext(rev: Digraph, task_done: seq<bool>, rank: map<TaskId, int>, d: TaskId)
    requires Ranked(rev, task_done, rank)
    requires 0 <= d < |rev| && !task_done[d] && forall s :: s in rev[d] ==> 0 <= s < |rev| && task_done[s]
    ensures Ranked(rev, task_done[d := true], rank[d := |rank|])
    ensures |rank[d := |rank|]| == |rank| + 1
  {
    assert rank[d := |rank|].Keys == rank.Keys + {d};
  }

  lemma SubsetCard(a: set<TaskId>, b: set<TaskId>)
    requires a <= b
    ensures |a| <= |b|
    ensures |a| == |b| ==> a == b
  {
    assert b == a + (b - a);
  }

  /** Some task on a circular chain depends on t, or is t. */
  ghost predicate OnOrBelowCycle(g: Digraph, t: TaskId) {
    exists c :: IsCycle(g, c) && Reaches(g, c[0], t)
  }

  lemma DoneIsNotBelowCycle(g: Digraph, rev: Digraph, task_done: seq<bool>, rank: map<TaskId, int>, t: TaskId)
    requires Inverse(g, rev) && Ranked(rev, task_done, rank)
    requires 0 <= t < |g| && OnOrBelowCycle(g, t)
    ensures !task_done[t]
  {
    if task_done[t] {
      forall a, b | 0 <= a < |g| && b in g[a] && b in rank
        ensures a in rank && rank[a] < rank[b]
      {
        assert a in rev[b];
      }
      var c :| IsCycle(g, c) && Reaches(g, c[0], t);
      var p :| PathBetween(g, p, c[0], t);
      OrderedHasNoCycle(g, rank, p, 0);
      OrderedHasNoCycle(g, rank, c, 0);
      assert false;
    }
  }

  lemma UndoneIsBelowCycle(g: Digraph, rev: Digraph, pushed: Digraph, task_done: seq<bool>, t: TaskId)
    requires Edges(g, rev, pushed, task_done)
    requires Pushed(g, pushed, task_done, {}, 0, {})
    requires 0 <= t < |g| && !task_done[t]
    ensures OnOrBelowCycle(g, t)
  {
    var undone := set u | u in Below(|g|) && !task_done[u];
    forall u | u in undone
      ensures NeededFrom(g, undone, u)
    {
      assert pushed[u] != rev[u];
      var r := Member(rev[u] - pushed[u]);
      assert u in g[r];
      assert r in undone;
    }
    var c := EndlessAscentIsCyclic(g, undone, t);
  }

  lemma CycleIsOnCycle(g: Digraph)
    requires Cyclic(g)
    ensures exists t :: 0 <= t < |g| && OnOrBelowCycle(g, t)
  {
    var c :| IsCycle(g, c);
    assert OnOrBelowCycle(g, c[0]) by {
      ReachesSelf(g, c[0]);
    }
  }

  lemma AtMostAllTasks(rev: Digraph, task_done: seq<bool>, rank: map<TaskId, int>)
    requires Ranked(rev, task_done, rank)
    ensures |rank| <= |rev|
  {
    assert rank.Keys <= Below(|rev|);
    SubsetCard(rank.Keys, Below(|rev|));
  }

  lemma WeightsFinal(g: Digraph, rev: Digraph, pushed: Digraph, weight: seq<int>, task_done: seq<bool>,
                     rank: map<TaskId, int>)
    requires Edges(g, rev, pushed, task_done) && Sums(rev, pushed, weight) && Ranked(rev, task_done, rank)
    requires forall t :: 0 <= t < |g| ==> task_done[t]
    ensures WeightsAdd(rev, weight)
    ensures forall t :: 0 <= t < |g| ==> weight[t] >= 1
  {
    forall t | 0 <= t < |g|
      ensures weight[t] == if rev[t] == {} then 1 else Sum(weight, rev[t], |g|)
      ensures weight[t] >= 1
    {
      assert pushed[t] == rev[t];
      if rev[t] == {} {
        SumOfNone(weight, rev[t], |g|);
      }
      RankedIsPositive(rev, pushed, weight, task_done, rank, t);
    }
  }

  lemma {:induction false} RankedIsPositive(rev: Digraph, pushed: Digraph, weight: seq<int>, task_done: seq<bool>,
                                            rank: map<TaskId, int>, t: TaskId)
    requires Sums(rev, pushed, weight) && Ranked(rev, task_done, rank)
    requires forall u :: u in rank ==> pushed[u] == rev[u]
    requires t in rank
    ensures weight[t] >= 1
    decreases rank[t]
  {
    assert 0 <= t < |rev|;
    if rev[t] != {} {
      forall r | r in rev[t]
        ensures 0 <= r < |rev| && weight[r] >= 1
      {
        RankedIsPositive(rev, pushed, weight, task_done, rank, r);
      }
      var r := Member(rev[t]);
      SumAtLeast(weight, pushed[t], r, |rev|);
    } else {
      SumOfNone(weight, pushed[t], |rev|);
    }
  }

  ghost function Below(n: nat): (s: set<TaskId>)
    ensures |s| == n
    ensures forall x :: x in s <==> 0 <= x < n
  {
    if n == 0 then {} else Below(n - 1) + {n - 1}
  }

  /** One pushed edge: the loop body of lines 286-290. */
  lemma PushEdge(g: Digraph, rev: Digraph, pushed: Digraph, task_done: seq<bool>,
                 waiting: set<TaskId>, s: TaskId, d: TaskId, rest: set<TaskId>)
    requires Edges(g, rev, pushed, task_done)
    requires 0 <= s < |g| && task_done[s] && s !in waiting && d in g[s] && d in rest
    requires Pushed(g, pushed, task_done, waiting, s, rest)
    requires forall w :: w in waiting ==> 0 <= w < |g| && task_done[w]
    ensures !task_done[d] && s != d && s in rev[d] && s !in pushed[d]
    ensures
      var finished := pushed[d] + {s} == rev[d];
      var task_done' := if finished then task_done[d := true] else task_done;
      var pushed' := pushed[d := pushed[d] + {s}];
      && Edges(g, rev, pushed', task_done')
      && Pushed(g, pushed', task_done', if finished then waiting + {d} else waiting, s, rest - {d})
  {
    assert s in rev[d];
    assert s !in pushed[d];
    assert !task_done[d];
    forall t | t in g[d]
      ensures d !in pushed[t]
    {
    }
  }

  /** next_points holds done tasks once each, all different from the done
      tasks that still wait in this wave. */
  ghost predicate Queued(next_points: seq<TaskId>, later: set<TaskId>, task_done: seq<bool>) {
    && Distinct(next_points)
    && (forall t :: t in next_points ==> t !in later && 0 <= t < |task_done| && task_done[t])
    && (forall t :: t in later ==> 0 <= t < |task_done| && task_done[t])
  }

  lemma QueueNext(next_points: seq<TaskId>, later: set<TaskId>, task_done: seq<bool>, d: TaskId)
    requires Queued(next_points, later, task_done)
    requires 0 <= d < |task_done| && !task_done[d]
    ensures Queued(next_points + [d], later, task_done[d := true])
    ensures Elements(next_points + [d]) == Elements(next_points) + {d}
  {
  }

  ghost predicate Wave(g: Digraph, rev: Digraph, pushed: Digraph, weight: seq<int>, deps_left: seq<int>,
                       task_done: seq<bool>, rank: map<TaskId, int>)
  {
    Edges(g, rev, pushed, task_done) && Counts(rev, pushed, deps_left) && Sums(rev, pushed, weight) &&
    Ranked(rev, task_done, rank)
  }

  lemma PushStep(g: Digraph, rev: Digraph, pushed: Digraph, weight: seq<int>, deps_left: seq<int>, task_done: seq<bool>,
                 rank: map<TaskId, int>, next_points: seq<TaskId>, later: set<TaskId>, s: TaskId, d: TaskId,
                 rest: set<TaskId>)
    requires Wave(g, rev, pushed, weight, deps_left, task_done, rank)
    requires s !in later && Queued(next_points, {s} + later, task_done)
    requires rest <= g[s] && d in rest
    requires Pushed(g, pushed, task_done, later + Elements(next_points), s, rest)
    ensures 0 <= d < |g|
    ensures
      var finished := deps_left[d := deps_left[d] - 1][d] == 0;
      var next' := if finished then next_points + [d] else next_points;
      var done' := if finished then task_done[d := true] else task_done;
      var rank' := if finished then rank[d := |rank|] else rank;
      var pushed' := pushed[d := pushed[d] + {s}];
      && Wave(g, rev, pushed', weight[d := weight[d] + weight[s]], deps_left[d := deps_left[d] - 1], done', rank')
      && Queued(next', {s} + later, done')
      && Pushed(g, pushed', done', later + Elements(next'), s, rest - {d})
      && |rank'| - |rank| == |next'| - |next_points|
  {
    var waiting := later + Elements(next_points);
    assert s in {s} + later && s !in waiting;
    PushEdge(g, rev, pushed, task_done, waiting, s, d, rest);
    PushCounts(rev, pushed, deps_left, s, d);
    PushSums(rev, pushed, weight, s, d);
    if deps_left[d] == 1 {
      RankNext(rev, task_done, rank, d);
      QueueNext(next_points, {s} + later, task_done, d);
      assert later + Elements(next_points + [d]) == waiting + {d};
    }
  }

  /** The loop over the dependencies of one endpoint.  later holds the
      endpoints of this wave that still wait. */
  method PushFrom(listid: TaskId, runq_depends: Digraph, runq_revdeps: Digraph,
                  weight0: seq<int>, deps_left0: seq<int>, task_done0: seq<bool>, next_points0: seq<TaskId>,
                  ghost later: set<TaskId>, ghost pushed0: Digraph, ghost rank0: map<TaskId, int>)
    returns (weight: seq<int>, deps_left: seq<int>, task_done: seq<bool>, next_points: seq<TaskId>,
             ghost pushed: Digraph, ghost rank: map<TaskId, int>)
    requires Wave(runq_depends, runq_revdeps, pushed0, weight0, deps_left0, task_done0, rank0)
    requires listid !in later && Queued(next_points0, {listid} + later, task_done0)
    requires Pushed(runq_depends, pushed0, task_done0, {listid} + later + Elements(next_points0), 0, {})
    ensures Wave(runq_depends, runq_revdeps, pushed, weight, deps_left, task_done, rank)
    ensures Queued(next_points, {listid} + later, task_done)
    ensures Pushed(runq_depends, pushed, task_done, later + Elements(next_points), 0, {})
    ensures |rank| - |rank0| == |next_points| - |next_points0|
  {
    weight, deps_left, task_done, next_points := weight0, deps_left0, task_done0, next_points0;
    pushed, rank := pushed0, rank0;
    assert listid in {listid} + later;
    var rest := runq_depends[listid];
    while rest != {}
      invariant rest <= runq_depends[listid]
      invariant Wave(runq_depends, runq_revdeps, pushed, weight, deps_left, task_done, rank)
      invariant Queued(next_points, {listid} + later, task_done)
      invariant Pushed(runq_depends, pushed, task_done, later + Elements(next_points), listid, rest)
      invariant |rank| - |rank0| == |next_points| - |next_points0|
    {
      ghost var some := Member(rest);
      var revdep :| revdep in rest;
      PushStep(runq_depends, runq_revdeps, pushed, weight, deps_left, task_done, rank, next_points, later, listid,
               revdep, rest);
      rest := rest - {revdep};
      weight := weight[revdep := weight[revdep] + weight[listid]];
      deps_left := deps_left[revdep := deps_left[revdep] - 1];
      pushed := pushed[revdep := pushed[revdep] + {listid}];
      if deps_left[revdep] == 0 {
        next_points := next_points + [revdep];
        task_done := task_done[revdep := true];
        rank := rank[revdep := |rank|];
      }
    }
  }

  /** One wave: every waiting endpoint pushes its weight. */
  method Sweep(endpoints: seq<TaskId>, runq_depends: Digraph, runq_revdeps: Digraph,
               weight0: seq<int>, deps_left0: seq<int>, task_done0: seq<bool>,
               ghost pushed0: Digraph, ghost rank0: map<TaskId, int>)
    returns (weight: seq<int>, deps_left: seq<int>, task_done: seq<bool>, next_points: seq<TaskId>,
             ghost pushed: Digraph, ghost rank: map<TaskId, int>)
    requires Wave(runq_depends, runq_revdeps, pushed0, weight0, deps_left0, task_done0, rank0)
    requires Queued(endpoints, {}, task_done0)
    requires Pushed(runq_depends, pushed0, task_done0, Elements(endpoints), 0, {})
    ensures Wave(runq_depends, runq_revdeps, pushed, weight, deps_left, task_done, rank)
    ensures Queued(next_points, {}, task_done)
    ensures Pushed(runq_depends, pushed, task_done, Elements(next_points), 0, {})
    ensures |rank| == |rank0| + |next_points|
  {
    weight, deps_left, task_done, next_points := weight0, deps_left0, task_done0, [];
    pushed, rank := pushed0, rank0;
    assert Elements(endpoints[0..]) + Elements(next_points) == Elements(endpoints);
    for e := 0 to |endpoints|
      invariant Wave(runq_depends, runq_revdeps, pushed, weight, deps_left, task_done, rank)
      invariant Queued(next_points, Elements(endpoints[e..]), task_done)
      invariant Pushed(runq_depends, pushed, task_done, Elements(endpoints[e..]) + Elements(next_points), 0, {})
      invariant |rank| == |rank0| + |next_points|
    {
      ghost var later := Elements(endpoints[e+1..]);
      assert endpoints[e..] == [endpoints[e]] + endpoints[e+1..];
      assert Elements(endpoints[e..]) == {endpoints[e]} + later;
      weight, deps_left, task_done, next_points, pushed, rank :=
        PushFrom(endpoints[e], runq_depends, runq_revdeps, weight, deps_left, task_done, next_points, later, pushed,
                 rank);
    }
    assert Elements(endpoints[|endpoints|..]) + Elements(next_points) == Elements(next_points);
  }

  method Unfinished(task_done: seq<bool>, deps_left: seq<int>) returns (problem_tasks: seq<TaskId>)
    requires |task_done| == |deps_left|
    ensures forall t :: t in problem_tasks <==> 0 <= t < |task_done| && (!task_done[t] || deps_left[t] != 0)
  {
    problem_tasks := [];
    for task := 0 to |task_done|
      invariant forall t :: t in problem_tasks <==> 0 <= t < task && (!task_done[t] || deps_left[t] != 0)
    {
      if !task_done[task] || deps_left[task] != 0 {
        problem_tasks := problem_tasks + [task];
      }
    }
  }

  lemma StartOfWave(g: Digraph, rev: Digraph, endpoints: seq<TaskId>, weight: seq<int>, task_done: seq<bool>,
                    pushed: Digraph, rank: map<TaskId, int>)
    requires Inverse(g, rev) && Distinct(endpoints)
    requires forall t :: t in endpoints <==> 0 <= t < |g| && rev[t] == {}
    requires |weight| == |task_done| == |pushed| == |g|
    requires forall t :: 0 <= t < |g| ==> weight[t] == if t in endpoints then 1 else 0
    requires forall t :: 0 <= t < |g| ==> task_done[t] == (t in endpoints)
    requires forall t :: 0 <= t < |g| ==> pushed[t] == {}
    requires rank == map t | t in endpoints :: 0
    ensures Edges(g, rev, pushed, task_done) && Sums(rev, pushed, weight) && Ranked(rev, task_done, rank)
    ensures Pushed(g, pushed, task_done, Elements(endpoints), 0, {})
  {
    forall t | 0 <= t < |g|
      ensures Sum(weight, pushed[t], |g|) == 0
    {
      SumOfNone(weight, pushed[t], |g|);
    }
    forall t | t in rank ensures rank[t] < |rank| {
      assert rank.Keys != {};
    }
  }

  lemma Conclude(g: Digraph, rev: Digraph, pushed: Digraph, weight: seq<int>, deps_left: seq<int>, task_done: seq<bool>,
                 rank: map<TaskId, int>, problem_tasks: seq<TaskId>)
    requires Wave(g, rev, pushed, weight, deps_left, task_done, rank)
    requires Pushed(g, pushed, task_done, Elements([]), 0, {})
    requires forall t :: t in problem_tasks <==> 0 <= t < |task_done| && (!task_done[t] || deps_left[t] != 0)
    ensures forall t :: t in problem_tasks <==> 0 <= t < |g| && OnOrBelowCycle(g, t)
    ensures problem_tasks != [] <==> Cyclic(g)
    ensures problem_tasks == [] ==> WeightsAdd(rev, weight) && forall t :: 0 <= t < |weight| ==> weight[t] >= 1
  {
    assert Elements<TaskId>([]) == {};
    forall t | 0 <= t < |g|
      ensures t !in problem_tasks ==> task_done[t]
      ensures !task_done[t] || deps_left[t] != 0 <==> OnOrBelowCycle(g, t)
    {
      if !task_done[t] {
        UndoneIsBelowCycle(g, rev, pushed, task_done, t);
      } else if OnOrBelowCycle(g, t) {
        DoneIsNotBelowCycle(g, rev, task_done, rank, t);
      }
    }
    if Cyclic(g) {
      CycleIsOnCycle(g);
    }
    if problem_tasks != [] {
      var t := problem_tasks[0];
      assert t in problem_tasks;
      var c :| IsCycle(g, c) && Reaches(g, c[0], t);
    } else {
      forall t | 0 <= t < |g| ensures task_done[t] {
        assert t !in problem_tasks;
      }
      WeightsFinal(g, rev, pushed, weight, task_done, rank);
    }
  }

  /** calculate_task_weights up to its report: problem_tasks are the tasks the
      wave never finished.  It ends on every graph; nothing is assumed about cycles. */
  method CalculateTaskWeights(runq_depends: Digraph, runq_revdeps: Digraph, initial: seq<TaskId>)
    returns (weight: seq<int>, problem_tasks: seq<TaskId>)
    requires Inverse(runq_depends, runq_revdeps)
    requires Distinct(initial)
    requires forall t :: t in initial <==> 0 <= t < |runq_depends| && runq_revdeps[t] == {}
    ensures |weight| == |runq_depends|
    ensures forall t :: t in problem_tasks <==> 0 <= t < |runq_depends| && OnOrBelowCycle(runq_depends, t)
    ensures problem_tasks != [] <==> Cyclic(runq_depends)
    ensures problem_tasks == [] ==> WeightsAdd(runq_revdeps, weight) && forall t :: 0 <= t < |weight| ==> weight[t] >= 1
  {
    hide Pushed, Edges, Cyclic, OnOrBelowCycle, WeightsAdd;
    var numTasks := |runq_depends|;
    var endpoints: seq<TaskId> := initial;
    weight := seq(numTasks, i => 0);
    var deps_left: seq<int> := seq(numTasks, i requires 0 <= i < |runq_revdeps| => |runq_revdeps[i]|);
    var task_done := seq(numTasks, i => false);
    for k := 0 to |endpoints|
      invariant |weight| == |task_done| == numTasks
      invariant forall t :: 0 <= t < numTasks ==> weight[t] == if t in endpoints[..k] then 1 else 0
      invariant forall t :: 0 <= t < numTasks ==> task_done[t] == (t in endpoints[..k])
    {
      assert endpoints[k] in initial;
      assert endpoints[..k+1] == endpoints[..k] + [endpoints[k]];
      weight := weight[endpoints[k] := 1];
      task_done := task_done[endpoints[k] := true];
    }
    assert endpoints[..|endpoints|] == endpoints == initial;
    ghost var pushed: Digraph := seq(numTasks, i => {});
    ghost var rank: map<TaskId, int> := map t | t in initial :: 0;
    StartOfWave(runq_depends, runq_revdeps, initial, weight, task_done, pushed, rank);

    while true
      invariant Wave(runq_depends, runq_revdeps, pushed, weight, deps_left, task_done, rank)
      invariant Queued(endpoints, {}, task_done)
      invariant Pushed(runq_depends, pushed, task_done, Elements(endpoints), 0, {})
      decreases numTasks - |rank|
    {
      AtMostAllTasks(runq_revdeps, task_done, rank);
      weight, deps_left, task_done, endpoints, pushed, rank :=
        Sweep(endpoints, runq_depends, runq_revdeps, weight, deps_left, task_done, pushed, rank);
      if |endpoints| == 0 {
        break;
      }
    }

    problem_tasks := Unfinished(task_done, deps_left);
    Conclude(runq_depends, runq_revdeps, pushed, weight, deps_left, task_done, rank, problem_tasks);
  }
}
