/** Runs of the task queue as event traces: what the order of events must
obey, and what that says about a whole run. */
module RunTrace {
  import opened Collections
  import opened Graph
  import opened TaskWeights

  datatype Event =
    | Skipped(task: TaskId)    // its stamp was current
    | Started(task: TaskId)    // a child process was forked
    | Succeeded(task: TaskId)  // waitpid reported status 0
    | Failed(task: TaskId)     // waitpid reported another status

  /** How far a run has come. */
  datatype Progress = Progress(begun: set<TaskId>, skipped: set<TaskId>, complete: set<TaskId>, failed: set<TaskId>) {

    /** The tasks whose child process runs. */
    function Live(): set<TaskId> {
      begun - complete - failed
    }

    function After(e: Event): Progress {
      match e
      case Skipped(t) => this.(begun := begun + {t}, skipped := skipped + {t}, complete := complete + {t})
      case Started(t) => this.(begun := begun + {t})
      case Succeeded(t) => this.(complete := complete + {t})
      case Failed(t) => this.(failed := failed + {t})
    }

    ghost predicate Ready(g: Digraph, t: TaskId) {
      0 <= t < |g| && t !in begun && g[t] <= complete
    }

    ghost predicate Allows(g: Digraph, number_tasks: int, e: Event) {
      match e
      case Skipped(t) => Ready(g, t)
      case Started(t) => Ready(g, t) && |Live()| < Slots(number_tasks)
      case Succeeded(t) => t in Live()
      case Failed(t) => t in Live()
    }

    /** Each begun task is complete, failed or live, never two of these, at
        most Slots children are live, and what has begun rests on complete tasks. */
    ghost predicate Accounted(g: Digraph, number_tasks: int) {
      && skipped <= complete
      && complete + failed <= begun <= Below(|g|)
      && complete !! failed
      && |Live()| <= Slots(number_tasks)
      && (forall t :: t in begun ==> g[t] <= complete)
    }

    ghost predicate DependsOnFailed(g: Digraph, t: TaskId) {
      exists f :: f in failed && f != t && Reaches(g, t, f)
    }

    /** Nothing is ready and no child runs. */
    ghost predicate Quiet(g: Digraph) {
      Live() == {} && forall t :: 0 <= t < |g| ==> !Ready(g, t)
    }
  }

  function Slots(number_tasks: int): int {
    if number_tasks < 1 then 1 else number_tasks
  }

  function Summary(tr: seq<Event>): Progress {
    if tr == [] then Progress({}, {}, {}, {}) else Summary(tr[..|tr|-1]).After(tr[|tr|-1])
  }

  /** Every event was allowed by what had happened before it. */
  ghost predicate Legal(g: Digraph, number_tasks: int, tr: seq<Event>) {
    tr == [] ||
    (Legal(g, number_tasks, tr[..|tr|-1]) && Summary(tr[..|tr|-1]).Allows(g, number_tasks, tr[|tr|-1]))
  }

  lemma LegalAppend(g: Digraph, number_tasks: int, tr: seq<Event>, e: Event)
    requires Legal(g, number_tasks, tr)
    ensures Summary(tr + [e]) == Summary(tr).After(e)
    ensures Legal(g, number_tasks, tr + [e]) <==> Summary(tr).Allows(g, number_tasks, e)
  {
    assert (tr + [e])[..|tr|] == tr;
  }

  lemma {:induction false} LegalIsAccounted(g: Digraph, number_tasks: int, tr: seq<Event>)
    requires Legal(g, number_tasks, tr)
    ensures Summary(tr).Accounted(g, number_tasks)
  {
    if tr != [] {
      LegalIsAccounted(g, number_tasks, tr[..|tr|-1]);
      AccountNext(g, number_tasks, Summary(tr[..|tr|-1]), tr[|tr|-1]);
    }
  }

  lemma LiveNext(p: Progress, e: Event)
    requires p.complete + p.failed <= p.begun
    requires e.Skipped? || e.Started? ==> e.task !in p.begun
    requires e.Succeeded? || e.Failed? ==> e.task in p.Live()
    ensures p.After(e).Live() ==
      if e.Skipped? then p.Live() else if e.Started? then p.Live() + {e.task} else p.Live() - {e.task}
    ensures |p.After(e).Live()| == |p.Live()| + if e.Skipped? then 0 else if e.Started? then 1 else -1
  {
    LiveAfter(p, e);
    assert e.Started? ==> e.task !in p.Live();
    hide Progress.After, Progress.Live;
    if e.Succeeded? || e.Failed? {
      OneLess(p.Live(), e.task);
    }
  }

  lemma LiveAfter(p: Progress, e: Event)
    requires p.complete + p.failed <= p.begun && (e.Skipped? || e.Started? ==> e.task !in p.begun)
    ensures p.After(e).Live() ==
      if e.Skipped? then p.Live() else if e.Started? then p.Live() + {e.task} else p.Live() - {e.task}
  {
  }

  lemma OneLess(live: set<TaskId>, t: TaskId)
    requires t in live
    ensures |live - {t}| == |live| - 1
  {
  }

  lemma LiveFits(g: Digraph, number_tasks: int, p: Progress, e: Event)
    requires p.Accounted(g, number_tasks) && p.Allows(g, number_tasks, e)
    ensures |p.After(e).Live()| <= Slots(number_tasks)
  {
    LiveNext(p, e);
    hide Progress.Live, Progress.After;
  }

  lemma InBelow(t: TaskId, n: nat)
    requires 0 <= t < n
    ensures t in Below(n)
  {
  }

  lemma AccountBegin(g: Digraph, number_tasks: int, p: Progress, e: Event)
    requires p.Accounted(g, number_tasks) && p.Allows(g, number_tasks, e) && (e.Skipped? || e.Started?)
    ensures p.After(e).Accounted(g, number_tasks)
  {
    hide Below, Progress.Live;
    LiveFits(g, number_tasks, p, e);
    InBelow(e.task, |g|);
  }

  lemma AccountEnd(g: Digraph, number_tasks: int, p: Progress, e: Event)
    requires p.Accounted(g, number_tasks) && p.Allows(g, number_tasks, e) && (e.Succeeded? || e.Failed?)
    ensures p.After(e).Accounted(g, number_tasks)
  {
    LiveFits(g, number_tasks, p, e);
  }

  lemma AccountNext(g: Digraph, number_tasks: int, p: Progress, e: Event)
    requires p.Accounted(g, number_tasks) && p.Allows(g, number_tasks, e)
    ensures p.After(e).Accounted(g, number_tasks)
  {
    hide Progress.Accounted, Progress.Allows, Progress.After;
    if e.Skipped? || e.Started? {
      AccountBegin(g, number_tasks, p, e);
    } else {
      AccountEnd(g, number_tasks, p, e);
    }
  }

  /** Tasks completed, failed and active always add up to the tasks begun. */
  lemma NoTaskIsLost(g: Digraph, number_tasks: int, now: Progress)
    requires now.Accounted(g, number_tasks)
    ensures |now.complete| + |now.failed| + |now.Live()| == |now.begun|
  {
    assert now.begun == now.complete + now.failed + now.Live();
    assert |now.complete + now.failed| == |now.complete| + |now.failed|;
  }

  ghost predicate Begins(e: Event, t: TaskId) {
    (e.Started? || e.Skipped?) && e.task == t
  }

  ghost predicate Completes(e: Event, t: TaskId) {
    (e.Succeeded? || e.Skipped?) && e.task == t
  }

  lemma {:induction false} SummaryRecords(tr: seq<Event>, t: TaskId)
    ensures t in Summary(tr).begun <==> exists k :: 0 <= k < |tr| && Begins(tr[k], t)
    ensures t in Summary(tr).complete <==> exists k :: 0 <= k < |tr| && Completes(tr[k], t)
    ensures t in Summary(tr).skipped <==> Skipped(t) in tr
    ensures t in Summary(tr).failed <==> Failed(t) in tr
  {
    if tr != [] {
      var init, last := tr[..|tr|-1], tr[|tr|-1];
      SummaryRecords(init, t);
      RecordsMore(init, last, t);
      assert tr == init + [last];
    }
  }

  lemma RecordsMore(init: seq<Event>, last: Event, t: TaskId)
    ensures var tr := init + [last];
      && ((exists k :: 0 <= k < |tr| && Begins(tr[k], t)) <==>
          Begins(last, t) || exists k :: 0 <= k < |init| && Begins(init[k], t))
      && ((exists k :: 0 <= k < |tr| && Completes(tr[k], t)) <==>
          Completes(last, t) || exists k :: 0 <= k < |init| && Completes(init[k], t))
  {
    var tr := init + [last];
    assert tr[|init|] == last && forall k :: 0 <= k < |init| ==> tr[k] == init[k];
  }

  lemma {:induction false} LegalPrefix(g: Digraph, number_tasks: int, tr: seq<Event>, n: nat)
    requires Legal(g, number_tasks, tr) && n <= |tr|
    ensures Legal(g, number_tasks, tr[..n])
    ensures n < |tr| ==> Summary(tr[..n]).Allows(g, number_tasks, tr[n])
  {
    if n < |tr| {
      LegalPrefix(g, number_tasks, tr[..|tr|-1], n);
      assert tr[..|tr|-1][..n] == tr[..n];
    } else {
      assert tr[..n] == tr;
    }
  }

  /** What every start and skip in a legal run can rely on, by position in the
      trace: its dependencies completed earlier, it begins only once, and no
      more children are live at any moment than the setting allows, or one. */
  lemma StartsAreSafe(g: Digraph, number_tasks: int, tr: seq<Event>, i: nat, t: TaskId)
    requires Legal(g, number_tasks, tr) && i < |tr| && Begins(tr[i], t)
    ensures 0 <= t < |g|
    ensures forall d :: d in g[t] ==> exists k :: 0 <= k < i && Completes(tr[k], d)
    ensures forall k :: 0 <= k < |tr| && k != i ==> !Begins(tr[k], t)
    ensures |Summary(tr[..i+1]).Live()| <= 1 || |Summary(tr[..i+1]).Live()| <= number_tasks
  {
    LegalPrefix(g, number_tasks, tr, i);
    LegalPrefix(g, number_tasks, tr, i + 1);
    hide Legal, Summary;
    LegalIsAccounted(g, number_tasks, tr[..i+1]);
    forall d | d in g[t]
      ensures exists k :: 0 <= k < i && Completes(tr[k], d)
    {
      SummaryRecords(tr[..i], d);
      var k :| 0 <= k < i && Completes(tr[..i][k], d);
      assert Completes(tr[k], d);
    }
    forall k | 0 <= k < |tr| && k != i
      ensures !Begins(tr[k], t)
    {
      BeginsOnce(g, number_tasks, tr, if k < i then k else i, if k < i then i else k, t);
    }
  }

  lemma BeginsOnce(g: Digraph, number_tasks: int, tr: seq<Event>, lo: nat, hi: nat, t: TaskId)
    requires Legal(g, number_tasks, tr) && lo < hi < |tr|
    ensures !(Begins(tr[lo], t) && Begins(tr[hi], t))
  {
    LegalPrefix(g, number_tasks, tr, hi);
    SummaryRecords(tr[..hi], t);
    assert tr[..hi][lo] == tr[lo];
  }

  /** Once a task has begun, everything it transitively depends on is complete. */
  lemma {:induction false} BegunRestsOnComplete(g: Digraph, number_tasks: int, now: Progress, p: seq<TaskId>, k: nat)
    requires now.Accounted(g, number_tasks) && IsPath(g, p) && p[0] in now.begun && 0 < k < |p|
    ensures p[k] in now.complete
  {
    assert p[k-1+1] in g[p[k-1]];
    if k > 1 {
      BegunRestsOnComplete(g, number_tasks, now, p, k - 1);
    }
  }

  /** When a run on an acyclic graph comes to rest, the tasks that never began
      are exactly those that transitively depend on a failed task. */
  lemma UnrunExactlyBelowFailures(g: Digraph, number_tasks: int, now: Progress, t: TaskId)
    requires WellFormed(g) && !Cyclic(g)
    requires now.Accounted(g, number_tasks) && now.Quiet(g) && 0 <= t < |g|
    ensures t !in now.begun <==> now.DependsOnFailed(g, t)
  {
    if t in now.begun && now.DependsOnFailed(g, t) {
      var f :| f in now.failed && f != t && Reaches(g, t, f);
      var p :| PathBetween(g, p, t, f);
      BegunRestsOnComplete(g, number_tasks, now, p, |p| - 1);
      assert false;
    }
    if t !in now.begun && !now.DependsOnFailed(g, t) {
      var stuck := set u | u in Below(|g|) - now.begun && !now.DependsOnFailed(g, u);
      forall u | u in stuck
        ensures DependsInto(g, stuck, u)
      {
        assert !now.Ready(g, u);
        var d := Outside(g[u], now.complete);
        StuckDependency(g, number_tasks, now, u, d);
        assert d in stuck;
      }
      EndlessDescentIsCyclic(g, stuck, t);
    }
  }

  lemma StuckDependency(g: Digraph, number_tasks: int, now: Progress, u: TaskId, d: TaskId)
    requires WellFormed(g) && 0 <= u < |g| && d in g[u] && d !in now.complete
    requires now.Accounted(g, number_tasks) && u !in now.begun && now.Live() == {}
    requires !now.DependsOnFailed(g, u)
    ensures d !in now.begun && !now.DependsOnFailed(g, d)
  {
    ReachesSelf(g, d);
    ReachesFirst(g, u, d, d);
    if d in now.begun {
      assert false;
    }
    if now.DependsOnFailed(g, d) {
      var f :| f in now.failed && f != d && Reaches(g, d, f);
      ReachesFirst(g, u, d, f);
      assert false;
    }
  }

  // --- which task begins, and when ---

  /** t is ready, and no ready task stands before it in the priority map. */
  ghost predicate FirstReady(g: Digraph, prio: seq<TaskId>, p: Progress, t: TaskId) {
    p.Ready(g, t) &&
    exists k :: 0 <= k < |prio| && prio[k] == t && forall j :: 0 <= j < k ==> !p.Ready(g, prio[j])
  }

  /** Every task that began was the first ready one of the map at its time. */
  ghost predicate ByPriority(g: Digraph, prio: seq<TaskId>, tr: seq<Event>) {
    forall i, t :: 0 <= i < |tr| && Begins(tr[i], t) ==> FirstReady(g, prio, Summary(tr[..i]), t)
  }

  lemma ByPriorityAppend(g: Digraph, prio: seq<TaskId>, tr: seq<Event>, e: Event)
    requires ByPriority(g, prio, tr)
    requires e.Started? || e.Skipped? ==> FirstReady(g, prio, Summary(tr), e.task)
    ensures ByPriority(g, prio, tr + [e])
  {
    var all := tr + [e];
    forall i, t | 0 <= i < |all| && Begins(all[i], t) ensures FirstReady(g, prio, Summary(all[..i]), t) {
      if i < |tr| {
        assert all[..i] == tr[..i] && all[i] == tr[i];
      } else {
        assert all[..i] == tr;
      }
    }
  }

  ghost predicate Ends(e: Event) {
    e.Succeeded? || e.Failed?
  }

  /** The run waited for a child only when all slots were taken or no task was ready. */
  ghost predicate WaitsOnlyIfBusy(g: Digraph, number_tasks: int, tr: seq<Event>) {
    forall i :: 0 <= i < |tr| && Ends(tr[i]) ==>
      |Summary(tr[..i]).Live()| >= number_tasks || forall t :: 0 <= t < |g| ==> !Summary(tr[..i]).Ready(g, t)
  }

  lemma WaitsAppend(g: Digraph, number_tasks: int, tr: seq<Event>, e: Event)
    requires WaitsOnlyIfBusy(g, number_tasks, tr)
    requires Ends(e) ==>
      |Summary(tr).Live()| >= number_tasks || forall t :: 0 <= t < |g| ==> !Summary(tr).Ready(g, t)
    ensures WaitsOnlyIfBusy(g, number_tasks, tr + [e])
  {
    var all := tr + [e];
    forall i | 0 <= i < |all| && Ends(all[i])
      ensures |Summary(all[..i]).Live()| >= number_tasks || forall t :: 0 <= t < |g| ==> !Summary(all[..i]).Ready(g, t)
    {
      if i < |tr| {
        assert all[..i] == tr[..i] && all[i] == tr[i];
      } else {
        assert all[..i] == tr;
      }
    }
  }

  /** No task began after a failure. */
  ghost predicate StopsAfterFailure(tr: seq<Event>) {
    forall i, j :: 0 <= i < j < |tr| && tr[i].Failed? ==> Ends(tr[j])
  }

  lemma StopsAppend(tr: seq<Event>, e: Event)
    requires StopsAfterFailure(tr) && (Ends(e) || Summary(tr).failed == {})
    ensures StopsAfterFailure(tr + [e])
  {
    if !Ends(e) {
      forall i | 0 <= i < |tr| ensures !tr[i].Failed? {
        if tr[i].Failed? {
          SummaryRecords(tr, tr[i].task);
        }
      }
    }
  }
}
