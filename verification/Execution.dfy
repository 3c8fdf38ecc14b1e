/** The RunQueue class during execution: a loop that runs the prepared queue
with a bounded number of child processes.

The queue itself does not change any more, so its parts are constants here.
fork, waitpid, the clock and the children's stamp files belong to the world
outside: each call to ForkChild and WaitPid may answer anything its contract
allows, and what is proved holds for all such answers. */
module Execution {
  import opened Collections
  import opened Graph
  import opened TaskWeights
  import opened Schedulers
  import opened RunTrace
  import opened Rebuild
  import opened RunQueues

  /** build_pids as a bijection between child pids and live tasks. */
  ghost predicate Children(build_pids: map<int, TaskId>, live: set<TaskId>) {
    && (forall pid :: pid in build_pids ==> build_pids[pid] in live)
    && (forall t :: t in live ==> exists pid :: pid in build_pids && build_pids[pid] == t)
    && (forall a, b :: a in build_pids && b in build_pids && build_pids[a] == build_pids[b] ==> a == b)
  }

  /** The run flags, as the sets of begun and complete tasks determine them. */
  ghost predicate Flags(g: Digraph, begun: set<TaskId>, done: set<TaskId>,
                        buildable: seq<bool>, running: seq<bool>, complete: seq<bool>)
  {
    && |buildable| == |running| == |complete| == |g|
    && (forall t :: 0 <= t < |g| ==> (running[t] <==> t in begun))
    && (forall t :: 0 <= t < |g| ==> (complete[t] <==> t in done))
    && (forall t :: 0 <= t < |g| ==> (buildable[t] <==> g[t] <= done))
  }

  /** failed_fnids names exactly the files of the failed tasks. */
  ghost predicate FailedFiles(fnid: seq<int>, failed: set<TaskId>, failed_fnids: seq<int>) {
    && (forall t :: t in failed ==> 0 <= t < |fnid| && fnid[t] in failed_fnids)
    && (forall f :: f in failed_fnids ==> exists t :: t in failed && 0 <= t < |fnid| && fnid[t] == f)
  }

  lemma ChildForked(build_pids: map<int, TaskId>, live: set<TaskId>, pid: int, t: TaskId)
    requires Children(build_pids, live) && pid !in build_pids && t !in live
    ensures Children(build_pids[pid := t], live + {t})
  {
    var after := build_pids[pid := t];
    forall u | u in live + {t}
      ensures exists p :: p in after && after[p] == u
    {
      if u == t {
        assert after[pid] == u;
      } else {
        var p :| p in build_pids && build_pids[p] == u;
        assert after[p] == u;
      }
    }
  }

  lemma ChildReaped(build_pids: map<int, TaskId>, live: set<TaskId>, pid: int)
    requires Children(build_pids, live) && pid in build_pids
    ensures Children(build_pids - {pid}, live - {build_pids[pid]})
  {
    var after := build_pids - {pid};
    forall u | u in live - {build_pids[pid]}
      ensures exists p :: p in after && after[p] == u
    {
      var p :| p in build_pids && build_pids[p] == u;
      assert after[p] == u;
    }
  }

  lemma ChildIsLive(build_pids: map<int, TaskId>, live: set<TaskId>, pid: int)
    requires Children(build_pids, live) && pid in build_pids
    ensures build_pids[pid] in live
  {
  }

  lemma FileFailed(fnid: seq<int>, failed: set<TaskId>, failed_fnids: seq<int>, t: TaskId)
    requires FailedFiles(fnid, failed, failed_fnids) && 0 <= t < |fnid|
    ensures FailedFiles(fnid, failed + {t}, failed_fnids + [fnid[t]])
  {
    forall f | f in failed_fnids + [fnid[t]]
      ensures exists u :: u in failed + {t} && 0 <= u < |fnid| && fnid[u] == f
    {
      if f in failed_fnids {
        var u :| u in failed && 0 <= u < |fnid| && fnid[u] == f;
        assert u in failed + {t};
      } else {
        assert t in failed + {t};
      }
    }
  }

  /** Every file of the queue has a stamp prefix and a nostamp entry. */
  ghost predicate StampTables(fnid: seq<int>, task: seq<string>, stamp: seq<string>, nostamp: seq<set<string>>) {
    && |task| == |fnid| && |stamp| == |nostamp|
    && (forall t :: 0 <= t < |fnid| ==> 0 <= fnid[t] < |stamp|)
  }

  /** The stamp-relevant view of a queue: "%s.%s" % (stamp, taskname). */
  function MakeQueue(depends: Digraph, fnid: seq<int>, task: seq<string>, stamp: seq<string>, nostamp: seq<set<string>>,
                     policy: string, whitelist: seq<int>): Queue
    requires StampTables(fnid, task, stamp, nostamp)
  {
    Queue(depends, fnid,
          seq(|fnid|, t requires 0 <= t < |fnid| => stamp[fnid[t]] + "." + task[t]),
          seq(|fnid|, t requires 0 <= t < |fnid| => task[t] in nostamp[fnid[t]]),
          policy, whitelist)
  }

  lemma AllComplete(deps: set<TaskId>, complete: seq<bool>, done: set<TaskId>)
    requires forall d :: d in deps ==> 0 <= d < |complete| && (complete[d] <==> d in done)
    ensures (forall d :: d in deps ==> complete[d]) <==> deps <= done
  {
    if !(deps <= done) {
      var d := Outside(deps, done);
      assert !complete[d];
    }
  }

  /** The loop of task_complete over the reverse dependencies of a task. */
  method MarkBuildable(runq_depends: Digraph, runq_revdeps: Digraph, buildable0: seq<bool>, running: seq<bool>,
                       complete: seq<bool>, task: TaskId, ghost begun: set<TaskId>, ghost done: set<TaskId>)
    returns (buildable: seq<bool>)
    requires Inverse(runq_depends, runq_revdeps) && 0 <= task < |runq_depends| == |complete|
    requires Flags(runq_depends, begun, done, buildable0, running, complete[task := task in done])
    requires complete[task] && forall t :: 0 <= t < |runq_depends| && t in begun ==> runq_depends[t] <= done
    ensures Flags(runq_depends, begun, done + {task}, buildable, running, complete)
  {
    buildable := buildable0;
    var rest := runq_revdeps[task];
    while rest != {}
      invariant rest <= runq_revdeps[task] && |buildable| == |runq_depends|
      invariant forall t :: 0 <= t < |runq_depends| && t in rest ==> (buildable[t] <==> runq_depends[t] <= done)
      invariant forall t :: 0 <= t < |runq_depends| && t !in rest ==>
        (buildable[t] <==> runq_depends[t] <= done + {task})
    {
      ghost var some := Member(rest);
      var revdep :| revdep in rest;
      rest := rest - {revdep};
      if running[revdep] {
        continue;
      }
      if buildable[revdep] {
        continue;
      }
      var alldeps := forall dep :: dep in runq_depends[revdep] ==> complete[dep];
      AllComplete(runq_depends[revdep], complete, done + {task});
      if alldeps {
        buildable := buildable[revdep := true];
      }
    }
  }

  /** The considered dependencies among deps have stamps no newer than t1. */
  ghost predicate StampsNotNewer(q: Queue, disk: Disk, t: TaskId, deps: set<TaskId>, t1: int)
    requires Sound(q) && 0 <= t < |q.depends| && deps <= q.depends[t]
  {
    forall d :: d in deps && Considers(q, t, d) ==> q.stampfile[d] in disk && disk[q.stampfile[d]] <= t1
  }

  /** Lines 869-875. */
  method InitialFlags(runq_depends: Digraph) returns (buildable: seq<bool>, running: seq<bool>, complete: seq<bool>)
    ensures Flags(runq_depends, {}, {}, buildable, running, complete)
  {
    buildable, running, complete := [], [], [];
    for task := 0 to |runq_depends|
      invariant |buildable| == |running| == |complete| == task
      invariant forall t :: 0 <= t < task ==> !running[t] && !complete[t]
      invariant forall t :: 0 <= t < task ==> (buildable[t] <==> runq_depends[t] == {})
    {
      running := running + [false];
      complete := complete + [false];
      buildable := buildable + [|runq_depends[task]| == 0];
    }
  }

  /** The run so far, the stamp files it found, when it began and when each
      task was forked. */
  datatype History = History(trace: seq<Event>, stamps0: Disk, start: int, forked: map<TaskId, int>) {
    function Progress(): Progress {
      Summary(trace)
    }

    function With(e: Event): History {
      this.(trace := trace + [e])
    }
  }

  /** The executor's variables for children, statistics and failures, and the stamp
      files and the clock it finds. */
  datatype Ledger = Ledger(build_pids: map<int, TaskId>, active_builds: int, skipped: int, failed: int,
                           failed_fnids: seq<int>, stamps: Disk, now: int)

  /** The history is legal, and the ledger is as it determines. */
  ghost predicate Books(q: Queue, number_tasks: int, l: Ledger, h: History) {
    var p := h.Progress();
    && Sound(q)
    && Legal(q.depends, number_tasks, h.trace)
    && p.Accounted(q.depends, number_tasks)
    && Children(l.build_pids, p.Live())
    && l.active_builds == |p.Live()|
    && l.skipped == |p.skipped| && l.failed == |p.failed|
    && FailedFiles(q.fnid, p.failed, l.failed_fnids)
    && Stamped(q, h.stamps0, h.start, p, l.stamps, l.now, h.forked)
  }

  lemma OpenBooks(q: Queue, number_tasks: int, disk: Disk, now: int)
    requires Sound(q) && StampsUpTo(q, disk, now)
    ensures Books(q, number_tasks, Ledger(map[], 0, 0, 0, [], disk, now), History([], disk, now, map[]))
    ensures Summary([]) == Progress({}, {}, {}, {})
  {
    assert Summary([]).Live() == {};
    assert Effect(q, disk, now, Summary([]), disk);
  }

  /** One more event in the history. */
  lemma NextEvent(q: Queue, number_tasks: int, l: Ledger, h: History, e: Event)
    requires Books(q, number_tasks, l, h) && h.Progress().Allows(q.depends, number_tasks, e)
    ensures h.With(e).Progress() == h.Progress().After(e)
    ensures Legal(q.depends, number_tasks, h.With(e).trace) && h.Progress().After(e).Accounted(q.depends, number_tasks)
    ensures h.Progress().After(e).Live() ==
      if e.Skipped? then h.Progress().Live()
      else if e.Started? then h.Progress().Live() + {e.task}
      else h.Progress().Live() - {e.task}
    ensures |h.Progress().After(e).Live()| == |h.Progress().Live()| +
      if e.Skipped? then 0 else if e.Started? then 1 else -1
  {
    LegalAppend(q.depends, number_tasks, h.trace, e);
    hide Progress.After, Summary, Legal;
    AccountNext(q.depends, number_tasks, h.Progress(), e);
    LiveNext(h.Progress(), e);
  }

  lemma BookSkip(q: Queue, number_tasks: int, l: Ledger, h: History, t: TaskId)
    requires Books(q, number_tasks, l, h)
    requires h.Progress().Ready(q.depends, t) && Current(q, l.stamps, t)
    ensures var p := h.Progress();
      && Books(q, number_tasks, l.(skipped := l.skipped + 1), h.With(Skipped(t)))
      && h.With(Skipped(t)).Progress() == p.After(Skipped(t))
  {
    hide Summary, Legal, Current, Stamped, Children, FailedFiles;
    NextEvent(q, number_tasks, l, h, Skipped(t));
    SkipKeepsStamps(q, h.stamps0, h.start, number_tasks, h.Progress(), l.stamps, l.now, h.forked, t);
  }

  /** A task that is ready or runs is not complete yet, and what has begun rests on
      complete tasks. */
  lemma OneMoreComplete(q: Queue, number_tasks: int, l: Ledger, h: History, t: TaskId)
    requires Books(q, number_tasks, l, h) && (h.Progress().Ready(q.depends, t) || t in h.Progress().Live())
    ensures var p := h.Progress();
      && |p.complete + {t}| == |p.complete| + 1
      && forall u :: 0 <= u < |q.depends| && u in p.begun + {t} ==> q.depends[u] <= p.complete
  {
    hide Summary, Legal, Stamped, Children;
  }

  lemma SlotFree(q: Queue, number_tasks: int, l: Ledger, h: History)
    requires Books(q, number_tasks, l, h)
    ensures l.active_builds == |h.Progress().Live()| <= Slots(number_tasks)
  {
  }

  lemma BooksBound(q: Queue, number_tasks: int, l: Ledger, h: History)
    requires Books(q, number_tasks, l, h)
    ensures var p := h.Progress();
      && 0 <= l.active_builds == |p.Live()| <= Slots(number_tasks)
      && |p.begun| <= |q.depends| && p.Accounted(q.depends, number_tasks)
      && (l.active_builds == 0 ==> p.Live() == {})
  {
    SubsetCard(h.Progress().begun, Below(|q.depends|));
  }

  lemma FailedFileHasTask(fnid: seq<int>, failed: set<TaskId>, failed_fnids: seq<int>)
    requires FailedFiles(fnid, failed, failed_fnids) && failed_fnids != []
    ensures failed != {}
  {
    assert failed_fnids[0] in failed_fnids;
    var t :| t in failed && 0 <= t < |fnid| && fnid[t] == failed_fnids[0];
  }

  /** A finished run without failed files has completed every task. */
  lemma FailuresMean(q: Queue, number_tasks: int, l: Ledger, h: History)
    requires Books(q, number_tasks, l, h) && !Cyclic(q.depends)
    requires h.Progress().Live() == {} && (h.Progress().Quiet(q.depends) || h.Progress().failed != {})
    ensures FailedFiles(q.fnid, h.Progress().failed, l.failed_fnids)
    ensures l.failed_fnids == [] <==> forall t :: 0 <= t < |q.depends| ==> t in h.Progress().complete
  {
    hide Summary, Legal;
    var p := h.Progress();
    if l.failed_fnids != [] {
      FailedFileHasTask(q.fnid, p.failed, l.failed_fnids);
    }
    if p.failed != {} {
      var t := Member(p.failed);
      assert q.fnid[t] in l.failed_fnids;
      assert t in Below(|q.depends|);
    } else {
      forall t | 0 <= t < |q.depends|
        ensures t in p.complete
      {
        UnrunExactlyBelowFailures(q.depends, number_tasks, p, t);
        assert !p.DependsOnFailed(q.depends, t);
        assert t in p.begun && t !in p.Live();
      }
    }
  }

  lemma BookFork(q: Queue, number_tasks: int, l: Ledger, h: History, t: TaskId, pid: int, now: int)
    requires Books(q, number_tasks, l, h)
    requires h.Progress().Ready(q.depends, t) && !Current(q, l.stamps, t) && l.active_builds < Slots(number_tasks)
    requires pid !in l.build_pids && l.now <= now
    ensures h.With(Started(t)).Progress() == h.Progress().After(Started(t))
    ensures Books(q, number_tasks, l.(build_pids := l.build_pids[pid := t], active_builds := l.active_builds + 1,
                                      now := now),
                  h.With(Started(t)).(forked := h.forked[t := now]))
  {
    hide Summary, Legal, Current, Stamped, Children, FailedFiles;
    NextEvent(q, number_tasks, l, h, Started(t));
    ChildForked(l.build_pids, h.Progress().Live(), pid, t);
    ForkKeepsStamps(q, h.stamps0, h.start, number_tasks, h.Progress(), l.stamps, l.now, now, h.forked, t);
  }

  lemma BookFailure(q: Queue, number_tasks: int, l: Ledger, h: History, pid: int, now: int)
    requires Books(q, number_tasks, l, h) && pid in l.build_pids && l.now <= now
    ensures var t := l.build_pids[pid];
      && t in h.Progress().Live() && 0 <= t < |q.fnid|
      && h.With(Failed(t)).Progress() == h.Progress().After(Failed(t))
      && Books(q, number_tasks, Ledger(l.build_pids - {pid}, l.active_builds - 1, l.skipped, l.failed + 1,
                                       l.failed_fnids + [q.fnid[t]], l.stamps, now), h.With(Failed(t)))
  {
    hide Summary, Legal, Stamped, AfterSuccess, Children, FailedFiles;
    var t := l.build_pids[pid];
    ChildIsLive(l.build_pids, h.Progress().Live(), pid);
    NextEvent(q, number_tasks, l, h, Failed(t));
    ChildReaped(l.build_pids, h.Progress().Live(), pid);
    FileFailed(q.fnid, h.Progress().failed, l.failed_fnids, t);
    FailureKeepsStamps(q, h.stamps0, h.start, number_tasks, h.Progress(), l.stamps, l.now, now, h.forked, t);
  }

  lemma BookSuccess(q: Queue, number_tasks: int, l: Ledger, h: History, pid: int, now: int, when: int)
    requires Books(q, number_tasks, l, h) && pid in l.build_pids && l.now <= now && when <= now
    requires l.build_pids[pid] in h.forked && h.forked[l.build_pids[pid]] <= when
    ensures var t, p := l.build_pids[pid], h.Progress();
      && t in p.Live() && 0 <= t < |q.fnid|
      && h.With(Succeeded(t)).Progress() == p.After(Succeeded(t))
      && Books(q, number_tasks, Ledger(l.build_pids - {pid}, l.active_builds - 1, l.skipped, l.failed, l.failed_fnids,
                                       AfterSuccess(q, l.stamps, t, when), now), h.With(Succeeded(t)))
  {
    hide Summary, Legal, Stamped, AfterSuccess, Children, FailedFiles;
    var t := l.build_pids[pid];
    ChildIsLive(l.build_pids, h.Progress().Live(), pid);
    NextEvent(q, number_tasks, l, h, Succeeded(t));
    ChildReaped(l.build_pids, h.Progress().Live(), pid);
    SuccessKeepsStamps(q, h.stamps0, h.start, number_tasks, h.Progress(), l.stamps, l.now, now, h.forked, t, when);
  }

  method UnusedPid(used: set<int>) returns (pid: int)
    ensures pid !in used
  {
    pid := 1;
    var known := used;
    while known != {}
      invariant known <= used && forall p :: p in used - known ==> p < pid
    {
      ghost var some := Member(known);
      var p :| p in known;
      assert used - (known - {p}) == (used - known) + {p};
      known := known - {p};
      if p >= pid {
        pid := p + 1;
      }
    }
    assert used - known == used;
  }

  lemma FlagsBegin(g: Digraph, p: Progress, buildable: seq<bool>, running: seq<bool>, complete: seq<bool>, t: TaskId)
    requires Flags(g, p.begun, p.complete, buildable, running, complete) && p.Ready(g, t)
    ensures 0 <= t < |running| && 0 <= t < |complete|
    ensures Flags(g, p.begun + {t}, p.complete, buildable, running[t := true], complete)
  {
  }

  /** next's answer in terms of the run: the tasks it may choose are the ready ones. */
  lemma FlagsLength(g: Digraph, p: Progress, buildable: seq<bool>, running: seq<bool>, complete: seq<bool>)
    requires Flags(g, p.begun, p.complete, buildable, running, complete)
    ensures |buildable| == |running| == |complete| == |g|
    ensures forall t :: 0 <= t < |g| ==> (p.Ready(g, t) <==> buildable[t] && !running[t])
  {
  }

  class RunQueueExecution {
    const queue: Queue
    const runq_revdeps: Digraph
    const prio_map: seq<TaskId>
    const number_tasks: int
    const abort: bool

    var runq_buildable: seq<bool>
    var runq_running: seq<bool>
    var runq_complete: seq<bool>
    var active_builds: int
    var build_pids: map<int, TaskId>
    var failed_fnids: seq<int>
    var completed: int
    var skipped: int
    var failed: int

    // the world outside: stamp files and the clock
    var stamps: Disk
    var now: int

    ghost var history: History

    ghost predicate Prepared() {
      && Sound(queue)
      && Inverse(queue.depends, runq_revdeps)
      && !Cyclic(queue.depends)
      && IsPermutation(prio_map, |queue.depends|)
    }

    ghost function Now(): Progress
      reads `history
    {
      history.Progress()
    }

    ghost function Accounts(): Ledger
      reads this
    {
      Ledger(build_pids, active_builds, skipped, failed, failed_fnids, stamps, now)
    }

    /** The history is legal and follows the priority map, and the books agree with it. */
    ghost predicate Booked()
      reads this
    {
      && Prepared()
      && Books(queue, number_tasks, Accounts(), history)
      && ByPriority(queue.depends, prio_map, history.trace)
    }

    /** Between two steps of execute_runqueue_internal. */
    ghost predicate Executing()
      reads this
    {
      && Booked()
      && Flags(queue.depends, Now().begun, Now().complete, runq_buildable, runq_running, runq_complete)
      && completed == |Now().complete|
    }

    /** execute_runqueue_initVars, for the queue that rq has prepared. */
    constructor (rq: RunQueue, stamp: seq<string>, nostamp: seq<set<string>>, policy: string, whitelist: seq<int>,
                 number_tasks: int, abort: bool, stamps: Disk, now: int)
      requires rq.IsPrepared() && StampTables(rq.runq_fnid, rq.runq_task, stamp, nostamp)
      requires Sound(MakeQueue(rq.runq_depends, rq.runq_fnid, rq.runq_task, stamp, nostamp, policy, whitelist))
      requires StampsUpTo(MakeQueue(rq.runq_depends, rq.runq_fnid, rq.runq_task, stamp, nostamp, policy, whitelist),
                          stamps, now)
      ensures queue == MakeQueue(rq.runq_depends, rq.runq_fnid, rq.runq_task, stamp, nostamp, policy, whitelist)
      ensures queue.depends == rq.runq_depends && queue.fnid == rq.runq_fnid && prio_map == rq.prio_map
      ensures queue.policy == policy && queue.whitelist == whitelist
      ensures |queue.stampfile| == |queue.nostamp| == |rq.runq_fnid|
      ensures forall t :: 0 <= t < |rq.runq_fnid| ==>
        && queue.stampfile[t] == stamp[rq.runq_fnid[t]] + "." + rq.runq_task[t]
        && (queue.nostamp[t] <==> rq.runq_task[t] in nostamp[rq.runq_fnid[t]])
      ensures this.number_tasks == number_tasks && this.abort == abort && this.stamps == stamps && this.now == now
      ensures Executing() && active_builds == 0 && history == History([], stamps, now, map[])
    {
      queue := MakeQueue(rq.runq_depends, rq.runq_fnid, rq.runq_task, stamp, nostamp, policy, whitelist);
      runq_revdeps, prio_map := rq.runq_revdeps, rq.prio_map;
      this.number_tasks, this.abort, this.stamps, this.now := number_tasks, abort, stamps, now;
      OpenBooks(MakeQueue(rq.runq_depends, rq.runq_fnid, rq.runq_task, stamp, nostamp, policy, whitelist),
                number_tasks, stamps, now);
      var b, r, c := InitialFlags(rq.runq_depends);
      runq_buildable, runq_running, runq_complete := b, r, c;
      active_builds, completed, skipped, failed := 0, 0, 0, 0;
      build_pids, failed_fnids := map[], [];
      history := History([], stamps, now, map[]);
    }

    /** What a run means for the stamp files. */
    lemma Outcome()
      requires Booked()
      ensures Sound(queue) && !Cyclic(queue.depends) && Now().Accounted(queue.depends, number_tasks)
      ensures Effect(queue, history.stamps0, history.start, Now(), stamps) && StampsUpTo(queue, stamps, now)
    {
    }

    /** The dependency has a stamp, and the task has one at least as new. */
    ghost predicate IsNotNewer(d: TaskId, task: TaskId)
      requires Sound(queue) && 0 <= d < |queue.depends| && 0 <= task < |queue.depends|
      reads `stamps
    {
      && queue.stampfile[d] in stamps && queue.stampfile[task] in stamps
      && stamps[queue.stampfile[d]] <= stamps[queue.stampfile[task]]
    }

    /** check_stamp_task.  Under the policy perfile it considers the dependencies with the
        task's own file, under whitelist also those whose file is not listed, and under
        every other policy all of them. */
    method CheckStampTask(task: TaskId) returns (iscurrent: bool)
      requires Sound(queue) && 0 <= task < |queue.depends|
      ensures iscurrent <==> Current(queue, stamps, task)
      ensures queue.stampfile[task] !in stamps || queue.nostamp[task] ==> !iscurrent
      ensures queue.stampfile[task] in stamps && !queue.nostamp[task] && queue.policy == "perfile" ==>
        (iscurrent <==>
          forall d :: d in queue.depends[task] && queue.fnid[d] == queue.fnid[task] ==> IsNotNewer(d, task))
      ensures queue.stampfile[task] in stamps && !queue.nostamp[task] && queue.policy == "whitelist" ==>
        (iscurrent <==>
          forall d |
            d in queue.depends[task] && (queue.fnid[d] == queue.fnid[task] || queue.fnid[d] !in queue.whitelist) ::
            IsNotNewer(d, task))
      ensures queue.stampfile[task] in stamps && !queue.nostamp[task] && queue.policy !in {"perfile", "whitelist"} ==>
        (iscurrent <==> forall d :: d in queue.depends[task] ==> IsNotNewer(d, task))
    {
      var fulldeptree := queue.policy != "perfile";
      var stampwhitelist: seq<int> := if queue.policy == "whitelist" then queue.whitelist else [];
      if queue.stampfile[task] !in stamps {
        return false;
      }
      if queue.nostamp[task] {
        return false;
      }
      iscurrent := true;
      var t1 := stamps[queue.stampfile[task]];
      var rest := queue.depends[task];
      while rest != {}
        invariant rest <= queue.depends[task]
        invariant iscurrent <==> StampsNotNewer(queue, stamps, task, queue.depends[task] - rest, t1)
      {
        ghost var some := Member(rest);
        var dep :| dep in rest;
        assert queue.depends[task] - (rest - {dep}) == (queue.depends[task] - rest) + {dep};
        rest := rest - {dep};
        if iscurrent {
          var stampfile2 := queue.stampfile[dep];
          if queue.fnid[task] == queue.fnid[dep] || (fulldeptree && queue.fnid[dep] !in stampwhitelist) {
            if stampfile2 !in stamps || t1 < stamps[stampfile2] {
              iscurrent := false;
            }
          }
        }
      }
    }

    /** task_complete */
    method TaskComplete(task: TaskId, ghost begun: set<TaskId>, ghost done: set<TaskId>)
      requires Inverse(queue.depends, runq_revdeps) && 0 <= task < |queue.depends|
      requires forall t :: 0 <= t < |queue.depends| && t in begun ==> queue.depends[t] <= done
      requires Flags(queue.depends, begun, done, runq_buildable, runq_running, runq_complete)
      modifies `runq_complete, `runq_buildable
      ensures Flags(queue.depends, begun, done + {task}, runq_buildable, runq_running, runq_complete)
    {
      ghost var complete := runq_complete;
      runq_complete := runq_complete[task := true];
      assert runq_complete[task := task in done] == complete;
      runq_buildable := MarkBuildable(queue.depends, runq_revdeps, runq_buildable, runq_running, runq_complete, task,
                                      begun, done);
    }

    /** os.fork in the parent: some pid that no live child has, some time later. */
    method ForkChild() returns (pid: int)
      modifies `now
      ensures pid !in build_pids && now >= old(now)
    {
      pid := UnusedPid(build_pids.Keys);
    }

    /** os.waitpid(-1, 0): any live child, with any status, some time later.  A
        child that succeeds has left its stamp at some moment since its fork. */
    method WaitPid() returns (pid: int, status: int, ghost when: int)
      requires Booked() && active_builds > 0
      modifies `now, `stamps
      ensures now >= old(now) && pid in build_pids && 0 <= build_pids[pid] < |queue.depends|
      ensures status != 0 ==> stamps == old(stamps)
      ensures status == 0 ==>
        && build_pids[pid] in history.forked && history.forked[build_pids[pid]] <= when <= now
        && stamps == AfterSuccess(queue, old(stamps), build_pids[pid], when)
    {
      ghost var t := Member(Now().Live());
      pid :| pid in build_pids;
      status, when := *, now;
      if status == 0 {
        stamps := AfterSuccess(queue, stamps, build_pids[pid], now);
      }
    }

    /** Lines 923-929: the stamp is current, so the task counts as complete. */
    method SkipTask(task: TaskId)
      requires Executing() && FirstReady(queue.depends, prio_map, Now(), task) && Current(queue, stamps, task)
      modifies this
      ensures Executing() && stamps == old(stamps) && now == old(now) && active_builds == old(active_builds)
      ensures history == old(history).With(Skipped(task))
      ensures Now() == old(Now()).After(Skipped(task))
    {
      hide Books, Flags, Summary, Legal, ByPriority;
      ByPriorityAppend(queue.depends, prio_map, history.trace, Skipped(task));
      ghost var p := Now();
      BookSkip(queue, number_tasks, Accounts(), history, task);
      OneMoreComplete(queue, number_tasks, Accounts(), history, task);
      history := history.With(Skipped(task));
      FlagsBegin(queue.depends, p, runq_buildable, runq_running, runq_complete, task);
      runq_running := runq_running[task := true];
      TaskComplete(task, p.begun + {task}, p.complete);
      completed := completed + 1;
      skipped := skipped + 1;
    }

    /** Lines 935-960 in the parent: fork a child and enter it in the books. */
    method StartTask(task: TaskId)
      requires Executing() && FirstReady(queue.depends, prio_map, Now(), task) && !Current(queue, stamps, task)
      requires active_builds < Slots(number_tasks)
      modifies this
      ensures Executing() && stamps == old(stamps) && active_builds == old(active_builds) + 1
      ensures history == old(history).With(Started(task)).(forked := old(history.forked)[task := now])
      ensures Now() == old(Now()).After(Started(task))
    {
      hide Books, Flags, Summary, Legal, ByPriority;
      ByPriorityAppend(queue.depends, prio_map, history.trace, Started(task));
      ghost var p, before := Now(), now;
      SlotFree(queue, number_tasks, Accounts(), history);
      var pid := ForkChild();
      BookFork(queue, number_tasks, Accounts().(now := before), history, task, pid, now);
      FlagsBegin(queue.depends, p, runq_buildable, runq_running, runq_complete, task);
      build_pids := build_pids[pid := task];
      runq_running := runq_running[task := true];
      active_builds := active_builds + 1;
      history := history.With(Started(task)).(forked := history.forked[task := now]);
    }

    /** The books as they were when waitpid returned: now had been before, stamps disk. */
    ghost predicate BookedAt(before: int, disk: Disk)
      reads this
    {
      && Prepared()
      && Books(queue, number_tasks, Accounts().(now := before, stamps := disk), history)
      && ByPriority(queue.depends, prio_map, history.trace)
    }

    /** The child has failed: its task's file joins failed_fnids. */
    method NoteFailure(pid: int, ghost before: int)
      requires BookedAt(before, stamps) && pid in build_pids && before <= now
      modifies `build_pids, `active_builds, `failed_fnids, `failed, `history
      ensures Booked() && active_builds == old(active_builds) - 1
      ensures old(build_pids[pid]) in old(Now()).Live()
      ensures history == old(history).With(Failed(old(build_pids[pid])))
      ensures Now() == old(Now()).After(Failed(old(build_pids[pid])))
    {
      hide ByPriority, Books, Summary, Legal, Cyclic;
      var task := build_pids[pid];
      ByPriorityAppend(queue.depends, prio_map, history.trace, Failed(task));
      BookFailure(queue, number_tasks, Accounts().(now := before), history, pid, now);
      build_pids := build_pids - {pid};
      active_builds := active_builds - 1;
      failed_fnids := failed_fnids + [queue.fnid[task]];
      failed := failed + 1;
      history := history.With(Failed(task));
    }

    /** The child has succeeded and left its stamp. */
    method NoteSuccess(pid: int, ghost before: int, ghost disk: Disk, ghost when: int)
      requires BookedAt(before, disk) && pid in build_pids && before <= now
      requires 0 <= build_pids[pid] < |queue.depends|
      requires build_pids[pid] in history.forked && history.forked[build_pids[pid]] <= when <= now
      requires stamps == AfterSuccess(queue, disk, build_pids[pid], when)
      modifies `build_pids, `active_builds, `history
      ensures Booked() && active_builds == old(active_builds) - 1
      ensures old(build_pids[pid]) in old(Now()).Live()
      ensures history == old(history).With(Succeeded(old(build_pids[pid])))
      ensures Now() == old(Now()).After(Succeeded(old(build_pids[pid])))
      ensures |Now().complete| == |old(Now()).complete| + 1
      ensures forall u :: 0 <= u < |queue.depends| && u in old(Now()).begun ==> queue.depends[u] <= old(Now()).complete
    {
      hide ByPriority, Books, Summary, Legal, Cyclic, AfterSuccess;
      var task := build_pids[pid];
      ByPriorityAppend(queue.depends, prio_map, history.trace, Succeeded(task));
      BookSuccess(queue, number_tasks, Accounts().(now := before, stamps := disk), history, pid, now, when);
      OneMoreComplete(queue, number_tasks, Accounts().(now := before, stamps := disk), history, task);
      build_pids := build_pids - {pid};
      active_builds := active_builds - 1;
      history := history.With(Succeeded(task));
    }

    /** Lines 964-978: reap one child. */
    method Reap() returns (ok: bool, ghost e: Event)
      requires Executing() && active_builds > 0
      modifies this
      ensures Executing() && active_builds == old(active_builds) - 1
      ensures e.task in old(Now()).Live() && if ok then e.Succeeded? else e.Failed?
      ensures Now().begun == old(Now()).begun && (!ok ==> Now().failed != {})
      ensures history == old(history).With(e)
      ensures Now() == old(Now()).After(e)
    {
      hide Books, Flags, Summary, Legal, Sound, Inverse, Cyclic, IsPermutation, AfterSuccess;
      ghost var p := Now();
      ghost var before, disk := now, stamps;
      var pid, status, when := WaitPid();
      var task := build_pids[pid];
      if status != 0 {
        NoteFailure(pid, before);
        return false, Failed(task);
      }
      NoteSuccess(pid, before, disk, when);
      TaskComplete(task, p.begun, p.complete);
      completed := completed + 1;
      return true, Succeeded(task);
    }

    /** Lines 918-962: skip the task or fork a child for it.  again reports that
        the loop looks for another task before it waits. */
    method BeginTask(task: TaskId) returns (again: bool)
      requires Executing() && FirstReady(queue.depends, prio_map, Now(), task) && active_builds < Slots(number_tasks)
      modifies this
      ensures Executing() && stamps == old(stamps) && |Now().begun| == |old(Now()).begun| + 1
      ensures
        var e := if Current(queue, old(stamps), task) then Skipped(task) else Started(task);
        history.trace == old(history.trace) + [e] && Now() == old(Now()).After(e)
      ensures history.stamps0 == old(history.stamps0) && history.start == old(history.start)
      ensures again ==> active_builds < Slots(number_tasks)
      ensures !again ==> active_builds > 0
      ensures again <==> Current(queue, old(stamps), task) || active_builds < number_tasks
    {
      hide ByPriority, Books, Flags, Summary, Legal, Inverse, Cyclic, IsPermutation, Current;
      var iscurrent := CheckStampTask(task);
      if iscurrent {
        SkipTask(task);
        return true;
      }
      BooksBound(queue, number_tasks, Accounts(), history);
      StartTask(task);
      again := active_builds < number_tasks;
    }

    /** One more event in a history, and what that says about when tasks began. */
    lemma Extended(h: History, e: Event)
      requires history.trace == h.trace + [e]
      requires Ends(e) ==>
        || |h.Progress().Live()| >= number_tasks
        || forall t :: 0 <= t < |queue.depends| ==> !h.Progress().Ready(queue.depends, t)
      ensures WaitsOnlyIfBusy(queue.depends, number_tasks, h.trace) ==>
        WaitsOnlyIfBusy(queue.depends, number_tasks, history.trace)
      ensures StopsAfterFailure(h.trace) && (Ends(e) || h.Progress().failed == {}) ==> StopsAfterFailure(history.trace)
    {
      hide WaitsOnlyIfBusy, StopsAfterFailure;
      if WaitsOnlyIfBusy(queue.depends, number_tasks, h.trace) {
        WaitsAppend(queue.depends, number_tasks, h.trace, e);
      }
      if StopsAfterFailure(h.trace) && (Ends(e) || h.Progress().failed == {}) {
        StopsAppend(h.trace, e);
      }
    }

    lemma StopsMore(task: TaskId, status: int)
      ensures StopsAfterFailure(history.trace) ==>
        StopsAfterFailure(history.With(if status != 0 then Failed(task) else Succeeded(task)).trace)
    {
      hide StopsAfterFailure;
      if StopsAfterFailure(history.trace) {
        StopsAppend(history.trace, if status != 0 then Failed(task) else Succeeded(task));
      }
    }

    /** One round of the loop, lines 917-979.  The loop goes on unless nothing is
        left to do, or a child has failed and abort is set. */
    method Round() returns (goes: bool, stopped: bool)
      requires Executing() && active_builds < Slots(number_tasks)
      modifies this
      ensures Executing() && old(history.trace) <= history.trace
      ensures history.stamps0 == old(history.stamps0) && history.start == old(history.start)
      ensures goes ==> !stopped && active_builds < Slots(number_tasks)
      ensures goes ==>
        || |old(Now()).begun| < |Now().begun| <= |queue.depends|
        || (Now().begun == old(Now()).begun && 0 <= active_builds < old(active_builds))
      ensures stopped ==> abort && Now().failed != {}
      ensures stopped <==> abort && Now().failed != old(Now()).failed
      ensures ByPriority(queue.depends, prio_map, history.trace)
      ensures old(WaitsOnlyIfBusy(queue.depends, number_tasks, history.trace)) ==>
        WaitsOnlyIfBusy(queue.depends, number_tasks, history.trace)
      ensures abort && old(Now()).failed == {} && old(StopsAfterFailure(history.trace)) ==>
        StopsAfterFailure(history.trace)
      ensures !goes && !stopped ==> active_builds == 0 && Now().Quiet(queue.depends)
    {
      hide Executing, History.Progress, Progress.Ready, FirstReady, ByPriority, WaitsOnlyIfBusy, StopsAfterFailure;
      Bounds();
      ghost var h := history;
      var next := PickTask();
      if next.Task? {
        var again := BeginTask(next.id);
        Bounds();
        Extended(h, history.trace[|h.trace|]);
        if again {
          return true, false;
        }
        assert |history.Progress().Live()| >= number_tasks;
      } else {
        assert Now() == history.Progress();
      }
      if active_builds > 0 {
        ghost var mid := history;
        var ok, e := Reap();
        Bounds();
        Extended(mid, e);
        if !ok && abort {
          return false, true;
        }
        return true, false;
      }
      return false, false;
    }

    lemma Bounds()
      requires Executing()
      ensures 0 <= active_builds <= Slots(number_tasks) && |Now().begun| <= |queue.depends|
      ensures active_builds == |Now().Live()| && (active_builds == 0 ==> Now().Live() == {})
      ensures ByPriority(queue.depends, prio_map, history.trace)
    {
      BooksBound(queue, number_tasks, Accounts(), history);
    }

    /** self.sched.next(): the first ready task of the priority map, none exactly when no
        task is ready. */
    method PickTask() returns (next: Choice)
      requires Executing()
      ensures next.Task? ==> FirstReady(queue.depends, prio_map, Now(), next.id)
      ensures next.NoTask? ==> forall t :: 0 <= t < |queue.depends| ==> !Now().Ready(queue.depends, t)
    {
      hide ByPriority, Books, Flags, Summary, Legal, Sound, Cyclic;
      FlagsLength(queue.depends, Now(), runq_buildable, runq_running, runq_complete);
      next := Next(prio_map, runq_running, runq_buildable);
      if next.Task? {
        ghost var k :|
          && 0 <= k < |prio_map| && next.id == prio_map[k] && runq_buildable[next.id] && !runq_running[next.id]
          && forall i :: 0 <= i < k ==> !(runq_buildable[prio_map[i]] && !runq_running[prio_map[i]]);
        assert forall i :: 0 <= i < k ==> !Now().Ready(queue.depends, prio_map[i]);
      }
    }

    /** execute_runqueue_internal after initVars.  stopped reports the break that
        follows a failure when abort is set. */
    method ExecuteRunqueueInternal() returns (stopped: bool)
      requires Executing() && active_builds < Slots(number_tasks)
      modifies this
      ensures Executing() && old(history.trace) <= history.trace
      ensures history.stamps0 == old(history.stamps0) && history.start == old(history.start)
      ensures stopped <==> abort && Now().failed != old(Now()).failed
      ensures stopped ==> Now().failed != {}
      ensures ByPriority(queue.depends, prio_map, history.trace)
      ensures old(WaitsOnlyIfBusy(queue.depends, number_tasks, history.trace)) ==>
        WaitsOnlyIfBusy(queue.depends, number_tasks, history.trace)
      ensures abort && old(Now()).failed == {} && old(StopsAfterFailure(history.trace)) ==>
        StopsAfterFailure(history.trace)
      ensures !stopped ==> active_builds == 0
      ensures !stopped ==> Now().Quiet(queue.depends) && forall t :: 0 <= t < |queue.depends| ==>
        (t !in Now().begun <==> Now().DependsOnFailed(queue.depends, t))
    {
      hide ByPriority, WaitsOnlyIfBusy, StopsAfterFailure, Books, Flags, Summary, Legal;
      hide Sound, Cyclic, IsPermutation, Current;
      var goes := true;
      stopped := false;
      while goes
        invariant Executing() && old(history.trace) <= history.trace
        invariant history.stamps0 == old(history.stamps0) && history.start == old(history.start)
        invariant goes ==> !stopped && active_builds < Slots(number_tasks)
        invariant stopped ==> Now().failed != {}
        invariant stopped <==> abort && Now().failed != old(Now()).failed
        invariant old(WaitsOnlyIfBusy(queue.depends, number_tasks, history.trace)) ==>
          WaitsOnlyIfBusy(queue.depends, number_tasks, history.trace)
        invariant abort && old(Now()).failed == {} && old(StopsAfterFailure(history.trace)) ==>
          StopsAfterFailure(history.trace)
        invariant !goes && !stopped ==> active_builds == 0 && Now().Quiet(queue.depends)
        decreases goes, |queue.depends| - |Now().begun|, active_builds
      {
        goes, stopped := Round();
      }
      BooksBound(queue, number_tasks, Accounts(), history);
      if !stopped {
        EveryTaskSettled();
      }
    }

    /** At rest the tasks unrun are those below a failed one. */
    lemma EveryTaskSettled()
      requires Booked() && Now().Quiet(queue.depends)
      ensures forall t :: 0 <= t < |queue.depends| ==> (t !in Now().begun <==> Now().DependsOnFailed(queue.depends, t))
    {
      forall t | 0 <= t < |queue.depends|
        ensures t !in Now().begun <==> Now().DependsOnFailed(queue.depends, t)
      {
        UnrunExactlyBelowFailures(queue.depends, number_tasks, Now(), t);
      }
    }

    /** finish_runqueue: wait for the children that still run. */
    method FinishRunqueue()
      requires Booked()
      modifies this
      ensures Booked() && active_builds == 0 && Now().Live() == {}
      ensures old(history.trace) <= history.trace
      ensures history.stamps0 == old(history.stamps0) && history.start == old(history.start)
      ensures old(active_builds) == 0 ==> history == old(history)
      ensures old(Now()).failed <= Now().failed
      ensures ByPriority(queue.depends, prio_map, history.trace)
      ensures old(StopsAfterFailure(history.trace)) ==> StopsAfterFailure(history.trace)
    {
      hide ByPriority, StopsAfterFailure, Books, Summary, Legal, Sound, Inverse, Cyclic, IsPermutation, AfterSuccess;
      while active_builds > 0
        invariant Booked()
        invariant old(history.trace) <= history.trace
        invariant history.stamps0 == old(history.stamps0) && history.start == old(history.start)
        invariant old(active_builds) == 0 ==> history == old(history)
        invariant old(Now()).failed <= Now().failed
        invariant old(StopsAfterFailure(history.trace)) ==> StopsAfterFailure(history.trace)
        decreases active_builds
      {
        ghost var before, disk := now, stamps;
        var pid, status, when := WaitPid();
        StopsMore(build_pids[pid], status);
        if status != 0 {
          NoteFailure(pid, before);
        } else {
          NoteSuccess(pid, before, disk, when);
        }
      }
      BooksBound(queue, number_tasks, Accounts(), history);
    }

    /** execute_runqueue without tryaltconfigs: a non-empty answer is the TaskFailure raised. */
    method ExecuteRunqueue() returns (failures: seq<int>)
      requires Executing() && active_builds < Slots(number_tasks)
      modifies this
      ensures Booked() && Now().Live() == {} && old(history.trace) <= history.trace
      ensures history.stamps0 == old(history.stamps0) && history.start == old(history.start)
      ensures FailedFiles(queue.fnid, Now().failed, failures)
      ensures failures == [] <==> forall t :: 0 <= t < |queue.depends| ==> t in Now().complete
      ensures ByPriority(queue.depends, prio_map, history.trace)
      ensures !abort && old(WaitsOnlyIfBusy(queue.depends, number_tasks, history.trace)) ==>
        WaitsOnlyIfBusy(queue.depends, number_tasks, history.trace)
      ensures abort && old(Now()).failed == {} && old(StopsAfterFailure(history.trace)) ==>
        StopsAfterFailure(history.trace)
      ensures !abort ==> forall t :: 0 <= t < |queue.depends| ==>
        (t !in Now().begun <==> Now().DependsOnFailed(queue.depends, t))
    {
      hide ByPriority, WaitsOnlyIfBusy, StopsAfterFailure, Books, Flags, Summary, Legal;
      var stopped := ExecuteRunqueueInternal();
      FinishRunqueue();
      failures := failed_fnids;
      FailuresMean(queue, number_tasks, Accounts(), history);
    }
  }

  /** With a map that puts the heaviest task first, the task that begins is the heaviest of
      all that are ready then. */
  lemma HeaviestBegins(g: Digraph, prio: seq<TaskId>, weight: seq<int>, tr: seq<Event>, i: nat, t: TaskId, u: TaskId)
    requires ByPriority(g, prio, tr) && IsPermutation(prio, |g|) && |weight| == |g| && HeaviestFirst(prio, weight)
    requires i < |tr| && Begins(tr[i], t) && Summary(tr[..i]).Ready(g, u)
    ensures 0 <= t < |g| && weight[t] >= weight[u]
  {
    var p := Summary(tr[..i]);
    assert FirstReady(g, prio, p, t);
    var k :| 0 <= k < |prio| && prio[k] == t && forall j :: 0 <= j < k ==> !p.Ready(g, prio[j]);
    NextIsHeaviest(prio, weight, {u}, k, u);
  }

  /** What a second run leaves undone after a first one that completed every task. */
  lemma NothingIsRebuilt(q: Queue, number_tasks: int, disk0: Disk, start: int, p: Progress, disk1: Disk,
                         number_tasks2: int, start2: int, p2: Progress, disk2: Disk, failures2: seq<int>)
    requires Sound(q) && !Cyclic(q.depends) && forall t :: 0 <= t < |q.nostamp| ==> !q.nostamp[t]
    requires p.Accounted(q.depends, number_tasks) && Effect(q, disk0, start, p, disk1)
    requires forall t :: 0 <= t < |q.depends| ==> t in p.complete
    requires p2.Accounted(q.depends, number_tasks2) && Effect(q, disk1, start2, p2, disk2)
    requires FailedFiles(q.fnid, p2.failed, failures2)
    requires failures2 == [] <==> forall t :: 0 <= t < |q.depends| ==> t in p2.complete
    ensures failures2 == [] && p2.begun == p2.skipped
    ensures forall t :: 0 <= t < |q.depends| ==> t in p2.skipped && SameStamp(disk1, disk2, q.stampfile[t])
  {
    SecondRunSkipsAll(q, number_tasks, disk0, start, p, disk1, number_tasks2, start2, p2, disk2);
    hide Effect, SameStamp, Cyclic;
    if failures2 != [] {
      FailedFileHasTask(q.fnid, p2.failed, failures2);
    }
  }

  /** Build and build again: the second executor takes the prepared queue and the stamp
      files as the first leaves them, at a later time.  After a successful run whose tasks
      all may have stamps it forks nothing, reports nothing and changes no stamp. */
  method BuildTwice(rq: RunQueue, stamp: seq<string>, nostamp: seq<set<string>>, policy: string, whitelist: seq<int>,
                    number_tasks: int, abort: bool, number_tasks2: int, abort2: bool, stamps: Disk, now: int, wait: nat)
    returns (failures: seq<int>, failures2: seq<int>, first: RunQueueExecution, second: RunQueueExecution)
    requires rq.IsPrepared() && StampTables(rq.runq_fnid, rq.runq_task, stamp, nostamp)
    requires Sound(MakeQueue(rq.runq_depends, rq.runq_fnid, rq.runq_task, stamp, nostamp, policy, whitelist))
    requires StampsUpTo(MakeQueue(rq.runq_depends, rq.runq_fnid, rq.runq_task, stamp, nostamp, policy, whitelist),
                        stamps, now)
    ensures fresh(first) && fresh(second) && first.queue == second.queue && first.Booked() && second.Booked()
    ensures failures == [] && (forall t :: 0 <= t < |first.queue.depends| ==> !first.queue.nostamp[t]) ==>
      && failures2 == []
      && (forall t :: 0 <= t < |second.queue.depends| ==> t in second.Now().skipped)
      && second.Now().begun == second.Now().skipped
      && forall t :: 0 <= t < |second.queue.depends| ==>
        SameStamp(first.stamps, second.stamps, second.queue.stampfile[t])
  {
    hide Books, Flags, Summary, Legal, Cyclic, Effect, StampsUpTo, Progress.Accounted, FailedFiles, SameStamp;
    hide StampTables, MakeQueue, IsPermutation, Inverse, Progress.Live, Progress.DependsOnFailed;
    first := new RunQueueExecution(rq, stamp, nostamp, policy, whitelist, number_tasks, abort, stamps, now);
    failures := first.ExecuteRunqueue();
    first.Outcome();
    StampsLater(first.queue, first.stamps, first.now, first.now + wait);
    second := new RunQueueExecution(rq, stamp, nostamp, policy, whitelist, number_tasks2, abort2, first.stamps,
                                    first.now + wait);
    failures2 := second.ExecuteRunqueue();
    second.Outcome();
    if failures == [] && forall t :: 0 <= t < |first.queue.depends| ==> !first.queue.nostamp[t] {
      NothingIsRebuilt(first.queue, number_tasks, stamps, now, first.Now(), first.stamps,
                       number_tasks2, first.now + wait, second.Now(), second.stamps, failures2);
    }
  }
}
