/** Stamp files and incremental builds: which tasks check_stamp_task lets a run
skip, and what one run leaves behind for the next. */
module Rebuild {
  import opened Graph
  import opened TaskWeights
  import opened RunTrace

  /** The parts of a prepared queue that the stamp check looks at. */
  datatype Queue = Queue(depends: Digraph, fnid: seq<int>, stampfile: seq<string>, nostamp: seq<bool>,
                         policy: string, whitelist: seq<int>)

  /** Modification times of the stamp files that exist. */
  type Disk = map<string, int>

  ghost predicate Sound(q: Queue) {
    && WellFormed(q.depends)
    && |q.fnid| == |q.stampfile| == |q.nostamp| == |q.depends|
    && (forall t, u :: 0 <= t < |q.stampfile| && 0 <= u < |q.stampfile| && q.stampfile[t] == q.stampfile[u] ==> t == u)
  }

  /** Does the stamp policy compare t's stamp with that of its dependency d? */
  predicate Considers(q: Queue, t: TaskId, d: TaskId)
    requires 0 <= t < |q.fnid| && 0 <= d < |q.fnid|
  {
    q.fnid[t] == q.fnid[d] ||
    (q.policy != "perfile" && !(q.policy == "whitelist" && q.fnid[d] in q.whitelist))
  }

  /** own says what stamp t itself has, disk what its dependencies have. */
  ghost predicate CurrentAt(q: Queue, own: Disk, disk: Disk, t: TaskId)
    requires Sound(q) && 0 <= t < |q.depends|
  {
    && q.stampfile[t] in own
    && !q.nostamp[t]
    && (forall d :: d in q.depends[t] && Considers(q, t, d) ==>
      q.stampfile[d] in disk && disk[q.stampfile[d]] <= own[q.stampfile[t]])
  }

  ghost predicate Current(q: Queue, disk: Disk, t: TaskId)
    requires Sound(q) && 0 <= t < |q.depends|
  {
    CurrentAt(q, disk, disk, t)
  }

  ghost predicate SameStamp(before: Disk, after: Disk, f: string) {
    (f in before <==> f in after) && (f in before ==> before[f] == after[f])
  }

  ghost predicate StampsUpTo(q: Queue, disk: Disk, now: int) {
    forall t :: 0 <= t < |q.stampfile| && q.stampfile[t] in disk ==> disk[q.stampfile[t]] <= now
  }

  /** The new stamp of a task is not older than the start of the run or the
      stamp of any task it depends on. */
  ghost predicate NewStamp(q: Queue, start: int, disk: Disk, t: TaskId)
    requires Sound(q) && 0 <= t < |q.depends|
  {
    && q.stampfile[t] in disk
    && start <= disk[q.stampfile[t]]
    && (forall d :: d in q.depends[t] && q.stampfile[d] in disk ==> disk[q.stampfile[d]] <= disk[q.stampfile[t]])
  }

  /** What a run that began with disk0 at time start has done to the stamps. */
  ghost predicate Effect(q: Queue, disk0: Disk, start: int, p: Progress, disk: Disk)
    requires Sound(q)
  {
    forall t :: 0 <= t < |q.depends| ==> TaskEffect(q, disk0, start, p, disk, t)
  }

  ghost predicate TaskEffect(q: Queue, disk0: Disk, start: int, p: Progress, disk: Disk, t: TaskId)
    requires Sound(q) && 0 <= t < |q.depends|
  {
    && (t !in p.complete || t in p.skipped || q.nostamp[t] ==> SameStamp(disk0, disk, q.stampfile[t]))
    && (t in p.complete && t !in p.skipped && !q.nostamp[t] ==> NewStamp(q, start, disk, t))
    && (t in p.begun ==> (t in p.skipped <==> CurrentAt(q, disk0, disk, t)))
  }

  // --- how the events of a run keep the effect ---

  /** While a run goes on: no stamp lies in the future, and a live task was
      forked after its dependencies got their stamps. */
  ghost predicate Stamped(q: Queue, disk0: Disk, start: int, p: Progress, disk: Disk, now: int,
                          forked: map<TaskId, int>)
    requires Sound(q)
  {
    && Effect(q, disk0, start, p, disk)
    && start <= now
    && StampsUpTo(q, disk, now)
    && ForkTimes(q, start, p.Live(), disk, now, forked)
  }

  ghost predicate ForkTimes(q: Queue, start: int, live: set<TaskId>, disk: Disk, now: int, forked: map<TaskId, int>)
    requires Sound(q)
  {
    && (forall t :: t in live ==> 0 <= t < |q.depends| && t in forked && start <= forked[t] <= now)
    && (forall t, d :: t in live && d in q.depends[t] && q.stampfile[d] in disk ==> disk[q.stampfile[d]] <= forked[t])
  }

  lemma ForkTimesStart(q: Queue, start: int, live: set<TaskId>, disk: Disk, now: int, now': int,
                       forked: map<TaskId, int>, t: TaskId)
    requires Sound(q) && ForkTimes(q, start, live, disk, now, forked) && StampsUpTo(q, disk, now)
    requires t !in live && 0 <= t < |q.depends| && start <= now <= now'
    ensures ForkTimes(q, start, live + {t}, disk, now', forked[t := now'])
  {
  }

  lemma ForkTimesEnd(q: Queue, start: int, live: set<TaskId>, disk: Disk, disk': Disk, now: int, now': int,
                     forked: map<TaskId, int>, t: TaskId)
    requires Sound(q) && ForkTimes(q, start, live, disk, now, forked) && now <= now'
    requires forall u, d :: u in live && 0 <= u < |q.depends| && d in q.depends[u] ==>
      SameStamp(disk, disk', q.stampfile[d])
    ensures ForkTimes(q, start, live - {t}, disk', now', forked)
  {
  }

  /** Until t has its new stamp, its own stamp is the one the run found. */
  lemma OwnStampFound(q: Queue, disk0: Disk, disk: Disk, t: TaskId)
    requires Sound(q) && 0 <= t < |q.depends| && SameStamp(disk0, disk, q.stampfile[t])
    ensures CurrentAt(q, disk0, disk, t) <==> Current(q, disk, t)
  {
  }

  /** A task that begins does not disturb what is known of the others. */
  lemma BeginKeepsTask(q: Queue, disk0: Disk, start: int, p: Progress, disk: Disk, e: Event, u: TaskId)
    requires Sound(q) && 0 <= u < |q.depends| && TaskEffect(q, disk0, start, p, disk, u)
    requires p.complete <= p.begun && p.skipped <= p.complete
    requires e.Skipped? || e.Started?
    requires e.task !in p.begun && (u == e.task ==> (e.Skipped? <==> Current(q, disk, u)))
    ensures TaskEffect(q, disk0, start, p.After(e), disk, u)
  {
    hide CurrentAt, Current, NewStamp, SameStamp;
    if u == e.task {
      OwnStampFound(q, disk0, disk, u);
    }
  }

  lemma BeginKeepsEffect(q: Queue, disk0: Disk, start: int, p: Progress, disk: Disk, e: Event)
    requires Sound(q) && Effect(q, disk0, start, p, disk)
    requires p.complete <= p.begun && p.skipped <= p.complete
    requires e.Skipped? || e.Started?
    requires 0 <= e.task < |q.depends| && e.task !in p.begun && (e.Skipped? <==> Current(q, disk, e.task))
    ensures Effect(q, disk0, start, p.After(e), disk)
  {
    hide TaskEffect, Current;
    forall u | 0 <= u < |q.depends|
      ensures TaskEffect(q, disk0, start, p.After(e), disk, u)
    {
      BeginKeepsTask(q, disk0, start, p, disk, e, u);
    }
  }

  lemma StampsLater(q: Queue, disk: Disk, now: int, now': int)
    requires StampsUpTo(q, disk, now) && now <= now'
    ensures StampsUpTo(q, disk, now')
  {
  }

  lemma SkipKeepsStamps(q: Queue, disk0: Disk, start: int, number_tasks: int, p: Progress, disk: Disk, now: int,
                        forked: map<TaskId, int>, t: TaskId)
    requires Sound(q) && p.Accounted(q.depends, number_tasks) && Stamped(q, disk0, start, p, disk, now, forked)
    requires p.Ready(q.depends, t) && Current(q, disk, t)
    ensures Stamped(q, disk0, start, p.After(Skipped(t)), disk, now, forked)
  {
    hide Effect, Current, StampsUpTo, ForkTimes;
    BeginKeepsEffect(q, disk0, start, p, disk, Skipped(t));
    LiveAfter(p, Skipped(t));
  }

  lemma ForkKeepsStamps(q: Queue, disk0: Disk, start: int, number_tasks: int, p: Progress, disk: Disk, now: int,
                        now': int,
                        forked: map<TaskId, int>, t: TaskId)
    requires Sound(q) && p.Accounted(q.depends, number_tasks) && Stamped(q, disk0, start, p, disk, now, forked)
    requires p.Ready(q.depends, t) && !Current(q, disk, t) && now <= now'
    ensures Stamped(q, disk0, start, p.After(Started(t)), disk, now', forked[t := now'])
  {
    hide Effect, Current, StampsUpTo, ForkTimes;
    BeginKeepsEffect(q, disk0, start, p, disk, Started(t));
    StampsLater(q, disk, now, now');
    ForkTimesStart(q, start, p.Live(), disk, now, now', forked, t);
    LiveAfter(p, Started(t));
  }

  lemma FailureKeepsStamps(q: Queue, disk0: Disk, start: int, number_tasks: int, p: Progress, disk: Disk, now: int,
                           now': int,
                           forked: map<TaskId, int>, t: TaskId)
    requires Sound(q) && p.Accounted(q.depends, number_tasks) && Stamped(q, disk0, start, p, disk, now, forked)
    requires t in p.Live() && now <= now'
    ensures Stamped(q, disk0, start, p.After(Failed(t)), disk, now', forked)
  {
    FailureKeepsEffect(q, disk0, start, p, disk, t);
    ForkTimesEnd(q, start, p.Live(), disk, disk, now, now', forked, t);
    hide Effect, StampsUpTo, ForkTimes;
    StampsLater(q, disk, now, now');
    LiveAfter(p, Failed(t));
  }

  lemma FailureKeepsEffect(q: Queue, disk0: Disk, start: int, p: Progress, disk: Disk, t: TaskId)
    requires Sound(q) && Effect(q, disk0, start, p, disk)
    ensures Effect(q, disk0, start, p.After(Failed(t)), disk)
  {
    forall u | 0 <= u < |q.depends|
      ensures TaskEffect(q, disk0, start, p.After(Failed(t)), disk, u)
    {
      assert TaskEffect(q, disk0, start, p, disk, u);
    }
  }

  /** The stamp files after a child for t exited with status 0. */
  function AfterSuccess(q: Queue, disk: Disk, t: TaskId, when: int): Disk
    requires 0 <= t < |q.stampfile| == |q.nostamp|
  {
    if q.nostamp[t] then disk else disk[q.stampfile[t] := when]
  }

  /** The check on u comes out the same while the stamps of its dependencies stay. */
  lemma SameDependencies(q: Queue, disk0: Disk, disk: Disk, disk': Disk, u: TaskId)
    requires Sound(q) && 0 <= u < |q.depends|
    requires forall d :: d in q.depends[u] ==> SameStamp(disk, disk', q.stampfile[d])
    ensures CurrentAt(q, disk0, disk, u) <==> CurrentAt(q, disk0, disk', u)
  {
  }

  lemma SameNewStamp(q: Queue, start: int, disk: Disk, disk': Disk, u: TaskId)
    requires Sound(q) && 0 <= u < |q.depends| && SameStamp(disk, disk', q.stampfile[u])
    requires forall d :: d in q.depends[u] ==> SameStamp(disk, disk', q.stampfile[d])
    ensures NewStamp(q, start, disk, u) <==> NewStamp(q, start, disk', u)
  {
  }

  /** No stamp but that of t changes, so in particular none that a begun task depends on. */
  lemma OtherStampsStay(q: Queue, number_tasks: int, p: Progress, disk: Disk, t: TaskId, when: int, u: TaskId)
    requires Sound(q) && p.Accounted(q.depends, number_tasks) && t in p.Live() && 0 <= u < |q.depends|
    ensures u != t ==> SameStamp(disk, AfterSuccess(q, disk, t, when), q.stampfile[u])
    ensures u in p.begun ==> forall d :: d in q.depends[u] ==>
      SameStamp(disk, AfterSuccess(q, disk, t, when), q.stampfile[d])
  {
    hide SameStamp, AfterSuccess;
    if u != t {
      OtherStampStays(q, disk, t, when, u);
    }
    forall d | u in p.begun && d in q.depends[u]
      ensures SameStamp(disk, AfterSuccess(q, disk, t, when), q.stampfile[d])
    {
      assert d in p.complete;
      OtherStampStays(q, disk, t, when, d);
    }
  }

  lemma OtherStampStays(q: Queue, disk: Disk, t: TaskId, when: int, d: TaskId)
    requires Sound(q) && 0 <= t < |q.depends| && 0 <= d < |q.depends| && d != t
    ensures SameStamp(disk, AfterSuccess(q, disk, t, when), q.stampfile[d])
  {
  }

  lemma SuccessKeepsTask(q: Queue, disk0: Disk, start: int, number_tasks: int, p: Progress, disk: Disk, now: int,
                         forked: map<TaskId, int>, t: TaskId, when: int, u: TaskId)
    requires Sound(q) && p.Accounted(q.depends, number_tasks) && Stamped(q, disk0, start, p, disk, now, forked)
    requires t in p.Live() && forked[t] <= when && 0 <= u < |q.depends|
    ensures TaskEffect(q, disk0, start, p.After(Succeeded(t)), AfterSuccess(q, disk, t, when), u)
  {
    var disk' := AfterSuccess(q, disk, t, when);
    assert TaskEffect(q, disk0, start, p, disk, u);
    OtherStampsStay(q, number_tasks, p, disk, t, when, u);
    if u in p.begun {
      SameDependencies(q, disk0, disk, disk', u);
    }
    if u == t {
      NewStampLeft(q, number_tasks, p, disk, t, when, start, forked[t]);
    } else {
      hide NewStamp, CurrentAt;
      if u in p.complete {
        SameNewStamp(q, start, disk, disk', u);
      }
    }
  }

  lemma NewStampLeft(q: Queue, number_tasks: int, p: Progress, disk: Disk, t: TaskId, when: int, start: int,
                     forkTime: int)
    requires Sound(q) && p.Accounted(q.depends, number_tasks) && t in p.Live() && 0 <= t < |q.depends|
    requires start <= forkTime <= when && !(t in p.complete)
    requires forall d :: d in q.depends[t] && q.stampfile[d] in disk ==> disk[q.stampfile[d]] <= forkTime
    ensures !q.nostamp[t] ==> NewStamp(q, start, AfterSuccess(q, disk, t, when), t)
  {
    OtherStampsStay(q, number_tasks, p, disk, t, when, t);
  }

  lemma SuccessKeepsStamps(q: Queue, disk0: Disk, start: int, number_tasks: int, p: Progress, disk: Disk, now: int,
                           now': int,
                           forked: map<TaskId, int>, t: TaskId, when: int)
    requires Sound(q) && p.Accounted(q.depends, number_tasks) && Stamped(q, disk0, start, p, disk, now, forked)
    requires t in p.Live() && forked[t] <= when <= now' && now <= now'
    ensures Stamped(q, disk0, start, p.After(Succeeded(t)), AfterSuccess(q, disk, t, when), now', forked)
  {
    var disk' := AfterSuccess(q, disk, t, when);
    assert StampsUpTo(q, disk', now');
    forall u | 0 <= u < |q.depends|
      ensures TaskEffect(q, disk0, start, p.After(Succeeded(t)), disk', u)
    {
      SuccessKeepsTask(q, disk0, start, number_tasks, p, disk, now, forked, t, when, u);
    }
    hide TaskEffect, StampsUpTo, AfterSuccess;
    forall u, d | u in p.Live() && 0 <= u < |q.depends| && d in q.depends[u]
      ensures SameStamp(disk, disk', q.stampfile[d])
    {
      OtherStampsStay(q, number_tasks, p, disk, t, when, u);
    }
    ForkTimesEnd(q, start, p.Live(), disk, disk', now, now', forked, t);
    LiveAfter(p, Succeeded(t));
  }

  /** The dependencies the policy considers, as a graph of their own. */
  ghost function Considered(q: Queue): Digraph
    requires Sound(q)
  {
    seq(|q.depends|, t requires 0 <= t < |q.depends| => set d | d in q.depends[t] && Considers(q, t, d))
  }

  /** t, or something t considers directly or indirectly, was out of date. */
  ghost predicate NeedsRebuild(q: Queue, disk0: Disk, t: TaskId)
    requires Sound(q)
  {
    exists u :: Reaches(Considered(q), t, u) && 0 <= u < |q.depends| && !Current(q, disk0, u)
  }

  lemma NeedsRebuildSelf(q: Queue, disk0: Disk, t: TaskId)
    requires Sound(q) && 0 <= t < |q.depends| && !Current(q, disk0, t)
    ensures NeedsRebuild(q, disk0, t)
  {
    ReachesSelf(Considered(q), t);
  }

  lemma NeedsRebuildUp(q: Queue, disk0: Disk, t: TaskId, d: TaskId)
    requires Sound(q) && 0 <= t < |q.depends| && d in q.depends[t] && Considers(q, t, d)
    requires NeedsRebuild(q, disk0, d)
    ensures NeedsRebuild(q, disk0, t)
  {
    var u :| Reaches(Considered(q), d, u) && 0 <= u < |q.depends| && !Current(q, disk0, u);
    ReachesFirst(Considered(q), t, d, u);
  }

  /** A task that ran without anything below it being out of date would need a
      dependency of the same kind. */
  lemma RanForAReason(q: Queue, disk0: Disk, start: int, number_tasks: int, p: Progress, disk: Disk, t: TaskId)
      returns (d: TaskId)
    requires Sound(q) && p.Accounted(q.depends, number_tasks) && Effect(q, disk0, start, p, disk)
    requires t in p.begun - p.skipped && !NeedsRebuild(q, disk0, t)
    ensures d in q.depends[t] && d in p.begun - p.skipped && !NeedsRebuild(q, disk0, d)
  {
    assert TaskEffect(q, disk0, start, p, disk, t);
    if !Current(q, disk0, t) {
      NeedsRebuildSelf(q, disk0, t);
    }
    d :| d in q.depends[t] && Considers(q, t, d) &&
      !(q.stampfile[d] in disk && disk[q.stampfile[d]] <= disk0[q.stampfile[t]]);
    assert d in p.complete;
    assert TaskEffect(q, disk0, start, p, disk, d);
    if NeedsRebuild(q, disk0, d) {
      NeedsRebuildUp(q, disk0, t, d);
    }
  }

  /** A task is rebuilt only if something it considers, or it itself, was out of date. */
  lemma OnlyStaleTasksRun(q: Queue, disk0: Disk, start: int, number_tasks: int, p: Progress, disk: Disk, t: TaskId)
    requires Sound(q) && !Cyclic(q.depends)
    requires p.Accounted(q.depends, number_tasks) && Effect(q, disk0, start, p, disk)
    requires t in p.begun - p.skipped
    ensures NeedsRebuild(q, disk0, t)
  {
    if !NeedsRebuild(q, disk0, t) {
      var odd := set u | u in p.begun - p.skipped && !NeedsRebuild(q, disk0, u);
      forall u | u in odd
        ensures DependsInto(q.depends, odd, u)
      {
        var d := RanForAReason(q, disk0, start, number_tasks, p, disk, u);
        assert d in odd;
      }
      EndlessDescentIsCyclic(q.depends, odd, t);
    }
  }

  /** Every stamp is older than the run, and nostamp tasks have none. */
  ghost predicate OldStamps(q: Queue, disk0: Disk, start: int) {
    && |q.nostamp| == |q.stampfile|
    && (forall t :: 0 <= t < |q.stampfile| && q.stampfile[t] in disk0 ==>
        disk0[q.stampfile[t]] < start && !q.nostamp[t])
  }

  lemma StaleSpreads(q: Queue, disk0: Disk, start: int, number_tasks: int, p: Progress, disk: Disk, t: TaskId,
                     d: TaskId)
    requires Sound(q) && OldStamps(q, disk0, start)
    requires p.Accounted(q.depends, number_tasks) && Effect(q, disk0, start, p, disk)
    requires t in p.begun && d in q.depends[t] && Considers(q, t, d) && d !in p.skipped
    ensures t !in p.skipped
  {
    assert d in p.complete;
    assert TaskEffect(q, disk0, start, p, disk, d);
    assert TaskEffect(q, disk0, start, p, disk, t);
  }

  lemma StaleItself(q: Queue, disk0: Disk, start: int, number_tasks: int, p: Progress, disk: Disk, t: TaskId)
    requires Sound(q) && OldStamps(q, disk0, start)
    requires p.Accounted(q.depends, number_tasks) && Effect(q, disk0, start, p, disk)
    requires t in p.begun && !Current(q, disk0, t)
    ensures t !in p.skipped
  {
    assert TaskEffect(q, disk0, start, p, disk, t);
    if q.stampfile[t] in disk0 && !q.nostamp[t] {
      var d :| d in q.depends[t] && Considers(q, t, d) &&
        !(q.stampfile[d] in disk0 && disk0[q.stampfile[d]] <= disk0[q.stampfile[t]]);
      assert d in p.complete;
      assert TaskEffect(q, disk0, start, p, disk, d);
    }
  }

  lemma {:induction false} StalePath(q: Queue, disk0: Disk, start: int, number_tasks: int, p: Progress, disk: Disk,
                                     path: seq<TaskId>)
    requires Sound(q) && OldStamps(q, disk0, start)
    requires p.Accounted(q.depends, number_tasks) && Effect(q, disk0, start, p, disk)
    requires IsPath(Considered(q), path) && path[0] in p.begun && !Current(q, disk0, path[|path|-1])
    ensures path[0] !in p.skipped
  {
    var t := path[0];
    if |path| == 1 {
      StaleItself(q, disk0, start, number_tasks, p, disk, t);
    } else {
      var d := path[1];
      assert path[0+1] in Considered(q)[path[0]];
      assert d in q.depends[t] && d in p.complete;
      PathSlice(Considered(q), path, 1, |path|);
      StalePath(q, disk0, start, number_tasks, p, disk, path[1..]);
      StaleSpreads(q, disk0, start, number_tasks, p, disk, t, d);
    }
  }

  /** Incremental builds are exact: when all stamps are older than the run, a
      task that was reached is rebuilt if and only if it or something it
      considers was out of date. */
  lemma RebuildIsExact(q: Queue, disk0: Disk, start: int, number_tasks: int, p: Progress, disk: Disk, t: TaskId)
    requires Sound(q) && !Cyclic(q.depends) && OldStamps(q, disk0, start)
    requires p.Accounted(q.depends, number_tasks) && Effect(q, disk0, start, p, disk)
    requires t in p.begun
    ensures t in p.skipped <==> !NeedsRebuild(q, disk0, t)
  {
    if t !in p.skipped {
      OnlyStaleTasksRun(q, disk0, start, number_tasks, p, disk, t);
    }
    if NeedsRebuild(q, disk0, t) {
      var u :| Reaches(Considered(q), t, u) && 0 <= u < |q.depends| && !Current(q, disk0, u);
      var path :| PathBetween(Considered(q), path, t, u);
      StalePath(q, disk0, start, number_tasks, p, disk, path);
    }
  }

  /** A completed task is current afterwards exactly when it is allowed a stamp
      and the dependencies it considers have theirs. */
  lemma CompletedIsCurrent(q: Queue, disk0: Disk, start: int, number_tasks: int, p: Progress, disk: Disk, t: TaskId)
    requires Sound(q) && p.Accounted(q.depends, number_tasks) && Effect(q, disk0, start, p, disk)
    requires t in p.complete
    ensures Current(q, disk, t) <==>
      !q.nostamp[t] && forall d :: d in q.depends[t] && Considers(q, t, d) ==> q.stampfile[d] in disk
  {
    assert TaskEffect(q, disk0, start, p, disk, t);
  }

  lemma EverythingIsCurrent(q: Queue, number_tasks: int, disk0: Disk, start: int, p: Progress, disk1: Disk)
    requires Sound(q) && forall t :: 0 <= t < |q.nostamp| ==> !q.nostamp[t]
    requires p.Accounted(q.depends, number_tasks) && Effect(q, disk0, start, p, disk1)
    requires forall t :: 0 <= t < |q.depends| ==> t in p.complete
    ensures forall t :: 0 <= t < |q.depends| ==> Current(q, disk1, t)
  {
    forall t | 0 <= t < |q.depends|
      ensures Current(q, disk1, t)
    {
      CompletedIsCurrent(q, disk0, start, number_tasks, p, disk1, t);
      forall d | d in q.depends[t]
        ensures q.stampfile[d] in disk1
      {
        assert TaskEffect(q, disk0, start, p, disk1, d);
      }
    }
  }

  /** After a run that completed every task, a second run skips every task. */
  lemma SecondRunSkipsAll(q: Queue, number_tasks: int, disk0: Disk, start: int, p: Progress, disk1: Disk,
                          number_tasks2: int, start2: int, p2: Progress, disk2: Disk)
    requires Sound(q) && !Cyclic(q.depends) && forall t :: 0 <= t < |q.nostamp| ==> !q.nostamp[t]
    requires p.Accounted(q.depends, number_tasks) && Effect(q, disk0, start, p, disk1)
    requires forall t :: 0 <= t < |q.depends| ==> t in p.complete
    requires p2.Accounted(q.depends, number_tasks2) && Effect(q, disk1, start2, p2, disk2)
    ensures p2.begun == p2.skipped && p2.failed == {}
    ensures p2.Quiet(q.depends) ==> forall t :: 0 <= t < |q.depends| ==> t in p2.skipped
    ensures forall t :: 0 <= t < |q.depends| ==> SameStamp(disk1, disk2, q.stampfile[t])
  {
    EverythingIsCurrent(q, number_tasks, disk0, start, p, disk1);
    hide Current, StampsUpTo;
    forall t | t in p2.begun
      ensures t in p2.skipped
    {
      if t !in p2.skipped {
        OnlyStaleTasksRun(q, disk1, start2, number_tasks2, p2, disk2, t);
        assert false;
      }
    }
    forall t | 0 <= t < |q.depends|
      ensures SameStamp(disk1, disk2, q.stampfile[t])
    {
      assert TaskEffect(q, disk1, start2, p2, disk2, t);
    }
    forall t | 0 <= t < |q.depends| && p2.Quiet(q.depends)
      ensures t in p2.skipped
    {
      UnrunExactlyBelowFailures(q.depends, number_tasks2, p2, t);
    }
  }
}
