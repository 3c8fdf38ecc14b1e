/** TaskData: the tables that tie targets to the files that provide them, and
the removal of files and targets that cannot be built. */
module TaskDatas {
  import opened Collections
  import opened Confinement
  import opened Failures
  import opened Resolution

  /** What add_provider_internal and add_rprovider end with: normally, with their
      own exception, or with one from a failure that reached an external target. */
  datatype Outcome = Entered | NoProvider | Aborted

  class TaskData {
    const abort: bool

    var build_names_index: seq<string>
    var run_names_index: seq<string>
    var fn_index: seq<string>
    var build_targets: map<int, seq<int>>
    var run_targets: map<int, seq<int>>
    var external_targets: seq<int>
    var tasks_fnid: seq<int>
    var tasks_name: seq<string>
    var tasks_tdepends: seq<seq<int>>
    var tasks_idepends: seq<seq<(int, string)>>
    var tasks_lookup: map<int, map<string, int>>
    var depids: map<int, seq<int>>
    var rdepids: map<int, seq<int>>
    var failed_deps: seq<int>
    var failed_rdeps: seq<int>
    var failed_fnids: seq<int>

    ghost function S(): State
      reads `failed_fnids, `failed_deps, `failed_rdeps, `build_targets, `run_targets
    {
      State(Failed(Elements(failed_fnids), Elements(failed_deps), Elements(failed_rdeps)), build_targets, run_targets)
    }

    constructor (abort: bool)
      ensures this.abort == abort && IsEmpty()
    {
      this.abort := abort;
      build_names_index, run_names_index, fn_index := [], [], [];
      build_targets, run_targets, external_targets := map[], map[], [];
      tasks_fnid, tasks_name, tasks_tdepends, tasks_idepends, tasks_lookup := [], [], [], [], map[];
      depids, rdepids := map[], map[];
      failed_deps, failed_rdeps, failed_fnids := [], [], [];
    }

    ghost predicate IsEmpty()
      reads this
    {
      && build_names_index == run_names_index == fn_index == tasks_name == []
      && tasks_fnid == failed_deps == failed_rdeps == failed_fnids == external_targets == []
      && build_targets == run_targets == depids == rdepids == map[]
      && tasks_tdepends == [] && tasks_idepends == [] && tasks_lookup == map[]
    }

    /** Resolution can start from nothing. */
    lemma EmptyIsConsistent(dc: DataCache)
      requires IsEmpty()
      ensures Consistent(dc)
    {
      assert S().failed == Failed({}, {}, {});
    }

    /** The dependency tables name known files only, and needs is what they say. */
    ghost predicate Tables(needs: Needs)
      reads `fn_index, `depids, `rdepids, `tasks_fnid, `tasks_idepends
    {
      && |tasks_fnid| == |tasks_idepends|
      && needs == NeedsOf(depids, rdepids, tasks_fnid, tasks_idepends)
      && (forall f, t :: (f, t) in needs.build ==> 0 <= f < |fn_index|)
      && (forall f, t :: (f, t) in needs.run ==> 0 <= f < |fn_index|)
    }

    ghost predicate FailedKnown()
      reads `fn_index, `failed_fnids
    {
      forall f :: f in failed_fnids ==> 0 <= f < |fn_index|
    }

    /** get_dependees / get_rdependees on one of the dependency tables. */
    static method Dependees(table: map<int, seq<int>>, itemid: int) returns (dependees: seq<int>)
      ensures forall f :: f in dependees <==> f in table && itemid in table[f]
    {
      dependees := [];
      var rest := table.Keys;
      while rest != {}
        invariant rest <= table.Keys
        invariant forall f :: f in dependees <==> f in table && f !in rest && itemid in table[f]
      {
        ghost var some := Member(rest);
        var fnid :| fnid in rest;
        rest := rest - {fnid};
        if itemid in table[fnid] {
          dependees := dependees + [fnid];
        }
      }
    }

    /** No externally requested target is among the newly failed ones. */
    static ghost predicate ExternalsKept(external: seq<int>, before: set<int>, after: set<int>) {
      forall x :: x in after && x !in before ==> x !in external
    }

    /** fail_fnid.  raised is the NoProvider exception. */
    method FailFnid(fnid: int, ghost needs: Needs) returns (raised: bool)
      requires Tables(needs) && FailedKnown() && 0 <= fnid < |fn_index|
      requires AllDistinct(build_targets) && AllDistinct(run_targets)
      modifies `failed_fnids, `failed_deps, `failed_rdeps, `build_targets, `run_targets
      ensures FailedKnown() && Within(old(S()).failed, S().failed) && fnid in S().failed.files
      ensures !raised ==> After(needs, old(S()), S())
      ensures Forced(needs, old(S()), File(fnid), S())
      ensures raised ==> abort && exists x :: x in external_targets && x in failed_deps
      ensures !raised && abort ==> ExternalsKept(external_targets, old(S()).failed.builds, S().failed.builds)
      ensures AllDistinct(build_targets) && AllDistinct(run_targets)
      decreases |fn_index| - |Elements(failed_fnids)|, 0
    {
      hide After, Leaving, Bound, Forced, AllDistinct, Within;
      ghost var s := S();
      if fnid in failed_fnids {
        AfterSelf(needs, s);
        AfterWithin(needs, s, s);
        ForcedSelf(needs, s, File(fnid));
        return false;
      }
      ElementsAppend(failed_fnids, fnid);
      failed_fnids := failed_fnids + [fnid];
      LeavingStarts(needs, s, fnid);
      ForcedFile(needs, s, fnid);
      BelowFinite(Elements(failed_fnids), |fn_index|);
      raised := LeaveBuildLists(fnid, needs, s);
      if raised {
        return;
      }
      BelowFinite(Elements(failed_fnids), |fn_index|);
      MoreFailed(s.failed.files, S().failed.files, fnid);
      WithinFiles(s.failed, S().failed);
      raised := LeaveRunLists(fnid, needs, s);
      if raised {
        return;
      }
      LeavingEnds(needs, s, S(), fnid);
    }

    /** The first loop of fail_fnid, in whatever order the dictionary is walked. */
    method LeaveBuildLists(fnid: int, ghost needs: Needs, ghost s: State) returns (raised: bool)
      requires Tables(needs) && FailedKnown() && |Elements(failed_fnids)| <= |fn_index|
      requires AllDistinct(s.build) && AllDistinct(s.run)
      requires Leaving(needs, s, S(), fnid, s.build.Keys, s.run.Keys) && Forced(needs, s, File(fnid), S())
      requires ExternalsKept(external_targets, s.failed.builds, S().failed.builds)
      modifies `failed_fnids, `failed_deps, `failed_rdeps, `build_targets, `run_targets
      ensures FailedKnown() && Within(s.failed, S().failed) && fnid in S().failed.files
      ensures old(S()).failed.files <= S().failed.files
      ensures Forced(needs, s, File(fnid), S())
      ensures raised ==> abort && exists x :: x in external_targets && x in failed_deps
      ensures !raised ==> Leaving(needs, s, S(), fnid, {}, s.run.Keys)
      ensures !raised && abort ==> ExternalsKept(external_targets, s.failed.builds, S().failed.builds)
      ensures AllDistinct(build_targets) && AllDistinct(run_targets)
      decreases |fn_index| - |Elements(failed_fnids)|, 5
    {
      hide After, Leaving, Bound, Forced, AllDistinct, RemoveFirst, Within, Tables;
      LeavingDistinct(needs, s, S(), fnid, s.build.Keys, s.run.Keys, 0);
      raised := false;
      var rest := build_targets.Keys;
      while rest != {}
        invariant rest <= s.build.Keys && FailedKnown()
        invariant Leaving(needs, s, S(), fnid, rest, s.run.Keys)
        invariant Forced(needs, s, File(fnid), S())
        invariant abort ==> ExternalsKept(external_targets, s.failed.builds, S().failed.builds)
        invariant old(S()).failed.files <= S().failed.files
        decreases rest
      {
        ghost var some := Member(rest);
        var target :| target in rest;
        ghost var s1 := S();
        BuildStep(needs, s, s1, fnid, rest, target);
        LeavingDistinct(needs, s, s1, fnid, rest, s.run.Keys, target);
        if fnid in build_targets[target] {
          ForcedBuildRemove(needs, s, fnid, s1, target);
          build_targets := build_targets[target := RemoveFirst(build_targets[target], fnid)];
          if |build_targets[target]| == 0 {
            MoreFailed(old(S()).failed.files, S().failed.files, fnid);
            BelowFinite(Elements(failed_fnids), |fn_index|);
            raised := RemoveBuildtarget(target, needs);
            ForcedBuildSpread(needs, s, fnid, s1, target, S());
            WithinTrans(s.failed, s1.failed, S().failed);
            WithinFiles(s1.failed, S().failed);
            if raised {
              return;
            }
            BuildSpread(needs, s, s1, S(), fnid, rest, target);
          }
        }
        rest := rest - {target};
      }
      LeavingDistinct(needs, s, S(), fnid, {}, s.run.Keys, 0);
    }

    /** The second loop of fail_fnid. */
    method LeaveRunLists(fnid: int, ghost needs: Needs, ghost s: State) returns (raised: bool)
      requires Tables(needs) && FailedKnown() && |Elements(failed_fnids)| <= |fn_index|
      requires AllDistinct(s.build) && AllDistinct(s.run)
      requires Leaving(needs, s, S(), fnid, {}, s.run.Keys) && Forced(needs, s, File(fnid), S())
      requires abort ==> ExternalsKept(external_targets, s.failed.builds, S().failed.builds)
      modifies `failed_fnids, `failed_deps, `failed_rdeps, `build_targets, `run_targets
      ensures FailedKnown() && Within(s.failed, S().failed) && fnid in S().failed.files
      ensures Forced(needs, s, File(fnid), S())
      ensures raised ==> abort && exists x :: x in external_targets && x in failed_deps
      ensures !raised ==> Leaving(needs, s, S(), fnid, {}, {})
      ensures !raised && abort ==> ExternalsKept(external_targets, s.failed.builds, S().failed.builds)
      ensures AllDistinct(build_targets) && AllDistinct(run_targets)
      decreases |fn_index| - |Elements(failed_fnids)|, 5
    {
      hide After, Leaving, Bound, Forced, AllDistinct, RemoveFirst, Within, Tables;
      LeavingDistinct(needs, s, S(), fnid, {}, s.run.Keys, 0);
      raised := false;
      var rest := run_targets.Keys;
      while rest != {}
        invariant rest <= s.run.Keys && FailedKnown()
        invariant Leaving(needs, s, S(), fnid, {}, rest)
        invariant Forced(needs, s, File(fnid), S())
        invariant abort ==> ExternalsKept(external_targets, s.failed.builds, S().failed.builds)
        invariant old(S()).failed.files <= S().failed.files
        decreases rest
      {
        ghost var some := Member(rest);
        var target :| target in rest;
        ghost var s1 := S();
        RunStep(needs, s, s1, fnid, rest, target);
        LeavingDistinct(needs, s, s1, fnid, {}, rest, target);
        if fnid in run_targets[target] {
          ForcedRunRemove(needs, s, fnid, s1, target);
          run_targets := run_targets[target := RemoveFirst(run_targets[target], fnid)];
          if |run_targets[target]| == 0 {
            MoreFailed(old(S()).failed.files, S().failed.files, fnid);
            BelowFinite(Elements(failed_fnids), |fn_index|);
            raised := RemoveRuntarget(target, needs);
            ForcedRunSpread(needs, s, fnid, s1, target, S());
            WithinTrans(s.failed, s1.failed, S().failed);
            WithinFiles(s1.failed, S().failed);
            if raised {
              return;
            }
            RunSpread(needs, s, s1, S(), fnid, rest, target);
          }
        }
        rest := rest - {target};
      }
      LeavingDistinct(needs, s, S(), fnid, {}, {}, 0);
    }

    /** The failure of a target, on its way from s (and the target itself) to now. */
    ghost predicate Spreading(needs: Needs, s: State, seed: Seed)
      reads `fn_index, `failed_fnids, `failed_deps, `failed_rdeps, `build_targets, `run_targets, `external_targets
    {
      && FailedKnown()
      && After(needs, Seeded(s, seed), S())
      && Forced(needs, s, seed, S())
      && (abort ==> ExternalsKept(external_targets, Seeded(s, seed).failed.builds, S().failed.builds))
    }

    /** Fail one file that needs the failed target. */
    method FailDependee(fnid: int, ghost needs: Needs, ghost s: State, ghost seed: Seed) returns (raised: bool)
      requires Tables(needs) && Spreading(needs, s, seed) && AllDistinct(s.build) && AllDistinct(s.run)
      requires match seed case File(_) => false
        case Build(x) => (fnid, x) in needs.build
        case Run(x) => (fnid, x) in needs.run
      modifies `failed_fnids, `failed_deps, `failed_rdeps, `build_targets, `run_targets
      ensures fnid in S().failed.files && old(S()).failed.files <= S().failed.files
      ensures FailedKnown() && Within(Seeded(s, seed).failed, S().failed) && Forced(needs, s, seed, S())
      ensures raised ==> abort && exists x :: x in external_targets && x in failed_deps
      ensures !raised ==> Spreading(needs, s, seed)
      ensures AllDistinct(build_targets) && AllDistinct(run_targets)
      decreases |fn_index| - |Elements(failed_fnids)|, 1
    {
      hide After, Leaving, Bound, Forced, AllDistinct, Within;
      ghost var s1 := S();
      ghost var s0 := Seeded(s, seed);
      AfterDistinct(needs, s0, s1);
      raised := FailFnid(fnid, needs);
      AfterWithin(needs, s0, s1);
      WithinTrans(s0.failed, s1.failed, S().failed);
      WithinFiles(s1.failed, S().failed);
      ForcedDependee(needs, s, seed, s1, fnid, S());
      if !raised {
        AfterTrans(needs, s0, s1, S());
      }
    }

    /** The loop over get_dependees in remove_buildtarget and remove_runtarget. */
    method FailDependees(dependees: seq<int>, ghost needs: Needs, ghost s: State, ghost seed: Seed)
        returns (raised: bool)
      requires Tables(needs) && Spreading(needs, s, seed) && AllDistinct(s.build) && AllDistinct(s.run)
      requires match seed case File(_) => false
        case Build(x) => forall f :: f in dependees ==> (f, x) in needs.build
        case Run(x) => forall f :: f in dependees ==> (f, x) in needs.run
      modifies `failed_fnids, `failed_deps, `failed_rdeps, `build_targets, `run_targets
      ensures FailedKnown() && Within(Seeded(s, seed).failed, S().failed) && Forced(needs, s, seed, S())
      ensures old(S()).failed.files <= S().failed.files
      ensures raised ==> abort && exists x :: x in external_targets && x in failed_deps
      ensures !raised ==> Spreading(needs, s, seed) && forall f :: f in dependees ==> f in S().failed.files
      ensures AllDistinct(build_targets) && AllDistinct(run_targets)
      decreases |fn_index| - |Elements(failed_fnids)|, 2
    {
      hide After, Leaving, Bound, Forced, AllDistinct, Within;
      AfterWithin(needs, Seeded(s, seed), S());
      AfterDistinct(needs, Seeded(s, seed), S());
      for i := 0 to |dependees|
        invariant AllDistinct(build_targets) && AllDistinct(run_targets)
        invariant Spreading(needs, s, seed) && Within(Seeded(s, seed).failed, S().failed)
        invariant old(S()).failed.files <= S().failed.files
        invariant forall k :: 0 <= k < i ==> dependees[k] in S().failed.files
      {
        BelowFinite(Elements(failed_fnids), |fn_index|);
        MoreFailed(old(S()).failed.files, S().failed.files, 0);
        assert dependees[i] in dependees;
        raised := FailDependee(dependees[i], needs, s, seed);
        if raised {
          return;
        }
      }
      raised := false;
    }

    /** remove_buildtarget */
    method RemoveBuildtarget(targetid: int, ghost needs: Needs) returns (raised: bool)
      requires Tables(needs) && FailedKnown()
      requires AllDistinct(build_targets) && AllDistinct(run_targets)
      modifies `failed_fnids, `failed_deps, `failed_rdeps, `build_targets, `run_targets
      ensures FailedKnown() && Within(old(S()).failed, S().failed) && targetid in S().failed.builds
      ensures !raised ==> After(needs, old(S()), S()) && Settled(needs.build, targetid, S().failed.files)
      ensures !raised ==> forall f :: f in depids && targetid in depids[f] ==> f in failed_fnids
      ensures !raised ==> forall k, e :: 0 <= k < |tasks_idepends| && e in tasks_idepends[k] && e.0 == targetid ==>
        tasks_fnid[k] in failed_fnids
      ensures Forced(needs, old(S()), Build(targetid), S())
      ensures raised ==> abort && exists x :: x in external_targets && x in failed_deps
      ensures !raised && abort ==> targetid !in external_targets
      ensures !raised && abort ==> ExternalsKept(external_targets, old(S()).failed.builds, S().failed.builds)
      ensures AllDistinct(build_targets) && AllDistinct(run_targets)
      decreases |fn_index| - |Elements(failed_fnids)|, 4
    {
      hide After, Leaving, Bound, Forced, AllDistinct, Within;
      ghost var s, seed := S(), Build(targetid);
      ghost var s0 := Seeded(s, seed);
      ElementsAppend(failed_deps, targetid);
      failed_deps := failed_deps + [targetid];
      assert S() == s0;
      AfterSelf(needs, s0);
      ForcedBuildTarget(needs, s, targetid);
      SeededWithin(s, seed);
      var dependees := Dependees(depids, targetid);
      raised := FailDependees(dependees, needs, s, seed);
      WithinTrans(s.failed, s0.failed, S().failed);
      WithinFiles(s0.failed, S().failed);
      if raised {
        return;
      }
      BelowFinite(Elements(failed_fnids), |fn_index|);
      MoreFailed(s.failed.files, S().failed.files, 0);
      raised := FailIdepends(targetid, needs, s);
      WithinTrans(s.failed, s0.failed, S().failed);
      WithinFiles(s0.failed, S().failed);
      if raised {
        return;
      }
      AfterBuildTarget(needs, s, targetid, S());
      SettledBuilds(depids, rdepids, tasks_fnid, tasks_idepends, targetid, S().failed.files);
      if abort && targetid in external_targets {
        return true;
      }
    }

    /** The loop over the inter-task dependencies in remove_buildtarget. */
    method FailIdepends(targetid: int, ghost needs: Needs, ghost s: State) returns (raised: bool)
      requires Tables(needs) && Spreading(needs, s, Build(targetid)) && AllDistinct(s.build) && AllDistinct(s.run)
      requires forall f :: f in depids && targetid in depids[f] ==> f in S().failed.files
      modifies `failed_fnids, `failed_deps, `failed_rdeps, `build_targets, `run_targets
      ensures FailedKnown() && Within(Seeded(s, Build(targetid)).failed, S().failed) &&
        Forced(needs, s, Build(targetid), S())
      ensures raised ==> abort && exists x :: x in external_targets && x in failed_deps
      ensures !raised ==> Spreading(needs, s, Build(targetid)) && Settled(needs.build, targetid, S().failed.files)
      ensures AllDistinct(build_targets) && AllDistinct(run_targets)
      decreases |fn_index| - |Elements(failed_fnids)|, 3
    {
      hide After, Leaving, Bound, Forced, AllDistinct, Within;
      AfterWithin(needs, Seeded(s, Build(targetid)), S());
      AfterDistinct(needs, Seeded(s, Build(targetid)), S());
      raised := false;
      for taskid := 0 to |tasks_idepends|
        invariant AllDistinct(build_targets) && AllDistinct(run_targets)
        invariant Spreading(needs, s, Build(targetid)) && Within(Seeded(s, Build(targetid)).failed, S().failed)
        invariant old(S()).failed.files <= S().failed.files
        invariant forall k, e :: 0 <= k < taskid && e in tasks_idepends[k] && e.0 == targetid ==>
          tasks_fnid[k] in S().failed.files
      {
        var idepends := tasks_idepends[taskid];
        for j := 0 to |idepends|
          invariant AllDistinct(build_targets) && AllDistinct(run_targets)
          invariant Spreading(needs, s, Build(targetid)) && Within(Seeded(s, Build(targetid)).failed, S().failed)
          invariant old(S()).failed.files <= S().failed.files
          invariant forall k, e :: 0 <= k < taskid && e in tasks_idepends[k] && e.0 == targetid ==>
            tasks_fnid[k] in S().failed.files
          invariant forall i :: 0 <= i < j && idepends[i].0 == targetid ==> tasks_fnid[taskid] in S().failed.files
        {
          if idepends[j].0 == targetid {
            BelowFinite(Elements(failed_fnids), |fn_index|);
            MoreFailed(old(S()).failed.files, S().failed.files, 0);
            assert idepends[j] in tasks_idepends[taskid];
            raised := FailDependee(tasks_fnid[taskid], needs, s, Build(targetid));
            if raised {
              return;
            }
          }
        }
      }
    }

    /** remove_runtarget */
    method RemoveRuntarget(targetid: int, ghost needs: Needs) returns (raised: bool)
      requires Tables(needs) && FailedKnown()
      requires AllDistinct(build_targets) && AllDistinct(run_targets)
      modifies `failed_fnids, `failed_deps, `failed_rdeps, `build_targets, `run_targets
      ensures FailedKnown() && Within(old(S()).failed, S().failed) && targetid in S().failed.runs
      ensures !raised ==> After(needs, old(S()), S()) && Settled(needs.run, targetid, S().failed.files)
      ensures !raised ==> forall f :: f in rdepids && targetid in rdepids[f] ==> f in failed_fnids
      ensures Forced(needs, old(S()), Run(targetid), S())
      ensures raised ==> abort && exists x :: x in external_targets && x in failed_deps
      ensures !raised && abort ==> ExternalsKept(external_targets, old(S()).failed.builds, S().failed.builds)
      ensures AllDistinct(build_targets) && AllDistinct(run_targets)
      decreases |fn_index| - |Elements(failed_fnids)|, 4
    {
      hide After, Leaving, Bound, Forced, AllDistinct, Within;
      ghost var s, seed := S(), Run(targetid);
      ghost var s0 := Seeded(s, seed);
      ElementsAppend(failed_rdeps, targetid);
      failed_rdeps := failed_rdeps + [targetid];
      assert S() == s0;
      AfterSelf(needs, s0);
      ForcedRunTarget(needs, s, targetid);
      SeededWithin(s, seed);
      var dependees := Dependees(rdepids, targetid);
      raised := FailDependees(dependees, needs, s, seed);
      WithinTrans(s.failed, s0.failed, S().failed);
      WithinFiles(s0.failed, S().failed);
      if raised {
        return;
      }
      AfterRunTarget(needs, s, targetid, S());
    }

    // --- ids ---

    ghost predicate Indexed()
      reads `build_names_index, `run_names_index, `fn_index
    {
      Distinct(build_names_index) && Distinct(run_names_index) && Distinct(fn_index)
    }

    ghost predicate TaskLists()
      reads `build_names_index, `fn_index, `tasks_fnid, `tasks_name, `tasks_tdepends, `tasks_idepends, `tasks_lookup
    {
      LookedUp(TaskTable(), tasks_lookup)
    }

    ghost function TaskTable(): TaskTables
      reads `build_names_index, `fn_index, `tasks_fnid, `tasks_name, `tasks_tdepends, `tasks_idepends
    {
      TaskTables(fn_index, build_names_index, tasks_name, tasks_fnid, tasks_tdepends, tasks_idepends)
    }

    /** The dependency tables hold what the metadata says. */
    ghost predicate Ranges(dc: DataCache)
      reads `build_names_index, `run_names_index, `fn_index, `depids, `rdepids
    {
      SpellsAll(depids, fn_index, build_names_index, dc.deps) &&
        SpellsAll(rdepids, fn_index, run_names_index, dc.rundeps)
    }

    ghost predicate Resting()
      reads `failed_fnids, `failed_deps, `failed_rdeps, `build_targets, `run_targets, `depids, `rdepids
    {
      AtRest(DirectNeeds(depids, rdepids), S())
    }

    /** The tables fit together, even while failure is still to spread. */
    ghost predicate Usable(dc: DataCache)
      reads this
    {
      && Indexed() && TaskLists() && Asked(TaskTable(), dc) && Ranges(dc) && FailedKnown()
      && AllDistinct(build_targets) && AllDistinct(run_targets)
    }

    /** Failure has not got beyond these names, which obey the rules. */
    ghost predicate Safe(dc: DataCache, h: Hopeless)
      reads this
    {
      Rules(dc, h) && Confined(Names(), h)
    }

    lemma SafeFileHasNotFailed(dc: DataCache, h: Hopeless, fn: string)
      requires Safe(dc, h) && fn !in h.files
      ensures !HasFailed(Names(), fn)
    {
      SafeHasNotFailed(Names(), h, fn);
    }

    lemma SafeHasHope(dc: DataCache, h: Hopeless, w: string)
      requires Safe(dc, h) && w !in dc.ignored_dependencies
      ensures w in dc.providers ==> w in h.builds || !NoHope(dc.eligible(w), h.files)
      ensures dc.rproviders(w) != [] ==> w in h.runs || !NoHope(dc.religible(w), h.files)
    {
    }

    lemma SafeListKeepsHope(dc: DataCache, h: Hopeless, eligible: seq<string>, before: Tally)
      requires Safe(dc, h) && !NoHope(eligible, h.files)
      requires before.fns <= fn_index && before.s == S() && forall f :: f in failed_fnids ==> 0 <= f < |before.fns|
      ensures !NoHope(Dropped(eligible, 0, FailedNames(before)), h.files)
    {
      OlderFailedNames(before, Names());
      HopeStays(Names(), h, eligible);
    }

    /** The first file of the list is new and needs a failed target. */
    ghost predicate FirstIsDoomed(dc: DataCache, eligible: seq<string>)
      reads this
    {
      eligible != [] && Resting() && StartsDoomed(Names(), tasks_fnid, dc, eligible[0])
    }

    /** Between two steps of resolution. */
    ghost predicate Consistent(dc: DataCache)
      reads this
    {
      Usable(dc) && Resting()
    }

    /** With abort on, no externally requested target has failed. */
    ghost predicate Spared()
      reads `external_targets, `failed_deps
    {
      abort ==> forall x :: x in external_targets ==> x !in failed_deps
    }

    /** With abort on, an externally requested target may fail. */
    ghost predicate Doomed(names: seq<string>, h: Hopeless)
      reads `external_targets
    {
      abort && exists x :: x in external_targets && (0 <= x < |names| ==> names[x] in h.builds)
    }

    lemma DoomedEarlier(names: seq<string>, names': seq<string>, h: Hopeless)
      requires names <= names' && Doomed(names', h)
      ensures Doomed(names, h)
    {
    }

    /** An external target has failed within these names. */
    lemma LostIsDoomed(t: Tally, h: Hopeless)
      requires !Spared() && t.builds == build_names_index && Within(S().failed, ById(t, h))
      ensures Doomed(build_names_index, h)
    {
      var x :| x in external_targets && x in failed_deps;
      assert x in S().failed.builds;
    }

    lemma EarlierStill(a: Tally, b: Tally, h: Hopeless)
      requires Grew(a, b)
      ensures Doomed(b.builds, h) ==> Doomed(a.builds, h)
    {
    }

    lemma SafeButLost(dc: DataCache, h: Hopeless)
      requires Safe(dc, h) && !Spared()
      ensures Doomed(build_names_index, h)
    {
      var x :| x in external_targets && x in failed_deps;
      assert x in S().failed.builds;
    }

    ghost function FullNeeds(): Needs
      requires |tasks_fnid| == |tasks_idepends|
      reads `depids, `rdepids, `tasks_fnid, `tasks_idepends
    {
      NeedsOf(depids, rdepids, tasks_fnid, tasks_idepends)
    }

    /** gettask_id with create: the one id of the task, new only if it had none. */
    method GetTaskId(fn: string, task: string) returns (id: nat)
      requires Indexed() && TaskLists()
      modifies `fn_index, `tasks_fnid, `tasks_name, `tasks_tdepends, `tasks_idepends, `tasks_lookup
      ensures Indexed() && TaskLists() && Extends(old(TaskTable()), TaskTable()) && IsTask(TaskTable(), id, fn, task)
      ensures Widened(old(TaskTable()), TaskTable())
      ensures id < |old(tasks_name)| ==> |tasks_name| == |old(tasks_name)|
      ensures id >= |old(tasks_name)| ==>
        id == |old(tasks_name)| && |tasks_name| == id + 1 && tasks_tdepends[id] == [] && tasks_idepends[id] == []
    {
      hide LookedUp, Extends, IsTask;
      ghost var start, lookup := TaskTable(), tasks_lookup;
      Lengths(start, lookup);
      var fnid: nat;
      fn_index, fnid := IdOf(fn_index, fn);
      ghost var named := TaskTable();
      MoreFiles(start, named, lookup);
      if fnid in tasks_lookup {
        if task in tasks_lookup[fnid] {
          OldTaskLooked(named, lookup, fnid, task);
          return tasks_lookup[fnid][task];
        }
      }
      id := CreateTask(fnid, task);
      ExtendsTrans(start, named, TaskTable());
    }

    /** Lines 121-131: a new entry in the task lists. */
    method CreateTask(fnid: nat, task: string) returns (id: nat)
      requires TaskLists() && fnid < |fn_index| && (fnid in tasks_lookup ==> task !in tasks_lookup[fnid])
      modifies `tasks_fnid, `tasks_name, `tasks_tdepends, `tasks_idepends, `tasks_lookup
      ensures TaskLists() && Extends(old(TaskTable()), TaskTable()) && IsTask(TaskTable(), id, fn_index[fnid], task)
      ensures Widened(old(TaskTable()), TaskTable())
      ensures id == |old(tasks_name)| && |tasks_name| == |tasks_tdepends| == |tasks_idepends| == id + 1
      ensures tasks_tdepends[id] == [] && tasks_idepends[id] == []
    {
      hide LookedUp, Extends, IsTask;
      NewTaskLooked(TaskTable(), tasks_lookup, fnid, task);
      Lengths(TaskTable(), tasks_lookup);
      ghost var lookup := tasks_lookup;
      tasks_name := tasks_name + [task];
      tasks_fnid := tasks_fnid + [fnid];
      tasks_tdepends := tasks_tdepends + [[]];
      tasks_idepends := tasks_idepends + [[]];
      id := |tasks_name| - 1;
      if fnid !in tasks_lookup {
        tasks_lookup := tasks_lookup[fnid := map[]];
      }
      tasks_lookup := tasks_lookup[fnid := tasks_lookup[fnid][task := id]];
      assert tasks_lookup == lookup[fnid := (if fnid in lookup then lookup[fnid] else map[])[task := id]];
    }

    /** The first loop of add_tasks: task ids, parents and inter-task dependencies. */
    method AddTaskEntries(fn: string, dc: DataCache)
      requires Indexed() && TaskLists()
      modifies `build_names_index, `fn_index, `tasks_fnid, `tasks_name, `tasks_tdepends, `tasks_idepends, `tasks_lookup
      ensures Indexed() && TaskLists() && Extends(old(TaskTable()), TaskTable())
      ensures old(Asked(TaskTable(), dc)) ==> Asked(TaskTable(), dc)
      ensures forall d :: d in dc.tasks(fn) ==> Recorded(TaskTable(), fn, d)
    {
      hide Asked, Extends, Recorded, LookedUp;
      var decls := dc.tasks(fn);
      ghost var start := TaskTable();
      ExtendsSelf(start);
      for i := 0 to |decls|
        invariant Indexed() && TaskLists() && Extends(start, TaskTable())
        invariant Asked(start, dc) ==> Asked(TaskTable(), dc)
        invariant forall a :: 0 <= a < i ==> Recorded(TaskTable(), fn, decls[a])
      {
        ghost var before := TaskTable();
        AddTaskEntry(fn, decls[i], dc);
        ExtendsTrans(start, before, TaskTable());
        forall a | 0 <= a < i ensures Recorded(TaskTable(), fn, decls[a]) {
          RecordedStays(before, TaskTable(), fn, decls[a]);
        }
      }
    }

    /** Lines 151-165, for one task. */
    method AddTaskEntry(fn: string, decl: TaskDecl, dc: DataCache)
      requires Indexed() && TaskLists() && decl in dc.tasks(fn)
      modifies `build_names_index, `fn_index, `tasks_fnid, `tasks_name, `tasks_tdepends, `tasks_idepends, `tasks_lookup
      ensures Indexed() && TaskLists() && Extends(old(TaskTable()), TaskTable()) && Recorded(TaskTable(), fn, decl)
      ensures old(Asked(TaskTable(), dc)) ==> Asked(TaskTable(), dc)
    {
      hide Asked, Widened, Extends, IsTask, Recorded, LookedUp, WithTask;
      ghost var start := TaskTable();
      var parentids := GetTaskIds(fn, decl.parents);
      ghost var parented := TaskTable();
      var taskid := GetTaskId(fn, decl.name);
      ghost var named := TaskTable();
      ExtendsTrans(start, parented, named);
      TasksStay(parented, named, parentids, fn, decl.parents);
      var ids: seq<(int, string)>;
      build_names_index, ids := IdependIds(build_names_index, decl.idepends);
      ghost var spelt := TaskTable();
      SameTasks(named, spelt, taskid, fn, decl.name, tasks_lookup);
      ExtendsTrans(start, named, spelt);
      TasksStay(named, spelt, parentids, fn, decl.parents);
      Lengths(spelt, tasks_lookup);
      InLists(spelt, taskid, fn, decl.name);
      tasks_tdepends := tasks_tdepends[taskid := tasks_tdepends[taskid] + parentids];
      tasks_idepends := tasks_idepends[taskid := tasks_idepends[taskid] + ids];
      WithTaskIs(spelt, taskid, parentids, ids);
      TaskRecorded(spelt, taskid, fn, decl, parentids, ids);
      if Asked(start, dc) {
        WidenedTrans(start, parented, named);
        NamesWiden(named, spelt);
        WidenedTrans(start, named, spelt);
        WidenedAsked(start, spelt, dc);
        TaskStaysAsked(spelt, dc, taskid, fn, decl, parentids, ids);
      }
      WithTaskLooked(spelt, taskid, parentids, ids, tasks_lookup);
      ExtendsTrans(start, spelt, TaskTable());
    }

    /** The ids of several tasks of a file. */
    method GetTaskIds(fn: string, tasks: seq<string>) returns (ids: seq<int>)
      requires Indexed() && TaskLists()
      modifies `fn_index, `tasks_fnid, `tasks_name, `tasks_tdepends, `tasks_idepends, `tasks_lookup
      ensures Indexed() && TaskLists() && Extends(old(TaskTable()), TaskTable()) && |ids| == |tasks|
      ensures Widened(old(TaskTable()), TaskTable())
      ensures forall j :: 0 <= j < |ids| ==> IsTask(TaskTable(), ids[j], fn, tasks[j])
    {
      hide Extends, IsTask, LookedUp;
      ids := [];
      ghost var start := TaskTable();
      ExtendsSelf(start);
      for i := 0 to |tasks|
        invariant Indexed() && TaskLists() && Extends(start, TaskTable()) && |ids| == i && Widened(start, TaskTable())
        invariant forall j :: 0 <= j < i ==> IsTask(TaskTable(), ids[j], fn, tasks[j])
      {
        ghost var before := TaskTable();
        var id := GetTaskId(fn, tasks[i]);
        ExtendsTrans(start, before, TaskTable());
        WidenedTrans(start, before, TaskTable());
        forall j | 0 <= j < i ensures IsTask(TaskTable(), ids[j], fn, tasks[j]) {
          TaskStays(before, TaskTable(), ids[j], fn, tasks[j]);
        }
        ids := ids + [id];
      }
    }

    /** Lines 168-188: note what the file depends on, the first time. */
    method AddDependencies(fn: string, fnid: int, dc: DataCache)
      requires Indexed() && Ranges(dc) && 0 <= fnid < |fn_index| && fn_index[fnid] == fn
      modifies `build_names_index, `run_names_index, `depids, `rdepids
      ensures Indexed() && Ranges(dc) && old(build_names_index) <= build_names_index &&
        old(run_names_index) <= run_names_index
      ensures fnid in depids && fnid in rdepids
      ensures forall g, x :: (g, x) in DirectNeeds(depids, rdepids).build && g != fnid ==>
        (g, x) in DirectNeeds(old(depids), old(rdepids)).build
      ensures forall g, x :: (g, x) in DirectNeeds(depids, rdepids).run && g != fnid ==>
        (g, x) in DirectNeeds(old(depids), old(rdepids)).run
    {
      hide Spells;
      if fnid !in depids {
        var ids;
        ghost var before := build_names_index;
        build_names_index, ids := IdsOf(build_names_index, dc.deps(fn));
        SpellsAllGrows(depids, fn_index, before, dc.deps, fn_index, build_names_index);
        depids := depids[fnid := ids];
      }
      if fnid !in rdepids {
        var ids;
        ghost var before := run_names_index;
        run_names_index, ids := IdsOf(run_names_index, dc.rundeps(fn));
        SpellsAllGrows(rdepids, fn_index, before, dc.rundeps, fn_index, run_names_index);
        rdepids := rdepids[fnid := ids];
      }
      OnlyFileChanges(old(depids), old(rdepids), depids, rdepids, fnid);
    }

    /** Lines 149-188: the tasks and the dependencies of a file. */
    method EnterFile(fn: string, fnid: int, dc: DataCache, ghost h: Hopeless)
      requires Indexed() && TaskLists() && Ranges(dc) && 0 <= fnid < |fn_index| && fn_index[fnid] == fn
      modifies `build_names_index, `run_names_index, `fn_index, `tasks_fnid, `tasks_name, `tasks_tdepends,
               `tasks_idepends, `tasks_lookup, `depids, `rdepids
      ensures Indexed() && TaskLists() && Ranges(dc) && fnid in depids && fnid in rdepids
      ensures old(fn_index) <= fn_index && old(build_names_index) <= build_names_index &&
        old(run_names_index) <= run_names_index
      ensures old(Safe(dc, h)) ==> Safe(dc, h)
      ensures old(Asked(TaskTable(), dc)) ==> Asked(TaskTable(), dc)
      ensures forall d :: d in dc.tasks(fn) ==> Recorded(TaskTable(), fn, d)
      ensures forall g, x :: (g, x) in DirectNeeds(depids, rdepids).build && g != fnid ==>
        (g, x) in DirectNeeds(old(depids), old(rdepids)).build
      ensures forall g, x :: (g, x) in DirectNeeds(depids, rdepids).run && g != fnid ==>
        (g, x) in DirectNeeds(old(depids), old(rdepids)).run
    {
      hide Rules, Confined, Asked, Widened, SpellsAll, LookedUp, Distinct, Extends, Recorded, DirectNeeds;
      AddTaskEntries(fn, dc);
      ghost var entered := TaskTable();
      ExtendsMeans(old(TaskTable()), entered);
      SpellsAllGrows(depids, old(fn_index), old(build_names_index), dc.deps, fn_index, build_names_index);
      SpellsAllGrows(rdepids, old(fn_index), old(run_names_index), dc.rundeps, fn_index, run_names_index);
      AddDependencies(fn, fnid, dc);
      MoreBuilds(entered, TaskTable(), tasks_lookup);
      NamesWiden(entered, TaskTable());
      if Asked(entered, dc) {
        WidenedAsked(entered, TaskTable(), dc);
      }
      forall d | d in dc.tasks(fn) ensures Recorded(TaskTable(), fn, d) {
        RecordedStays(entered, TaskTable(), fn, d);
      }
      if old(Safe(dc, h)) {
        NamesAreConfined(old(Names()), Names(), h);
      }
    }

    lemma FailedNeedIsListed(dc: DataCache, fn: string, fnid: int, before: Tally)
      requires Indexed() && Ranges(dc) && NeedsFailed(before, dc, fn)
      requires before.builds <= build_names_index && before.runs <= run_names_index && before.s == S()
      requires fnid in depids && fnid in rdepids && 0 <= fnid < |fn_index| && fn_index[fnid] == fn
      ensures HasFailedNeed(fnid)
    {
      if x :| 0 <= x < |before.builds| && before.builds[x] in dc.deps(fn) && x in before.s.failed.builds {
        assert HasId(depids[fnid], build_names_index, before.builds[x]);
      } else {
        var x :| 0 <= x < |before.runs| && before.runs[x] in dc.rundeps(fn) && x in before.s.failed.runs;
        assert HasId(rdepids[fnid], run_names_index, before.runs[x]);
      }
    }

    /** add_tasks, for a file that has not failed. */
    method AddTasks(fn: string, fnid: int, dc: DataCache, ghost h: Hopeless) returns (aborted: bool)
      requires Usable(dc)
      requires 0 <= fnid < |fn_index| && fn_index[fnid] == fn && fnid !in failed_fnids
      modifies this
      ensures Usable(dc) && (!aborted && old(Resting()) ==> Resting())
      ensures !aborted ==> Grew(old(Names()), Names())
      ensures external_targets == old(external_targets)
      ensures Spared() <==> old(Spared()) && !aborted
      ensures !aborted ==>
        var gone := S().failed.files - old(S()).failed.files;
        Thinned(old(build_targets), build_targets, gone) && Thinned(old(run_targets), run_targets, gone)
      ensures old(Safe(dc, h)) ==> if aborted then Doomed(old(build_names_index), h) else Safe(dc, h)
      ensures !aborted && fnid !in old(tasks_fnid) && old(NeedsFailed(Names(), dc, fn)) ==> fnid in failed_fnids
      ensures !aborted && fnid !in old(tasks_fnid) ==> forall d :: d in dc.tasks(fn) ==> Recorded(TaskTable(), fn, d)
    {
      hide Safe, Indexed, TaskLists, Ranges, NeedsFailed, Asked, AtRest, After, Forced, Bound, AllDistinct;
      hide SpellsAll, LookedUp, Distinct, Extends, Recorded, DirectNeeds;
      hide Within, Grew, Thinned, Confined, Rules;
      if fnid in tasks_fnid {
        GrewSelf(Names());
        ThinnedByNone(build_targets);
        ThinnedByNone(run_targets);
        assert S().failed.files - old(S()).failed.files == {};
        return false;
      }
      ghost var before := DirectNeeds(depids, rdepids);
      EnterFile(fn, fnid, dc, h);
      if old(NeedsFailed(Names(), dc, fn)) {
        FailedNeedIsListed(dc, fn, fnid, old(Names()));
      }
      aborted := FailIfHopeless(fnid, before, dc, h);
      if aborted {
        if old(Safe(dc, h)) {
          DoomedEarlier(old(build_names_index), build_names_index, h);
        }
        return;
      }
      ThinnedIsKept(old(build_targets), build_targets, old(S()).failed.files, S().failed.files);
      ThinnedIsKept(old(run_targets), run_targets, old(S()).failed.files, S().failed.files);
      NamesGrew(old(Names()), Names());
    }

    ghost function Names(): Tally
      reads `build_names_index, `run_names_index, `fn_index, `failed_fnids, `failed_deps, `failed_rdeps,
      `build_targets, `run_targets
    {
      Tally(build_names_index, run_names_index, fn_index, S())
    }

    /** Failure may spread from here, and the needs are what the metadata asks for. */
    lemma SpellingAndNeeds(dc: DataCache)
      requires TaskLists() && Asked(TaskTable(), dc) && Ranges(dc)
      ensures |tasks_fnid| == |tasks_idepends| && Tables(FullNeeds()) && Spelled(FullNeeds(), Names(), dc)
    {
      hide Asked, SpellsAll, AllDistinct, Distinct;
      FullTables(depids, rdepids, tasks_fnid, tasks_idepends, |fn_index|, dc, fn_index, build_names_index,
                 run_names_index);
      NeedsAreSpelled(depids, rdepids, TaskTable(), Names(), dc);
    }

    /** The test of lines 190-197. */
    ghost predicate HasFailedNeed(fnid: int)
      requires fnid in depids && fnid in rdepids
      reads this
    {
      || (exists dep :: dep in depids[fnid] && dep in failed_deps)
      || (exists dep :: dep in rdepids[fnid] && dep in failed_rdeps)
    }

    lemma DoomedMayFail(dc: DataCache, h: Hopeless, fnid: int)
      requires TaskLists() && Asked(TaskTable(), dc) && Ranges(dc) && Safe(dc, h)
      requires fnid in depids && fnid in rdepids && HasFailedNeed(fnid)
      ensures 0 <= fnid < |fn_index| && fn_index[fnid] in h.files && Holds(ById(Names(), h), File(fnid))
    {
      if dep :| dep in depids[fnid] && dep in failed_deps {
        assert Spells(depids[fnid], build_names_index, dc.deps(fn_index[fnid]));
        assert WantsBuild(dc, fn_index[fnid], build_names_index[dep]);
      } else {
        var dep :| dep in rdepids[fnid] && dep in failed_rdeps;
        assert Spells(rdepids[fnid], run_names_index, dc.rundeps(fn_index[fnid]));
      }
    }

    /** Lines 190-197: a new file that needs a failed target fails at once. */
    method FailIfHopeless(fnid: int, ghost before: Needs, dc: DataCache, ghost h: Hopeless) returns (aborted: bool)
      requires Indexed() && TaskLists() && Asked(TaskTable(), dc) && Ranges(dc) && FailedKnown()
      requires AllDistinct(build_targets) && AllDistinct(run_targets)
      requires 0 <= fnid < |fn_index| && fnid in depids && fnid in rdepids
      requires forall g, x :: (g, x) in DirectNeeds(depids, rdepids).build && g != fnid ==> (g, x) in before.build
      requires forall g, x :: (g, x) in DirectNeeds(depids, rdepids).run && g != fnid ==> (g, x) in before.run
      modifies `failed_fnids, `failed_deps, `failed_rdeps, `build_targets, `run_targets
      ensures FailedKnown() && AllDistinct(build_targets) && AllDistinct(run_targets)
      ensures !aborted && old(AtRest(before, S())) ==> Resting()
      ensures Within(old(S()).failed, S().failed)
      ensures !aborted ==>
        var gone := S().failed.files - old(S()).failed.files;
        Thinned(old(build_targets), build_targets, gone) && Thinned(old(run_targets), run_targets, gone)
      ensures old(Safe(dc, h)) ==> if aborted then Doomed(build_names_index, h) else Safe(dc, h)
      ensures !aborted && old(HasFailedNeed(fnid)) ==> fnid in failed_fnids
      ensures Spared() <==> old(Spared()) && !aborted
    {
      hide Indexed, TaskLists, Ranges, Asked, AtRest, Rules, Confined, Thinned;
      if
        || (exists dep :: dep in depids[fnid] && dep in failed_deps)
        || (exists dep :: dep in rdepids[fnid] && dep in failed_rdeps)
      {
        aborted := FailNewFile(fnid, before, dc, h);
      } else {
        aborted := false;
        if AtRest(before, S()) {
          HopefulFileRests(before, DirectNeeds(depids, rdepids), S(), fnid);
        }
        ThinnedByNone(build_targets);
        ThinnedByNone(run_targets);
        assert S().failed.files - old(S()).failed.files == {};
      }
    }

    /** The file is doomed. */
    method FailNewFile(fnid: int, ghost before: Needs, dc: DataCache, ghost h: Hopeless) returns (aborted: bool)
      requires Indexed() && TaskLists() && Asked(TaskTable(), dc) && Ranges(dc) && FailedKnown()
      requires AllDistinct(build_targets) && AllDistinct(run_targets)
      requires 0 <= fnid < |fn_index| && fnid in depids && fnid in rdepids && HasFailedNeed(fnid)
      requires forall g, x :: (g, x) in DirectNeeds(depids, rdepids).build && g != fnid ==> (g, x) in before.build
      requires forall g, x :: (g, x) in DirectNeeds(depids, rdepids).run && g != fnid ==> (g, x) in before.run
      modifies `failed_fnids, `failed_deps, `failed_rdeps, `build_targets, `run_targets
      ensures FailedKnown() && AllDistinct(build_targets) && AllDistinct(run_targets)
      ensures !aborted && old(AtRest(before, S())) ==> Resting()
      ensures Within(old(S()).failed, S().failed)
      ensures !aborted ==>
        var gone := S().failed.files - old(S()).failed.files;
        Thinned(old(build_targets), build_targets, gone) && Thinned(old(run_targets), run_targets, gone)
      ensures old(Safe(dc, h)) ==> if aborted then Doomed(build_names_index, h) else Safe(dc, h)
      ensures !aborted ==> fnid in failed_fnids
      ensures Spared() <==> old(Spared()) && !aborted
    {
      hide Indexed, TaskLists, Ranges, Asked, AtRest, Rules, Confined, Bound, Forced;
      hide After, AllDistinct, Within, NeedsOf;
      SpellingAndNeeds(dc);
      ghost var needs, s, t := FullNeeds(), S(), Names();
      if Safe(dc, h) {
        DoomedMayFail(dc, h, fnid);
      }
      aborted := FailFnid(fnid, needs);
      WithinFiles(s.failed, S().failed);
      if aborted {
        if old(Safe(dc, h)) {
          SpreadStaysWithin(t, h, dc, needs, File(fnid), S());
          LostIsDoomed(t, h);
        }
        return;
      }
      if old(Safe(dc, h)) {
        SpreadIsConfined(t, h, dc, needs, File(fnid), S());
      }
      AfterThins(needs, s, S());
      DirectNeedsAreNeeds(depids, rdepids, tasks_fnid, tasks_idepends);
      FewerNeeds(needs, DirectNeeds(depids, rdepids), s, S());
      if AtRest(before, s) {
        NewFileRests(before, DirectNeeds(depids, rdepids), s, S(), fnid);
      }
    }

    /** getfn_id */
    method GetFnId(fn: string, dc: DataCache, ghost h: Hopeless) returns (fnid: nat)
      requires Usable(dc)
      modifies `fn_index
      ensures Usable(dc) && Grew(old(Names()), Names()) && fnid < |fn_index| && fn_index[fnid] == fn
      ensures old(Safe(dc, h)) ==> Safe(dc, h)
      ensures fn in old(fn_index) ==> fn_index == old(fn_index)
    {
      hide Rules, Confined, Asked, Widened, AtRest, SpellsAll, Distinct;
      ghost var before := TaskTable();
      fn_index, fnid := IdOf(fn_index, fn);
      NamesWiden(before, TaskTable());
      WidenedAsked(before, TaskTable(), dc);
      SpellsAllGrows(depids, old(fn_index), build_names_index, dc.deps, fn_index, build_names_index);
      SpellsAllGrows(rdepids, old(fn_index), run_names_index, dc.rundeps, fn_index, run_names_index);
      if old(Safe(dc, h)) {
        NamesAreConfined(old(Names()), Names(), h);
      }
    }

    /** getrun_id */
    method GetRunId(item: string, dc: DataCache, ghost h: Hopeless) returns (id: nat)
      requires Usable(dc)
      modifies `run_names_index
      ensures Usable(dc) && Grew(old(Names()), Names()) && id < |run_names_index| && run_names_index[id] == item
      ensures old(Safe(dc, h)) ==> Safe(dc, h)
      ensures item in old(run_names_index) ==> run_names_index == old(run_names_index)
    {
      hide Rules, Confined, Asked, Widened, AtRest, SpellsAll, LookedUp, Distinct;
      run_names_index, id := IdOf(run_names_index, item);
      SpellsAllGrows(rdepids, fn_index, old(run_names_index), dc.rundeps, fn_index, run_names_index);
      if old(Safe(dc, h)) {
        NamesAreConfined(old(Names()), Names(), h);
      }
    }

    /** getbuild_id */
    method GetBuildId(item: string, dc: DataCache, ghost h: Hopeless) returns (id: nat)
      requires Usable(dc)
      modifies `build_names_index
      ensures Usable(dc) && Grew(old(Names()), Names()) && id < |build_names_index| && build_names_index[id] == item
      ensures old(Safe(dc, h)) ==> Safe(dc, h)
      ensures item in old(build_names_index) ==> build_names_index == old(build_names_index)
    {
      hide Rules, Confined, Asked, Widened, AtRest, SpellsAll, Distinct;
      ghost var before := TaskTable();
      build_names_index, id := IdOf(build_names_index, item);
      NamesWiden(before, TaskTable());
      WidenedAsked(before, TaskTable(), dc);
      SpellsAllGrows(depids, fn_index, old(build_names_index), dc.deps, fn_index, build_names_index);
      if old(Safe(dc, h)) {
        NamesAreConfined(old(Names()), Names(), h);
      }
    }

    /** Names have one id each. */
    lemma IdsAreUnique(dc: DataCache)
      requires Usable(dc)
      ensures Distinct(build_names_index) && Distinct(run_names_index)
    {
    }

    lemma NamesAreUnique(dc: DataCache)
      requires Usable(dc)
      ensures Distinct(build_names_index) && Distinct(run_names_index) && Distinct(fn_index)
      ensures forall f :: f in failed_fnids ==> 0 <= f < |fn_index|
      ensures forall f :: f in Names().s.failed.files ==> 0 <= f < |fn_index|
    {
    }

    /** add_build_target */
    method AddBuildTarget(fnid: nat, item: string, dc: DataCache, ghost h: Hopeless) returns (targetid: nat)
      requires Usable(dc) && fnid < |fn_index| && fnid !in failed_fnids
      modifies `build_names_index, `build_targets
      ensures Usable(dc) && Grew(old(Names()), Names()) && (old(Resting()) ==> Resting())
      ensures targetid < |build_names_index| && build_names_index[targetid] == item
      ensures item in old(build_names_index) ==> build_names_index == old(build_names_index)
      ensures build_targets == WithProvider(old(build_targets), targetid, fnid)
      ensures BuildHandled(Names(), fn_index[fnid], item)
      ensures old(Safe(dc, h)) && (item in h.builds || targetid in old(build_targets) || fn_index[fnid] !in h.files) ==>
        Safe(dc, h)
    {
      hide Indexed, TaskLists, Ranges, AtRest, Asked, AllDistinct, Grew, BuildHandled, Rules, Confined;
      ghost var before := Names();
      targetid := GetBuildId(item, dc, h);
      ghost var middle, old_targets := Names(), build_targets;
      ProviderJoins(build_targets, targetid, fnid);
      if Resting() {
        BuildProviderRests(DirectNeeds(depids, rdepids), S(), targetid, fnid);
      }
      build_targets := WithProvider(build_targets, targetid, fnid);
      if old(Safe(dc, h)) && (item in h.builds || targetid in old_targets || fn_index[fnid] !in h.files) {
        BuildJoinIsConfined(middle, h, targetid, fnid);
      }
      ProviderGrew(middle, targetid, fnid);
      GrewTrans(before, middle, Names());
      BuildEntered(Names(), fnid, item, targetid);
    }

    /** add_build_target followed by add_tasks, lines 403-404. */
    method AddBuildProvider(fn: string, fnid: nat, item: string, dc: DataCache, ghost h: Hopeless)
        returns (targetid: nat, aborted: bool)
      requires Usable(dc) && fnid < |fn_index| && fn_index[fnid] == fn && fnid !in failed_fnids
      modifies this
      ensures Usable(dc) && (!aborted && old(Resting()) ==> Resting())
      ensures !aborted ==> Grew(old(Names()), Names())
      ensures external_targets == old(external_targets)
      ensures Spared() <==> old(Spared()) && !aborted
      ensures forall x :: 0 <= x < |old(build_names_index)| && old(build_names_index)[x] == item ==> x == targetid
      ensures !aborted ==> targetid < |build_names_index| && build_names_index[targetid] == item
      ensures !aborted ==> BuildHandled(Names(), fn, item) && targetid in build_targets
      ensures !aborted ==>
        var gone := S().failed.files - old(S()).failed.files;
        Thinned(WithProvider(old(build_targets), targetid, fnid), build_targets, gone)
      ensures old(Safe(dc, h)) && (item in h.builds || targetid in old(build_targets) || fn !in h.files) ==>
        if aborted then Doomed(old(build_names_index), h) else Safe(dc, h)
      ensures !aborted && targetid !in old(build_targets) ==>
        old(Resting() && fnid !in tasks_fnid && NeedsFailed(Names(), dc, fn)) ==>
        targetid in failed_deps
    {
      hide Usable, Grew, Within, BuildHandled, Safe, Thinned, AtRest, NeedsFailed, Doomed;
      ghost var before, old_targets := Names(), build_targets;
      targetid := AddBuildTarget(fnid, item, dc, h);
      ghost var middle, joined := Names(), build_targets;
      GrewMeans(before, middle);
      IdsAreUnique(dc);
      NeedStaysFailed(before, middle, dc, fn);
      aborted := AddTasks(fn, fnid, dc, h);
      if aborted {
        if Doomed(middle.builds, h) {
          DoomedEarlier(before.builds, middle.builds, h);
        }
        return;
      }
      HandledStays(middle, Names(), fn, item);
      GrewMeans(middle, Names());
      GrewTrans(before, middle, Names());
      ThinnedKeys(joined, build_targets, S().failed.files - old(S()).failed.files);
      if Resting() && targetid !in old_targets && fnid in failed_fnids {
        LastBuildProviderGone(DirectNeeds(depids, rdepids), S(), joined, S().failed.files - old(S()).failed.files,
                            targetid, fnid);
      }
    }

    /** add_runtime_target */
    method AddRunTarget(fnid: nat, item: string, dc: DataCache, ghost h: Hopeless) returns (targetid: nat)
      requires Usable(dc) && fnid < |fn_index| && fnid !in failed_fnids
      modifies `run_names_index, `run_targets
      ensures Usable(dc) && Grew(old(Names()), Names()) && (old(Resting()) ==> Resting())
      ensures targetid < |run_names_index| && run_names_index[targetid] == item
      ensures item in old(run_names_index) ==> run_names_index == old(run_names_index)
      ensures run_targets == WithProvider(old(run_targets), targetid, fnid) && RunHandled(Names(), fn_index[fnid], item)
      ensures old(Safe(dc, h)) && (item in h.runs || targetid in old(run_targets) || fn_index[fnid] !in h.files) ==>
        Safe(dc, h)
    {
      hide Indexed, TaskLists, Ranges, AtRest, Asked, AllDistinct, Grew, RunHandled, Rules, Confined;
      ghost var before := Names();
      targetid := GetRunId(item, dc, h);
      ghost var middle, old_targets := Names(), run_targets;
      ProviderJoins(run_targets, targetid, fnid);
      if Resting() {
        RunProviderRests(DirectNeeds(depids, rdepids), S(), targetid, fnid);
      }
      run_targets := WithProvider(run_targets, targetid, fnid);
      if old(Safe(dc, h)) && (item in h.runs || targetid in old_targets || fn_index[fnid] !in h.files) {
        RunJoinIsConfined(middle, h, targetid, fnid);
      }
      ProviderGrew(middle, targetid, fnid);
      GrewTrans(before, middle, Names());
      RunEntered(Names(), fnid, item, targetid);
    }

    /** The same for a runtime target, lines 466-467. */
    method AddRunProvider(fn: string, fnid: nat, item: string, dc: DataCache, ghost h: Hopeless)
        returns (targetid: nat, aborted: bool)
      requires Usable(dc) && fnid < |fn_index| && fn_index[fnid] == fn && fnid !in failed_fnids
      modifies this
      ensures Usable(dc) && (!aborted && old(Resting()) ==> Resting())
      ensures !aborted ==> Grew(old(Names()), Names())
      ensures external_targets == old(external_targets)
      ensures Spared() <==> old(Spared()) && !aborted
      ensures forall x :: 0 <= x < |old(run_names_index)| && old(run_names_index)[x] == item ==> x == targetid
      ensures !aborted ==> targetid < |run_names_index| && run_names_index[targetid] == item
      ensures !aborted ==> RunHandled(Names(), fn, item) && targetid in run_targets
      ensures !aborted ==>
        Thinned(WithProvider(old(run_targets), targetid, fnid), run_targets, S().failed.files - old(S()).failed.files)
      ensures old(Safe(dc, h)) && (item in h.runs || targetid in old(run_targets) || fn !in h.files) ==>
        if aborted then Doomed(old(build_names_index), h) else Safe(dc, h)
      ensures !aborted && targetid !in old(run_targets) ==>
        old(Resting() && fnid !in tasks_fnid && NeedsFailed(Names(), dc, fn)) ==>
        targetid in failed_rdeps
    {
      hide Usable, Grew, Within, RunHandled, Safe, Thinned, AtRest, NeedsFailed, Doomed;
      ghost var before, old_targets := Names(), run_targets;
      targetid := AddRunTarget(fnid, item, dc, h);
      ghost var middle, joined := Names(), run_targets;
      GrewMeans(before, middle);
      IdsAreUnique(dc);
      NeedStaysFailed(before, middle, dc, fn);
      aborted := AddTasks(fn, fnid, dc, h);
      if aborted {
        if Doomed(middle.builds, h) {
          DoomedEarlier(before.builds, middle.builds, h);
        }
        return;
      }
      HandledStays(middle, Names(), fn, item);
      GrewMeans(middle, Names());
      GrewTrans(before, middle, Names());
      ThinnedKeys(joined, run_targets, S().failed.files - old(S()).failed.files);
      if Resting() && targetid !in old_targets && fnid in failed_fnids {
        LastRunProviderGone(DirectNeeds(depids, rdepids), S(), joined, S().failed.files - old(S()).failed.files,
                            targetid, fnid);
      }
    }

    /** Lines 378-381 and 430-433: drop failed files from the list that is being
        walked.  After a removal the walk skips the next entry, as Python does;
        so failed files may stay, but no other file is dropped. */
    method DropFailed(eligible0: seq<string>, dc: DataCache, ghost h: Hopeless) returns (eligible: seq<string>)
      requires Usable(dc)
      modifies `fn_index
      ensures Usable(dc) && Grew(old(Names()), Names())
      ensures old(Safe(dc, h)) ==> Safe(dc, h)
      ensures eligible == Dropped(eligible0, 0, old(FailedNames(Names())))
      ensures forall p :: p in eligible ==> p in eligible0
      ensures forall p :: p in eligible0 ==> p in eligible || HasFailed(Names(), p)
      ensures old(Safe(dc, h)) && !NoHope(eligible0, h.files) ==> !NoHope(eligible, h.files)
      ensures old(FirstIsDoomed(dc, eligible0)) ==> FirstIsDoomed(dc, eligible)
    {
      hide Usable, Safe, Grew, HasFailed, Dropped;
      NamesAreUnique(dc);
      eligible := eligible0;
      GrewSelf(Names());
      ghost var failed := FailedNames(Names());
      var i := 0;
      while i < |eligible|
        invariant Usable(dc) && Grew(old(Names()), Names())
        invariant old(Safe(dc, h)) ==> Safe(dc, h)
        invariant Dropped(eligible, i, failed) == Dropped(eligible0, 0, failed)
        invariant forall p :: p in eligible ==> p in eligible0
        invariant forall p :: p in eligible0 ==> p in eligible || HasFailed(Names(), p)
        decreases |eligible| - i
      {
        var p := eligible[i];
        ghost var middle := Names();
        var fnid := GetFnId(p, dc, h);
        GrewTrans(old(Names()), middle, Names());
        GrewMeans(old(Names()), Names());
        forall q | q in eligible0 && q !in eligible ensures HasFailed(Names(), q) {
          FailureStays(middle, Names(), q);
        }
        IdMeansFailed(dc, old(Names()), p, fnid);
        DroppedStep(eligible, i, failed);
        if fnid in failed_fnids {
          FailedNow(Names(), fnid);
          RemoveDrops(eligible, p);
          eligible := RemoveFirst(eligible, p);
        }
        i := i + 1;
      }
      DroppedStep(eligible, i, failed);
      GrewMeans(old(Names()), Names());
      if old(Safe(dc, h)) && !NoHope(eligible0, h.files) {
        SafeListKeepsHope(dc, h, eligible0, old(Names()));
      }
      if old(FirstIsDoomed(dc, eligible0)) {
        DoomedHasNotFailed(old(Names()), tasks_fnid, dc, eligible0[0]);
        DroppedKeeps(eligible0, failed);
        DoomedStays(old(Names()), Names(), tasks_fnid, dc, eligible0[0]);
      }
    }

    /** Only names of files have been added since then. */
    lemma IdMeansFailed(dc: DataCache, before: Tally, p: string, fnid: nat)
      requires Usable(dc) && fnid < |fn_index| && fn_index[fnid] == p
      requires before.fns <= fn_index && before.s == S() && forall f :: f in failed_fnids ==> 0 <= f < |before.fns|
      ensures p in FailedNames(before) <==> fnid in failed_fnids
    {
      if fnid in failed_fnids {
        assert before.fns[fnid] == p;
      }
    }

    /** A file of which nothing is known yet. */
    lemma DoomedIsNew(dc: DataCache, before: Tally, fn: string, fnid: nat)
      requires Usable(dc) && fnid < |fn_index| && fn_index[fnid] == fn
      requires before.fns <= fn_index && before.s == S() && forall f :: f in failed_fnids ==> 0 <= f < |before.fns|
      requires before.builds <= build_names_index && before.runs <= run_names_index
      ensures StartsDoomed(before, tasks_fnid, dc, fn) ==>
        fnid !in failed_fnids && fnid !in tasks_fnid && NeedsFailed(Names(), dc, fn)
    {
      hide Usable;
      if StartsDoomed(before, tasks_fnid, dc, fn) {
        DoomedHasNotFailed(before, tasks_fnid, dc, fn);
        IdMeansFailed(dc, before, fn, fnid);
        NewFileIsNew(before, tasks_fnid, dc, fn_index, fn, fnid);
        DoomedStays(before, Names(), tasks_fnid, dc, fn);
      }
    }

    /** One round of the loop below. */
    method EnterBuildProvider(eligible: seq<string>, i: nat, item: string, dc: DataCache, ghost targetid: nat,
                            ghost h: Hopeless)
        returns (aborted: bool)
      requires Usable(dc) && targetid < |build_names_index| && build_names_index[targetid] == item
      requires i < |eligible| && forall j :: 0 <= j < i ==> BuildHandled(Names(), eligible[j], item)
      modifies this
      ensures Usable(dc) && (!aborted && old(Resting()) ==> Resting())
      ensures !aborted ==> Grew(old(Names()), Names())
      ensures external_targets == old(external_targets)
      ensures Spared() <==> old(Spared()) && !aborted
      ensures !aborted ==> BuildHandled(Names(), eligible[i], item)
      ensures !aborted && old(ListInOrder(build_targets, fn_index, targetid, eligible, i)) ==>
        ListInOrder(build_targets, fn_index, targetid, eligible, i + 1)
      ensures old(Safe(dc, h)) && (item in h.builds || targetid in old(build_targets) || eligible[i] !in h.files) ==>
        if aborted then Doomed(old(build_names_index), h) else Safe(dc, h)
      ensures !aborted && !old(HasFailed(Names(), eligible[i])) ==> targetid in build_targets
      ensures !aborted && targetid !in old(build_targets) ==>
        old(Resting() && StartsDoomed(Names(), tasks_fnid, dc, eligible[i])) ==>
        targetid in failed_deps
    {
      hide Usable, Safe, Resting, Spared, Grew, InOrder, StandBefore, StartsDoomed, HasFailed;
      hide Position, BuildHandled, Confined, Rules, NeedsFailed, ListInOrder, Thinned, Doomed;
      aborted := false;
      ghost var before := Names();
      NamesAreUnique(dc);
      var fnid := GetFnId(eligible[i], dc, h);
      ghost var middle := Names();
      GrewMeans(before, middle);
      IdMeansFailed(dc, before, eligible[i], fnid);
      DoomedIsNew(dc, before, eligible[i], fnid);
      if fnid in failed_fnids {
        FailedNow(Names(), fnid);
        FailedIsHandled(Names(), eligible[i], item);
        ListKeepsOrder(build_targets, before.fns, fn_index, targetid, eligible, i);
        return;
      }
      ghost var known := build_targets;
      HandledStayAll(before, middle, eligible[..i], item);
      ghost var ordered := ListInOrder(build_targets, before.fns, targetid, eligible, i);
      if ordered {
        NamesAreUnique(dc);
        BuildFirstTime(middle, eligible, i, item, targetid, fnid);
        ListKeepsOrder(build_targets, before.fns, fn_index, targetid, eligible, i);
      }
      var id;
      id, aborted := AddBuildProvider(eligible[i], fnid, item, dc, h);
      assert id == targetid;
      if aborted {
        EarlierStill(before, middle, h);
        return;
      }
      GrewMeans(middle, Names());
      ghost var gone := S().failed.files - middle.s.failed.files;
      if ordered {
        ListGoesOn(known, build_targets, middle.fns, fn_index, targetid, eligible, i, fnid, gone);
      }
      GrewTrans(before, middle, Names());
    }

    /** The last loop of add_provider_internal: every file ends up as a provider or failed.  The
        providers of a new target keep the order of the list.  If the first file fails as
        soon as it has been entered, the target fails, whatever the others can do. */
    method EnterBuildProviders(eligible: seq<string>, item: string, dc: DataCache, ghost targetid: nat,
                               ghost h: Hopeless)
        returns (aborted: bool)
      requires Usable(dc) && targetid < |build_names_index| && build_names_index[targetid] == item
      modifies this
      ensures Usable(dc) && (!aborted && old(Resting()) ==> Resting())
      ensures !aborted ==> Grew(old(Names()), Names())
      ensures external_targets == old(external_targets)
      ensures Spared() <==> old(Spared()) && !aborted
      ensures !aborted ==> forall p :: p in eligible ==> BuildHandled(Names(), p, item)
      ensures !aborted && targetid !in old(build_targets) ==>
        ListInOrder(build_targets, fn_index, targetid, eligible, |eligible|)
      ensures old(Safe(dc, h)) && (item in h.builds || !NoHope(eligible, h.files)) ==>
        if aborted then Doomed(old(build_names_index), h) else Safe(dc, h)
      ensures !aborted && targetid !in old(build_targets) && old(FirstIsDoomed(dc, eligible)) ==>
        targetid in failed_deps
    {
      hide Usable, Safe, Resting, Spared, Grew, BuildHandled, HasFailed, Confined, Rules;
      hide ListInOrder, StartsDoomed, Doomed;
      aborted := false;
      ghost var before := Names();
      GrewSelf(before);
      NothingInOrder(build_targets, fn_index, targetid, eligible);
      if old(Safe(dc, h)) && eligible != [] && eligible[0] !in h.files {
        SafeFileHasNotFailed(dc, h, eligible[0]);
      }
      for i := 0 to |eligible|
        invariant Usable(dc) && Grew(before, Names()) && !aborted && (old(Resting()) ==> Resting())
        invariant external_targets == old(external_targets) && (old(Spared()) <==> Spared())
        invariant targetid < |build_names_index| && build_names_index[targetid] == item
        invariant forall j :: 0 <= j < i ==> BuildHandled(Names(), eligible[j], item)
        invariant targetid !in old(build_targets) ==> ListInOrder(build_targets, fn_index, targetid, eligible, i)
        invariant old(Safe(dc, h)) && (item in h.builds || !NoHope(eligible, h.files)) ==>
          Safe(dc, h) && (item in h.builds || i == 0 || targetid in build_targets)
        invariant i == 0 ==> unchanged(this)
        invariant i > 0 && targetid !in old(build_targets) && old(FirstIsDoomed(dc, eligible)) ==>
          targetid in failed_deps
      {
        ghost var earlier := Names();
        aborted := EnterBuildProvider(eligible, i, item, dc, targetid, h);
        if aborted {
          EarlierStill(before, earlier, h);
          return;
        }
        OneMoreRound(before, earlier, Names(), eligible[..i], item, targetid);
      }
    }

    /** One round of the loop below. */
    method EnterRunProvider(eligible: seq<string>, i: nat, item: string, dc: DataCache, ghost targetid: nat,
                            ghost h: Hopeless)
        returns (aborted: bool)
      requires Usable(dc) && targetid < |run_names_index| && run_names_index[targetid] == item
      requires i < |eligible| && forall j :: 0 <= j < i ==> RunHandled(Names(), eligible[j], item)
      modifies this
      ensures Usable(dc) && (!aborted && old(Resting()) ==> Resting())
      ensures !aborted ==> Grew(old(Names()), Names())
      ensures external_targets == old(external_targets)
      ensures Spared() <==> old(Spared()) && !aborted
      ensures !aborted ==> RunHandled(Names(), eligible[i], item)
      ensures !aborted && old(ListInOrder(run_targets, fn_index, targetid, eligible, i)) ==>
        ListInOrder(run_targets, fn_index, targetid, eligible, i + 1)
      ensures old(Safe(dc, h)) && (item in h.runs || targetid in old(run_targets) || eligible[i] !in h.files) ==>
        if aborted then Doomed(old(build_names_index), h) else Safe(dc, h)
      ensures !aborted && !old(HasFailed(Names(), eligible[i])) ==> targetid in run_targets
      ensures !aborted && targetid !in old(run_targets) ==>
        old(Resting() && StartsDoomed(Names(), tasks_fnid, dc, eligible[i])) ==>
        targetid in failed_rdeps
    {
      hide Usable, Safe, Resting, Spared, Grew, InOrder, StandBefore, StartsDoomed, HasFailed;
      hide Position, RunHandled, Confined, Rules, NeedsFailed, ListInOrder, Thinned, Doomed;
      aborted := false;
      ghost var before := Names();
      NamesAreUnique(dc);
      var fnid := GetFnId(eligible[i], dc, h);
      ghost var middle := Names();
      GrewMeans(before, middle);
      IdMeansFailed(dc, before, eligible[i], fnid);
      DoomedIsNew(dc, before, eligible[i], fnid);
      if fnid in failed_fnids {
        FailedNow(Names(), fnid);
        FailedIsHandled(Names(), eligible[i], item);
        ListKeepsOrder(run_targets, before.fns, fn_index, targetid, eligible, i);
        return;
      }
      ghost var known := run_targets;
      HandledStayAll(before, middle, eligible[..i], item);
      ghost var ordered := ListInOrder(run_targets, before.fns, targetid, eligible, i);
      if ordered {
        NamesAreUnique(dc);
        RunFirstTime(middle, eligible, i, item, targetid, fnid);
        ListKeepsOrder(run_targets, before.fns, fn_index, targetid, eligible, i);
      }
      var id;
      id, aborted := AddRunProvider(eligible[i], fnid, item, dc, h);
      assert id == targetid;
      if aborted {
        EarlierStill(before, middle, h);
        return;
      }
      GrewMeans(middle, Names());
      ghost var gone := S().failed.files - middle.s.failed.files;
      if ordered {
        ListGoesOn(known, run_targets, middle.fns, fn_index, targetid, eligible, i, fnid, gone);
      }
      GrewTrans(before, middle, Names());
    }

    /** The last loop of add_rprovider: every file ends up as a provider or failed.  The
        providers of a new target keep the order of the list.  If the first file fails as
        soon as it has been entered, the target fails, whatever the others can do. */
    method EnterRunProviders(eligible: seq<string>, item: string, dc: DataCache, ghost targetid: nat, ghost h: Hopeless)
        returns (aborted: bool)
      requires Usable(dc) && targetid < |run_names_index| && run_names_index[targetid] == item
      modifies this
      ensures Usable(dc) && (!aborted && old(Resting()) ==> Resting())
      ensures !aborted ==> Grew(old(Names()), Names())
      ensures external_targets == old(external_targets)
      ensures Spared() <==> old(Spared()) && !aborted
      ensures !aborted ==> forall p :: p in eligible ==> RunHandled(Names(), p, item)
      ensures !aborted && targetid !in old(run_targets) ==>
        ListInOrder(run_targets, fn_index, targetid, eligible, |eligible|)
      ensures old(Safe(dc, h)) && (item in h.runs || !NoHope(eligible, h.files)) ==>
        if aborted then Doomed(old(build_names_index), h) else Safe(dc, h)
      ensures !aborted && targetid !in old(run_targets) && old(FirstIsDoomed(dc, eligible)) ==>
        targetid in failed_rdeps
    {
      hide Usable, Safe, Resting, Spared, Grew, RunHandled, HasFailed, Confined, Rules;
      hide ListInOrder, StartsDoomed, Doomed;
      aborted := false;
      ghost var before := Names();
      GrewSelf(before);
      NothingInOrder(run_targets, fn_index, targetid, eligible);
      if old(Safe(dc, h)) && eligible != [] && eligible[0] !in h.files {
        SafeFileHasNotFailed(dc, h, eligible[0]);
      }
      for i := 0 to |eligible|
        invariant Usable(dc) && Grew(before, Names()) && !aborted && (old(Resting()) ==> Resting())
        invariant external_targets == old(external_targets) && (old(Spared()) <==> Spared())
        invariant targetid < |run_names_index| && run_names_index[targetid] == item
        invariant forall j :: 0 <= j < i ==> RunHandled(Names(), eligible[j], item)
        invariant targetid !in old(run_targets) ==> ListInOrder(run_targets, fn_index, targetid, eligible, i)
        invariant old(Safe(dc, h)) && (item in h.runs || !NoHope(eligible, h.files)) ==>
          Safe(dc, h) && (item in h.runs || i == 0 || targetid in run_targets)
        invariant i == 0 ==> unchanged(this)
        invariant i > 0 && targetid !in old(run_targets) && old(FirstIsDoomed(dc, eligible)) ==>
          targetid in failed_rdeps
      {
        ghost var earlier := Names();
        aborted := EnterRunProvider(eligible, i, item, dc, targetid, h);
        if aborted {
          EarlierStill(before, earlier, h);
          return;
        }
        OneMoreRound(before, earlier, Names(), eligible[..i], item, targetid);
      }
    }

    /** add_provider_internal.  The exception means exactly that nothing provides the item
        or that the walk over the eligible files has dropped them all as failed. */
    method AddProviderInternal(item: string, dc: DataCache, ghost h: Hopeless) returns (r: Outcome)
      requires Usable(dc)
      modifies this
      ensures Usable(dc) && (!r.Aborted? && old(Resting()) ==> Resting())
      ensures !r.Aborted? ==> Grew(old(Names()), Names())
      ensures external_targets == old(external_targets)
      ensures Spared() <==> old(Spared()) && !r.Aborted?
      ensures r.NoProvider? <==>
        BuildUnprovided(dc, build_names_index, old(build_targets), item, old(FailedNames(Names())))
      ensures r.NoProvider? ==> S() == old(S()) && (item in dc.providers ==> item in build_names_index)
      ensures r.NoProvider? && item in old(build_names_index) ==> build_names_index == old(build_names_index)
      ensures r.NoProvider? && item in dc.providers ==> forall p :: p in dc.eligible(item) ==> HasFailed(Names(), p)
      ensures r.Entered? && item !in dc.ignored_dependencies ==>
        !HasTarget(build_names_index, old(build_targets), item) ==>
        && (forall p :: p in dc.eligible(item) ==> BuildHandled(Names(), p, item))
        && ProvidersInOrder(build_names_index, build_targets, fn_index, item,
                            Dropped(dc.eligible(item), 0, old(FailedNames(Names()))))
        && (old(FirstIsDoomed(dc, dc.eligible(item))) ==> TargetFailed(build_names_index, failed_deps, item))
      ensures old(Safe(dc, h)) ==> if r.Aborted? then Doomed(old(build_names_index), h) else Safe(dc, h)
    {
      hide Usable, Safe, Resting, Grew, S, HasFailed, BuildHandled, HasTarget, Dropped, StartsDoomed;
      hide Confined, ListInOrder, Doomed;
      ghost var before := Names();
      NamesAreUnique(dc);
      GrewSelf(before);
      if item in dc.ignored_dependencies {
        return Entered;
      }
      if item !in dc.providers {
        // the message about dependees looks the name up among the runtime names
        var id := GetRunId(item, dc, h);
        GrewMeans(before, Names());
        return NoProvider;
      }
      var targetid := GetBuildId(item, dc, h);
      IdsAreUnique(dc);
      GrewMeans(before, Names());
      TargetById(build_names_index, build_targets, item, targetid);
      if targetid in build_targets {
        return Entered;
      }
      ghost var middle := Names();
      SameFailedNames(before, middle);
      if old(Safe(dc, h)) {
        SafeHasHope(dc, h, item);
      }
      if dc.eligible(item) != [] {
        DoomedStays(before, middle, tasks_fnid, dc, dc.eligible(item)[0]);
      }
      var eligible := DropFailed(dc.eligible(item), dc, h);
      GrewMeans(middle, Names());
      GrewTrans(before, middle, Names());
      if |eligible| == 0 {
        IdsAreUnique(dc);
        TargetById(build_names_index, build_targets, item, targetid);
        return NoProvider;
      }
      middle := Names();
      var aborted := EnterBuildProviders(eligible, item, dc, targetid, h);
      if aborted {
        EarlierStill(before, middle, h);
        return Aborted;
      }
      FailuresStay(middle, Names(), dc.eligible(item), eligible, item);
      GrewTrans(before, middle, Names());
      GrewMeans(middle, Names());
      IdsAreUnique(dc);
      TargetById(build_names_index, old(build_targets), item, targetid);
      ListMeansOrder(build_names_index, build_targets, fn_index, targetid, item, eligible);
      return Entered;
    }

    /** add_rprovider.  The exception means exactly that nothing provides the item or that
        the walk over the eligible files has dropped them all as failed. */
    method AddRprovider(item: string, dc: DataCache, ghost h: Hopeless) returns (r: Outcome)
      requires Usable(dc)
      modifies this
      ensures Usable(dc) && (!r.Aborted? && old(Resting()) ==> Resting())
      ensures !r.Aborted? ==> Grew(old(Names()), Names())
      ensures external_targets == old(external_targets)
      ensures Spared() <==> old(Spared()) && !r.Aborted?
      ensures r.NoProvider? <==>
        RunUnprovided(dc, run_names_index, old(run_targets), item, old(FailedNames(Names())))
      ensures r.NoProvider? ==>
        S() == old(S()) && item in run_names_index && build_names_index == old(build_names_index)
      ensures r.NoProvider? && item in old(run_names_index) ==> run_names_index == old(run_names_index)
      ensures r.NoProvider? && dc.rproviders(item) != [] ==>
        forall p :: p in dc.religible(item) ==> HasFailed(Names(), p)
      ensures r.Entered? && item !in dc.ignored_dependencies ==>
        !HasTarget(run_names_index, old(run_targets), item) ==>
        && (forall p :: p in dc.religible(item) ==> RunHandled(Names(), p, item))
        && ProvidersInOrder(run_names_index, run_targets, fn_index, item,
                            Dropped(dc.religible(item), 0, old(FailedNames(Names()))))
        && (old(FirstIsDoomed(dc, dc.religible(item))) ==> TargetFailed(run_names_index, failed_rdeps, item))
      ensures old(Safe(dc, h)) ==> if r.Aborted? then Doomed(old(build_names_index), h) else Safe(dc, h)
    {
      hide Usable, Safe, Resting, Grew, S, HasFailed, RunHandled, HasTarget, Dropped, StartsDoomed;
      hide Confined, ListInOrder, Doomed;
      ghost var before := Names();
      NamesAreUnique(dc);
      GrewSelf(before);
      if item in dc.ignored_dependencies {
        return Entered;
      }
      var targetid := GetRunId(item, dc, h);
      IdsAreUnique(dc);
      GrewMeans(before, Names());
      TargetById(run_names_index, run_targets, item, targetid);
      if targetid in run_targets {
        return Entered;
      }
      if |dc.rproviders(item)| == 0 {
        return NoProvider;
      }
      ghost var middle := Names();
      SameFailedNames(before, middle);
      if old(Safe(dc, h)) {
        SafeHasHope(dc, h, item);
      }
      if dc.religible(item) != [] {
        DoomedStays(before, middle, tasks_fnid, dc, dc.religible(item)[0]);
      }
      var eligible := DropFailed(dc.religible(item), dc, h);
      GrewMeans(middle, Names());
      GrewTrans(before, middle, Names());
      if |eligible| == 0 {
        IdsAreUnique(dc);
        TargetById(run_names_index, run_targets, item, targetid);
        return NoProvider;
      }
      middle := Names();
      var aborted := EnterRunProviders(eligible, item, dc, targetid, h);
      if aborted {
        EarlierStill(before, middle, h);
        return Aborted;
      }
      FailuresStay(middle, Names(), dc.religible(item), eligible, item);
      GrewTrans(before, middle, Names());
      GrewMeans(middle, Names());
      IdsAreUnique(dc);
      TargetById(run_names_index, old(run_targets), item, targetid);
      ListMeansOrder(run_names_index, run_targets, fn_index, targetid, item, eligible);
      return Entered;
    }

    /** remove_buildtarget, from and to tables that fit together. */
    method TakeDownBuild(targetid: nat, dc: DataCache, ghost h: Hopeless) returns (aborted: bool)
      requires Usable(dc) && targetid < |build_names_index|
      modifies `failed_fnids, `failed_deps, `failed_rdeps, `build_targets, `run_targets
      ensures Usable(dc) && (!aborted && old(Resting()) ==> Resting())
      ensures !aborted ==> Grew(old(Names()), Names())
      ensures Spared() <==> old(Spared()) && !aborted
      ensures !aborted && old(Safe(dc, h)) && build_names_index[targetid] in h.builds ==> Safe(dc, h)
      ensures aborted && old(Safe(dc, h)) && build_names_index[targetid] in h.builds ==> Doomed(build_names_index, h)
      ensures targetid in failed_deps && (!aborted ==> build_targets.Keys == old(build_targets).Keys)
    {
      hide Indexed, TaskLists, Ranges, Asked, Forced, Bound, Rules, Confined, SpellsAll, Distinct, TableAtRest, Grew;
      hide After, Within, LookedUp, AtRest, DirectNeeds;
      SpellingAndNeeds(dc);
      ghost var needs, s, before := FullNeeds(), S(), Names();
      aborted := RemoveBuildtarget(targetid, needs);
      WithinFiles(s.failed, S().failed);
      if aborted {
        if old(Safe(dc, h)) && build_names_index[targetid] in h.builds {
          SpreadStaysWithin(before, h, dc, needs, Build(targetid), S());
          LostIsDoomed(before, h);
        }
        return;
      }
      if old(Safe(dc, h)) && build_names_index[targetid] in h.builds {
        SpreadIsConfined(before, h, dc, needs, Build(targetid), S());
      }
      DirectNeedsAreNeeds(depids, rdepids, tasks_fnid, tasks_idepends);
      FewerNeeds(needs, DirectNeeds(depids, rdepids), s, S());
      if AtRest(DirectNeeds(depids, rdepids), s) {
        FailureIsLeast(DirectNeeds(depids, rdepids), s, S());
      }
      FailureGrew(needs, before, Names());
    }

    /** Lines 543-550: remove a build target that nothing provides, unless it was
        requested externally and abort is on. */
    method DropBuildTarget(target: string, dc: DataCache, ghost h: Hopeless) returns (targetid: nat, aborted: bool)
      requires Usable(dc)
      modifies `build_names_index, `failed_fnids, `failed_deps, `failed_rdeps, `build_targets, `run_targets
      ensures Usable(dc) && (!aborted && old(Resting()) ==> Resting())
      ensures !aborted ==> Grew(old(Names()), Names())
      ensures Spared() ==> old(Spared())
      ensures aborted ==> abort && exists x :: x in external_targets && (x == targetid || x in failed_deps)
      ensures !aborted ==> (old(Spared()) ==> Spared())
      ensures target in old(build_names_index) ==> build_names_index == old(build_names_index)
      ensures !aborted && old(Safe(dc, h)) && target in h.builds ==> Safe(dc, h)
      ensures aborted && old(Safe(dc, h)) && target in h.builds ==> Doomed(old(build_names_index), h)
      ensures targetid < |build_names_index|
      ensures build_names_index[targetid] == target
      ensures !aborted ==> targetid in failed_deps && build_targets.Keys == old(build_targets).Keys
    {
      hide Usable, Safe, Resting, Grew, Rules, Confined;
      ghost var start := Names();
      targetid := GetBuildId(target, dc, h);
      GrewMeans(start, Names());
      if abort && targetid in external_targets {
        return targetid, true;
      }
      ghost var before := Names();
      aborted := TakeDownBuild(targetid, dc, h);
      if aborted {
        EarlierStill(start, before, h);
        return;
      }
      GrewTrans(start, before, Names());
    }

    /** remove_runtarget, from and to tables that fit together. */
    method TakeDownRun(targetid: nat, dc: DataCache, ghost h: Hopeless) returns (aborted: bool)
      requires Usable(dc) && targetid < |run_names_index|
      modifies `failed_fnids, `failed_deps, `failed_rdeps, `build_targets, `run_targets
      ensures Usable(dc) && (!aborted && old(Resting()) ==> Resting())
      ensures !aborted ==> Grew(old(Names()), Names())
      ensures Spared() <==> old(Spared()) && !aborted
      ensures !aborted && old(Safe(dc, h)) && run_names_index[targetid] in h.runs ==> Safe(dc, h)
      ensures aborted && old(Safe(dc, h)) && run_names_index[targetid] in h.runs ==> Doomed(build_names_index, h)
      ensures targetid in failed_rdeps
    {
      hide Indexed, TaskLists, Ranges, Asked, Forced, Bound, Rules, Confined, SpellsAll, Distinct, TableAtRest, Grew;
      hide After, Within, LookedUp, AtRest, DirectNeeds;
      SpellingAndNeeds(dc);
      ghost var needs, s, before := FullNeeds(), S(), Names();
      aborted := RemoveRuntarget(targetid, needs);
      WithinFiles(s.failed, S().failed);
      if aborted {
        if old(Safe(dc, h)) && run_names_index[targetid] in h.runs {
          SpreadStaysWithin(before, h, dc, needs, Run(targetid), S());
          LostIsDoomed(before, h);
        }
        return;
      }
      if old(Safe(dc, h)) && run_names_index[targetid] in h.runs {
        SpreadIsConfined(before, h, dc, needs, Run(targetid), S());
      }
      DirectNeedsAreNeeds(depids, rdepids, tasks_fnid, tasks_idepends);
      FewerNeeds(needs, DirectNeeds(depids, rdepids), s, S());
      if AtRest(DirectNeeds(depids, rdepids), s) {
        FailureIsLeast(DirectNeeds(depids, rdepids), s, S());
      }
      FailureGrew(needs, before, Names());
    }

    /** Line 556: remove a runtime target that nothing provides. */
    method DropRunTarget(target: string, dc: DataCache, ghost h: Hopeless) returns (targetid: nat, aborted: bool)
      requires Usable(dc)
      modifies `run_names_index, `failed_fnids, `failed_deps, `failed_rdeps, `build_targets, `run_targets
      ensures Usable(dc) && (!aborted && old(Resting()) ==> Resting())
      ensures !aborted ==> Grew(old(Names()), Names())
      ensures Spared() <==> old(Spared()) && !aborted
      ensures target in old(run_names_index) ==> run_names_index == old(run_names_index)
      ensures !aborted && old(Safe(dc, h)) && target in h.runs ==> Safe(dc, h)
      ensures aborted && old(Safe(dc, h)) && target in h.runs ==> Doomed(build_names_index, h)
      ensures targetid < |run_names_index|
      ensures run_names_index[targetid] == target && targetid in failed_rdeps
    {
      hide Usable, Safe, Resting, Grew, Rules, Confined;
      ghost var start := Names();
      targetid := GetRunId(target, dc, h);
      GrewMeans(start, Names());
      ghost var before := Names();
      aborted := TakeDownRun(targetid, dc, h);
      if aborted {
        return;
      }
      GrewTrans(start, before, Names());
    }

    /** Lines 540-550: handle one unresolved build target. */
    method ResolveBuildTarget(dc: DataCache, ghost todo: seq<string>, target: string, ghost h: Hopeless)
        returns (entered: bool, aborted: bool)
      requires Usable(dc) && todo != [] && target == todo[0]
      modifies this
      ensures Usable(dc) && external_targets == old(external_targets)
      ensures aborted ==> abort
      ensures Spared() ==> old(Spared())
      ensures !aborted && Spared() ==> Grew(old(Names()), Names()) && (old(Resting()) ==> Resting())
      ensures !aborted && Spared() ==>
        (entered <==> !BuildUnprovided(dc, build_names_index, old(build_targets), target, old(FailedNames(Names()))))
      ensures !aborted && Spared() && entered ==> BuildAnswered(dc, Names(), target)
      ensures !aborted && Spared() && !entered ==> TargetFailed(build_names_index, failed_deps, target)
      ensures !aborted && Spared() && !entered && old(BuildsPending(dc, todo)) ==> BuildsPending(dc, todo[1..])
      ensures !aborted && Spared() && old(Safe(dc, h)) ==> Safe(dc, h)
      ensures old(Safe(dc, h)) && (aborted || !Spared()) ==> Doomed(old(build_names_index), h)
    {
      hide Usable, Resting, Grew, Pending, Distinct, Confined, Rules, HasTarget, Dropped, HasFailed;
      ghost var before, known := Names(), build_targets;
      entered, aborted := false, false;
      if Safe(dc, h) && !Spared() {
        SafeButLost(dc, h);
      }
      var r := AddProviderInternal(target, dc, h);
      if r.Entered? {
        GrewMeans(before, Names());
        if HasTarget(build_names_index, known, target) {
          HasTargetStays(build_names_index, build_names_index, known, build_targets, target);
        }
        return true, false;
      }
      ghost var middle := Names();
      if r.NoProvider? && Safe(dc, h) {
        UnprovidedMayFail(middle, h, dc, target);
      }
      var targetid;
      targetid, aborted := DropBuildTarget(target, dc, h);
      if aborted {
        if r.NoProvider? {
          EarlierStill(before, middle, h);
        }
        return;
      }
      if r.NoProvider? {
        GrewMeans(middle, Names());
        BuildSameTarget(dc, middle.builds, build_names_index, known, target, FailedNames(before), targetid);
        GrewTrans(before, middle, Names());
        GrewMeans(before, Names());
        if old(BuildsPending(dc, todo)) {
          BuildStillPending(dc, todo, before, targetid);
        }
      }
    }

    /** The unresolved build targets are among todo. */
    ghost predicate BuildsPending(dc: DataCache, todo: seq<string>)
      reads this
    {
      && (forall w :: w in todo ==> w in build_names_index)
      && Pending(build_names_index, dc.ignored_dependencies, build_targets, S().failed.builds, todo)
    }

    /** The name of the target has one id. */
    lemma BuildSameTarget(dc: DataCache, names: seq<string>, names': seq<string>, p: ProviderTable, target: string,
                        failed: iset<string>, targetid: nat)
      requires Usable(dc) && names <= names' && names' == build_names_index
      requires targetid < |names'| && names'[targetid] == target
      requires target in names || !(target in dc.providers)
      ensures BuildUnprovided(dc, names, p, target, failed) <==> BuildUnprovided(dc, names', p, target, failed)
    {
      hide Usable, Dropped;
      IdsAreUnique(dc);
      if target in names {
        var x :| 0 <= x < |names| && names[x] == target;
        assert names'[x] == target;
      }
    }

    /** The first one has failed now. */
    lemma BuildStillPending(dc: DataCache, todo: seq<string>, before: Tally, targetid: nat)
      requires Usable(dc) && Grew(before, Names()) && before.builds == build_names_index && todo != []
      requires forall w :: w in todo ==> w in build_names_index
      requires Pending(before.builds, dc.ignored_dependencies, before.s.build, before.s.failed.builds, todo)
      requires targetid < |build_names_index| && build_names_index[targetid] == todo[0] && targetid in failed_deps
      ensures BuildsPending(dc, todo[1..])
    {
      hide Usable, Grew, Pending, Distinct;
      GrewMeans(before, Names());
      IdsAreUnique(dc);
      PendingGrowsIf(true, build_names_index, dc.ignored_dependencies, before.s.build, before.s.failed.builds, todo,
                     build_targets, S().failed.builds);
      PendingDone(build_names_index, dc.ignored_dependencies, build_targets, S().failed.builds, todo, targetid);
      TailMembers(todo, build_names_index);
    }

    lemma TriedMeans(dc: DataCache, w: string)
      ensures BuildAnswered(dc, Names(), w) || TargetFailed(build_names_index, failed_deps, w) ==>
        BuildTried(dc, Names(), w)
      ensures RunAnswered(dc, Names(), w) || TargetFailed(run_names_index, failed_rdeps, w) ==>
        RunTried(dc, Names(), w)
    {
      assert Names().s.failed.builds == Elements(failed_deps) && Names().s.failed.runs == Elements(failed_rdeps);
    }

    /** Lines 538-550: one pass over the unresolved build targets.  With abort on, a
        failure that reaches an external target ends the handling of the target at hand,
        and also the pass if that one is external; the others are still handled, although
        that failure has not spread to its end.  If it happens it can be seen afterwards. */
    method BuildPass(dc: DataCache, ghost h: Hopeless) returns (added: nat, aborted: bool)
      requires Usable(dc)
      modifies this
      ensures Usable(dc) && external_targets == old(external_targets)
      ensures aborted ==> abort
      ensures Spared() ==> old(Spared())
      ensures !aborted && Spared() ==> Grew(old(Names()), Names()) && (old(Resting()) ==> Resting())
      ensures !aborted && Spared() && added == 0 ==>
        Resolved(build_names_index, dc.ignored_dependencies, build_targets, S().failed.builds)
      ensures !aborted && Spared() && old(Safe(dc, h)) ==> Safe(dc, h)
      ensures old(Safe(dc, h)) && (aborted || !Spared()) ==> Doomed(old(build_names_index), h)
      ensures !aborted && Spared() ==> forall w :: w in old(build_names_index) ==> BuildTried(dc, Names(), w)
      ensures !aborted && Spared() && added > 0 ==>
        exists w :: w in old(build_names_index) && BuildAnswered(dc, Names(), w)
    {
      hide Usable, Resting, Spared, Grew, Pending, Resolved, Distinct, Safe, Doomed;
      hide BuildTried, BuildAnswered, TargetFailed;
      ghost var before := Names();
      GrewSelf(before);
      IdsAreUnique(dc);
      added, aborted := 0, false;
      var todo := UnresolvedTargets(build_names_index, dc.ignored_dependencies, failed_deps, build_targets);
      ghost var names0 := build_names_index;
      BuildsTried(dc, before, todo);
      if Safe(dc, h) && !Spared() {
        SafeButLost(dc, h);
      }
      while todo != []
        invariant forall w :: w in todo ==> w in names0
        invariant Spared() ==> forall w :: w in names0 ==> w in todo || BuildTried(dc, Names(), w)
        invariant Spared() && added > 0 ==> exists w :: w in names0 && BuildAnswered(dc, Names(), w)
        invariant old(Safe(dc, h)) && !Spared() ==> Doomed(old(build_names_index), h)
        invariant Usable(dc) && !aborted && external_targets == old(external_targets)
        invariant Spared() ==> old(Spared()) && Grew(before, Names()) && (old(Resting()) ==> Resting())
        invariant Spared() && added == 0 ==> BuildsPending(dc, todo)
        invariant Spared() && old(Safe(dc, h)) ==> Safe(dc, h)
        decreases |todo|
      {
        ghost var middle, spared := Names(), Spared();
        var entered;
        entered, aborted := ResolveBuildTarget(dc, todo, todo[0], h);
        if spared {
          EarlierStill(before, middle, h);
        }
        if aborted {
          return;
        }
        if Spared() {
          GrewTrans(before, middle, Names());
          AllTriedStays(dc, middle, Names());
          TriedMeans(dc, todo[0]);
          OneMoreTried(dc, names0, todo, middle, Names());
        }
        if entered {
          added := added + 1;
        }
        todo := todo[1..];
      }
      if Spared() && added == 0 {
        NothingPending(build_names_index, dc.ignored_dependencies, build_targets, S().failed.builds);
      }
    }

    /** Lines 551-556: handle one unresolved runtime target. */
    method ResolveRunTarget(dc: DataCache, ghost todo: seq<string>, target: string, ghost h: Hopeless)
        returns (entered: bool, aborted: bool)
      requires Usable(dc) && todo != [] && target == todo[0]
      modifies this
      ensures Usable(dc) && external_targets == old(external_targets)
      ensures aborted ==> abort
      ensures Spared() ==> old(Spared())
      ensures !aborted && Spared() ==> Grew(old(Names()), Names()) && (old(Resting()) ==> Resting())
      ensures !aborted && Spared() ==>
        (entered <==> !RunUnprovided(dc, run_names_index, old(run_targets), target, old(FailedNames(Names()))))
      ensures !aborted && Spared() && entered ==> RunAnswered(dc, Names(), target)
      ensures !aborted && Spared() && !entered ==> TargetFailed(run_names_index, failed_rdeps, target)
      ensures !aborted && Spared() && !entered && old(RunsPending(dc, todo)) ==> RunsPending(dc, todo[1..])
      ensures !aborted && !entered ==> build_names_index == old(build_names_index)
      ensures !aborted && Spared() && old(Safe(dc, h)) ==> Safe(dc, h)
      ensures old(Safe(dc, h)) && (aborted || !Spared()) ==> Doomed(old(build_names_index), h)
    {
      hide Usable, Resting, Grew, Pending, Distinct, Confined, Rules, HasTarget, Dropped, HasFailed;
      ghost var before, known := Names(), run_targets;
      entered, aborted := false, false;
      if Safe(dc, h) && !Spared() {
        SafeButLost(dc, h);
      }
      var r := AddRprovider(target, dc, h);
      if r.Entered? {
        GrewMeans(before, Names());
        if HasTarget(run_names_index, known, target) {
          HasTargetStays(run_names_index, run_names_index, known, run_targets, target);
        }
        return true, false;
      }
      if r.Aborted? {
        return false, true;
      }
      ghost var middle := Names();
      if r.NoProvider? && Safe(dc, h) {
        UnprovidedRunMayFail(middle, h, dc, target);
      }
      var targetid;
      targetid, aborted := DropRunTarget(target, dc, h);
      if aborted {
        return;
      }
      if r.NoProvider? {
        GrewMeans(middle, Names());
        RunSameTarget(dc, middle.runs, run_names_index, known, target, FailedNames(before), targetid);
        GrewTrans(before, middle, Names());
        GrewMeans(before, Names());
        if old(RunsPending(dc, todo)) {
          RunStillPending(dc, todo, before, targetid);
        }
      }
    }

    /** The unresolved runtime targets are among todo. */
    ghost predicate RunsPending(dc: DataCache, todo: seq<string>)
      reads this
    {
      && (forall w :: w in todo ==> w in run_names_index)
      && Pending(run_names_index, dc.ignored_dependencies, run_targets, S().failed.runs, todo)
    }

    /** The name of the target has one id. */
    lemma RunSameTarget(dc: DataCache, names: seq<string>, names': seq<string>, p: ProviderTable, target: string,
                        failed: iset<string>, targetid: nat)
      requires Usable(dc) && names <= names' && names' == run_names_index
      requires targetid < |names'| && names'[targetid] == target
      requires target in names || !(target !in dc.ignored_dependencies)
      ensures RunUnprovided(dc, names, p, target, failed) <==> RunUnprovided(dc, names', p, target, failed)
    {
      hide Usable, Dropped;
      IdsAreUnique(dc);
      if target in names {
        var x :| 0 <= x < |names| && names[x] == target;
        assert names'[x] == target;
      }
    }

    /** The first one has failed now. */
    lemma RunStillPending(dc: DataCache, todo: seq<string>, before: Tally, targetid: nat)
      requires Usable(dc) && Grew(before, Names()) && before.runs == run_names_index && todo != []
      requires forall w :: w in todo ==> w in run_names_index
      requires Pending(before.runs, dc.ignored_dependencies, before.s.run, before.s.failed.runs, todo)
      requires targetid < |run_names_index| && run_names_index[targetid] == todo[0] && targetid in failed_rdeps
      ensures RunsPending(dc, todo[1..])
    {
      hide Usable, Grew, Pending, Distinct;
      GrewMeans(before, Names());
      IdsAreUnique(dc);
      PendingGrowsIf(true, run_names_index, dc.ignored_dependencies, before.s.run, before.s.failed.runs, todo,
                     run_targets, S().failed.runs);
      PendingDone(run_names_index, dc.ignored_dependencies, run_targets, S().failed.runs, todo, targetid);
      TailMembers(todo, run_names_index);
    }

    /** Lines 551-556: one pass over the unresolved runtime targets. */
    method RunPass(dc: DataCache, ghost h: Hopeless) returns (added: nat, aborted: bool)
      requires Usable(dc)
      modifies this
      ensures Usable(dc) && external_targets == old(external_targets)
      ensures aborted ==> abort
      ensures Spared() ==> old(Spared())
      ensures !aborted && Spared() ==> Grew(old(Names()), Names()) && (old(Resting()) ==> Resting())
      ensures !aborted && Spared() && added == 0 ==>
        Resolved(run_names_index, dc.ignored_dependencies, run_targets, S().failed.runs)
      ensures !aborted && added == 0 ==> build_names_index == old(build_names_index)
      ensures !aborted && Spared() && old(Safe(dc, h)) ==> Safe(dc, h)
      ensures old(Safe(dc, h)) && (aborted || !Spared()) ==> Doomed(old(build_names_index), h)
      ensures !aborted && Spared() ==> forall w :: w in old(run_names_index) ==> RunTried(dc, Names(), w)
      ensures !aborted && Spared() && added > 0 ==>
        exists w :: w in old(run_names_index) && RunAnswered(dc, Names(), w)
    {
      hide Usable, Resting, Spared, Grew, Pending, Resolved, Distinct, Safe, Doomed;
      hide RunTried, RunAnswered, TargetFailed;
      ghost var before := Names();
      GrewSelf(before);
      IdsAreUnique(dc);
      added, aborted := 0, false;
      var todo := UnresolvedTargets(run_names_index, dc.ignored_dependencies, failed_rdeps, run_targets);
      ghost var names0 := run_names_index;
      RunsTried(dc, before, todo);
      if Safe(dc, h) && !Spared() {
        SafeButLost(dc, h);
      }
      while todo != []
        invariant forall w :: w in todo ==> w in names0
        invariant Spared() ==> forall w :: w in names0 ==> w in todo || RunTried(dc, Names(), w)
        invariant Spared() && added > 0 ==> exists w :: w in names0 && RunAnswered(dc, Names(), w)
        invariant old(Safe(dc, h)) && !Spared() ==> Doomed(old(build_names_index), h)
        invariant Usable(dc) && !aborted && external_targets == old(external_targets)
        invariant Spared() ==> old(Spared()) && Grew(before, Names()) && (old(Resting()) ==> Resting())
        invariant Spared() && added == 0 ==> RunsPending(dc, todo)
        invariant Spared() && old(Safe(dc, h)) ==> Safe(dc, h)
        invariant added == 0 ==> build_names_index == old(build_names_index)
        decreases |todo|
      {
        ghost var middle, spared := Names(), Spared();
        var entered;
        entered, aborted := ResolveRunTarget(dc, todo, todo[0], h);
        if spared {
          EarlierStill(before, middle, h);
        }
        if aborted {
          return;
        }
        if Spared() {
          GrewTrans(before, middle, Names());
          AllTriedStays(dc, middle, Names());
          TriedMeans(dc, todo[0]);
          OneMoreTried(dc, names0, todo, middle, Names());
        }
        if entered {
          added := added + 1;
        }
        todo := todo[1..];
      }
      if Spared() && added == 0 {
        NothingPending(run_names_index, dc.ignored_dependencies, run_targets, S().failed.runs);
      }
    }

    /** Every dependency of every file that has not failed can be met, and its first
        provider can be looked up through the dependency tables. */
    ghost predicate Sound(dc: DataCache)
      reads this
    {
      && (forall f, w :: f in depids && f !in failed_fnids && 0 <= f < |fn_index| && w in dc.deps(fn_index[f]) ==>
        Met(build_names_index, dc.ignored_dependencies, build_targets, S().failed.files, w))
      && (forall f, w :: f in rdepids && f !in failed_fnids && 0 <= f < |fn_index| && w in dc.rundeps(fn_index[f]) ==>
        Met(run_names_index, dc.ignored_dependencies, run_targets, S().failed.files, w))
      && FirstIsSafe(depids, build_names_index, dc.ignored_dependencies, build_targets, S().failed.files)
      && FirstIsSafe(rdepids, run_names_index, dc.ignored_dependencies, run_targets, S().failed.files)
    }

    /** add_unresolved, given up after a number of passes; added says how much each of them
        has counted.  done says that the loop has ended by itself, with a pass that added
        nothing; aborted, that an exception has left it.  With abort on, it may end by
        itself although an external target has failed on the way; what it promises, it
        promises if none has.  Nothing fails but what is in every set of names that holds what
        has failed before and obeys the rules of hopeless names. */
    method AddUnresolved(dc: DataCache, passes: nat) returns (done: bool, added: seq<nat>, aborted: bool)
      requires Consistent(dc)
      modifies this
      ensures Usable(dc) && external_targets == old(external_targets)
      ensures aborted ==> abort && !done
      ensures |added| <= passes && forall k :: 0 <= k < |added| - 1 ==> added[k] > 0
      ensures done <==> !aborted && added != [] && added[|added|-1] == 0
      ensures !done && !aborted ==> |added| == passes
      ensures !aborted && Spared() ==> Consistent(dc)
      ensures done && Spared() ==> Sound(dc)
      ensures !aborted && Spared() ==> forall h :: old(Safe(dc, h)) ==>
        && (forall f :: f in failed_fnids ==> 0 <= f < |fn_index| && fn_index[f] in h.files)
        && (forall x :: x in failed_deps ==> 0 <= x < |build_names_index| && build_names_index[x] in h.builds)
        && (forall x :: x in failed_rdeps ==> 0 <= x < |run_names_index| && run_names_index[x] in h.runs)
      ensures forall h :: old(Safe(dc, h)) && !old(Doomed(build_names_index, h)) ==> !aborted && Spared()
      ensures !aborted && Spared() && passes > 0 ==>
        && (forall w :: w in old(build_names_index) ==> BuildTried(dc, Names(), w))
        && (forall w :: w in old(run_names_index) ==> RunTried(dc, Names(), w))
    {
      hide Usable, Resting, Sound, Grew, Resolved, Safe, Doomed, Spared;
      hide BuildTried, RunTried, BuildAnswered, RunAnswered;
      done, added, aborted := false, [], false;
      ghost var before := Names();
      GrewSelf(before);
      ghost var h := Least(dc, Names());
      StartsLeast(dc);
      LeastDoomed(dc);
      ghost var started := exists g :: Safe(dc, g);
      if g :| Safe(dc, g) {
        StartsSafe(dc, g);
        if !Spared() {
          SafeButLost(dc, h);
        }
      }
      for pass := 0 to passes
        invariant Usable(dc) && !aborted && !done && external_targets == old(external_targets)
        invariant |added| == pass && forall k :: 0 <= k < pass ==> added[k] > 0
        invariant Spared() ==> Resting() && Grew(before, Names()) && (started ==> Safe(dc, h))
        invariant started && !Spared() ==> Doomed(before.builds, h)
        invariant Spared() && pass > 0 ==> AllTried(dc, before, Names())
      {
        var builds, runs;
        ghost var start, spared := Names(), Spared();
        builds, aborted := BuildPass(dc, h);
        if spared {
          EarlierStill(before, start, h);
        }
        if aborted {
          return;
        }
        ghost var middle, still := Names(), Spared();
        if still {
          GrewTrans(before, start, middle);
        }
        runs, aborted := RunPass(dc, h);
        if still {
          EarlierStill(before, middle, h);
        }
        if aborted {
          return;
        }
        added := added + [builds + runs];
        if Spared() {
          GrewTrans(before, middle, Names());
          TriedInPass(dc, before, start, middle, Names());
        }
        if builds + runs == 0 {
          if Spared() {
            GrewMeans(middle, Names());
            ResolvedGrows(build_names_index, dc.ignored_dependencies, middle.s.build, middle.s.failed.builds,
                          build_targets, S().failed.builds);
            RestIsSound(dc);
          }
          done := true;
          break;
        }
      }
      if Spared() && started {
        SafeMeans(dc, h);
      }
    }

    lemma StartsSafe(dc: DataCache, g: Hopeless)
      requires Safe(dc, g)
      ensures Safe(dc, Least(dc, Names()))
    {
      LeastObeysTheRules(dc, Names());
      LeastConfines(dc, Names(), g);
    }

    lemma LeastDoomed(dc: DataCache)
      ensures forall g :: Safe(dc, g) && Doomed(build_names_index, Least(dc, Names())) ==> Doomed(build_names_index, g)
    {
      forall g | Safe(dc, g) && Doomed(build_names_index, Least(dc, Names())) ensures Doomed(build_names_index, g) {
        LeastIsWithin(dc, Names(), g);
      }
    }

    lemma StartsLeast(dc: DataCache)
      ensures forall g :: Safe(dc, g) ==>
        var l := Least(dc, Names());
        l.files <= g.files && l.builds <= g.builds && l.runs <= g.runs
    {
      forall g | Safe(dc, g)
        ensures var l := Least(dc, Names()); l.files <= g.files && l.builds <= g.builds && l.runs <= g.runs
      {
        LeastIsWithin(dc, Names(), g);
      }
    }

    lemma SafeMeans(dc: DataCache, h: Hopeless)
      requires Safe(dc, h)
      ensures forall f :: f in failed_fnids ==> 0 <= f < |fn_index| && fn_index[f] in h.files
      ensures forall x :: x in failed_deps ==> 0 <= x < |build_names_index| && build_names_index[x] in h.builds
      ensures forall x :: x in failed_rdeps ==> 0 <= x < |run_names_index| && run_names_index[x] in h.runs
    {
      assert forall f :: f in failed_fnids ==> f in Names().s.failed.files;
      assert forall x :: x in failed_deps ==> x in Names().s.failed.builds;
      assert forall x :: x in failed_rdeps ==> x in Names().s.failed.runs;
    }

    lemma RestIsSound(dc: DataCache)
      requires Consistent(dc)
      requires Resolved(build_names_index, dc.ignored_dependencies, build_targets, S().failed.builds)
      requires Resolved(run_names_index, dc.ignored_dependencies, run_targets, S().failed.runs)
      ensures Sound(dc)
    {
      hide TableAtRest, SpellsAll, LookedUp, Resolved, Met, Distinct, FirstIsSafe;
      var needs := DirectNeeds(depids, rdepids);
      ResolvedMeansSafe(needs.build, depids, fn_index, build_names_index, dc.deps, dc.ignored_dependencies,
                        build_targets, S().failed.files, S().failed.builds);
      ResolvedMeansSafe(needs.run, rdepids, fn_index, run_names_index, dc.rundeps, dc.ignored_dependencies,
                        run_targets, S().failed.files, S().failed.runs);
      forall f, w | f in depids && f !in failed_fnids && 0 <= f < |fn_index| && w in dc.deps(fn_index[f])
        ensures Met(build_names_index, dc.ignored_dependencies, build_targets, S().failed.files, w)
      {
        ResolvedMeansMet(needs.build, depids, fn_index, build_names_index, dc.deps, dc.ignored_dependencies,
                         build_targets, S().failed.files, S().failed.builds, f, w);
      }
      forall f, w | f in rdepids && f !in failed_fnids && 0 <= f < |fn_index| && w in dc.rundeps(fn_index[f])
        ensures Met(run_names_index, dc.ignored_dependencies, run_targets, S().failed.files, w)
      {
        ResolvedMeansMet(needs.run, rdepids, fn_index, run_names_index, dc.rundeps, dc.ignored_dependencies,
                         run_targets, S().failed.files, S().failed.runs, f, w);
      }
    }
  }

  /** What it takes for the first eligible file to decide against a second one: t has two
      files, the first one needs x, the second one needs nothing, and nothing provides x. */
  ghost predicate TwoFiles(dc: DataCache) {
    && dc.ignored_dependencies == {} && dc.providers == {"t"} && dc.eligible("t") == ["a", "b"]
    && dc.deps("a") == ["x"] && (forall fn :: fn != "a" ==> dc.deps(fn) == [])
    && forall fn :: dc.rundeps(fn) == [] && dc.tasks(fn) == []
  }

  /** Once x has failed, so does t, although b could provide it. */
  method FirstFileDecides(dc: DataCache) returns (td: TaskData)
    requires TwoFiles(dc)
    ensures td.Consistent(dc)
    ensures TargetFailed(td.build_names_index, td.failed_deps, "t") && !HasFailed(td.Names(), "b")
  {
    hide TaskData.Usable, TaskData.Resting, StartsDoomed, Dropped, TwoFiles, Rules, Confined;
    ghost var h := AllOthers(Hopeless(iset{"b"}, iset{}, iset{}));
    td := new TaskData(false);
    td.EmptyIsConsistent(dc);
    NothingMustHappen(dc, td.Names());
    var x, dropped := td.DropBuildTarget("x", dc, h);
    DoomedByX(dc, td.Names(), td.tasks_fnid, x);
    var r := td.AddProviderInternal("t", dc, h);
    td.SafeFileHasNotFailed(dc, h, "b");
  }

  /** Everything may fail but b. */
  lemma NothingMustHappen(dc: DataCache, t: Tally)
    requires TwoFiles(dc) && t.s == State(Failed({}, {}, {}), map[], map[])
    ensures var h := AllOthers(Hopeless(iset{"b"}, iset{}, iset{})); Rules(dc, h) && Confined(t, h)
  {
  }

  lemma DoomedByX(dc: DataCache, t: Tally, tasks_fnid: seq<int>, x: int)
    requires TwoFiles(dc) && t.fns == [] && tasks_fnid == []
    requires 0 <= x < |t.builds| && t.builds[x] == "x" && x in t.s.failed.builds
    ensures StartsDoomed(t, tasks_fnid, dc, "a") && dc.eligible("t") == ["a", "b"]
    ensures "t" in dc.providers && dc.ignored_dependencies == {}
  {
    assert t.builds[x] in dc.deps("a");
  }
}
