/** How the failure of a file or target spreads through TaskData's tables, as a
relation between states of those tables. */
module Failures {
  import opened Collections

  /** Pairs (file, target): the file cannot be built without the target.  build
      joins DEPENDS with the inter-task dependencies, run holds the runtime ones. */
  datatype Needs = Needs(build: set<(int, int)>, run: set<(int, int)>)

  /** What has failed. */
  datatype Failed = Failed(files: set<int>, builds: set<int>, runs: set<int>)

  type ProviderTable = map<int, seq<int>>

  /** What has failed, and the providers that are left for each target. */
  datatype State = State(failed: Failed, build: ProviderTable, run: ProviderTable)

  /** The entries of s that are not in gone, in order. */
  function Without(s: seq<int>, gone: set<int>): (r: seq<int>)
    ensures |r| <= |s|
  {
    if s == [] then []
    else if s[0] in gone then Without(s[1..], gone)
    else [s[0]] + Without(s[1..], gone)
  }

  /** list.remove */
  function RemoveFirst<T(==)>(s: seq<T>, x: T): seq<T>
    requires x in s
  {
    if s[0] == x then s[1..] else [s[0]] + RemoveFirst(s[1..], x)
  }

  lemma {:induction false} WithoutMembers(s: seq<int>, gone: set<int>, x: int)
    ensures x in Without(s, gone) <==> x in s && x !in gone
  {
    if s != [] {
      WithoutMembers(s[1..], gone, x);
    }
  }

  lemma {:induction false} WithoutTwice(s: seq<int>, a: set<int>, b: set<int>)
    ensures Without(Without(s, a), b) == Without(s, a + b)
  {
    if s != [] {
      WithoutTwice(s[1..], a, b);
    }
  }

  /** Only the listed entries matter. */
  lemma {:induction false} WithoutSame(s: seq<int>, a: set<int>, b: set<int>)
    requires forall x :: x in s ==> (x in a <==> x in b)
    ensures Without(s, a) == Without(s, b)
  {
    if s != [] {
      var x := s[0];
      assert x in s;
      WithoutSame(s[1..], a, b);
    }
  }

  lemma {:induction false} WithoutNone(s: seq<int>, a: set<int>)
    requires forall x :: x in s ==> x !in a
    ensures Without(s, a) == s
  {
    if s != [] {
      var x := s[0];
      assert x in s && s == [x] + s[1..];
      WithoutNone(s[1..], a);
    }
  }

  lemma {:induction false} RemoveIsWithout(s: seq<int>, x: int)
    requires x in s && Distinct(s)
    ensures RemoveFirst(s, x) == Without(s, {x})
  {
    if s[0] == x {
      assert x !in s[1..];
      WithoutNone(s[1..], {x});
    } else {
      RemoveIsWithout(s[1..], x);
    }
  }

  lemma {:induction false} WithoutDistinct(s: seq<int>, gone: set<int>)
    requires Distinct(s)
    ensures Distinct(Without(s, gone))
  {
    if s != [] {
      WithoutDistinct(s[1..], gone);
      WithoutMembers(s[1..], gone, s[0]);
    }
  }

  ghost predicate AllDistinct(p: ProviderTable) {
    forall x :: x in p ==> Distinct(p[x])
  }

  /** Everything that needs target x has failed. */
  ghost predicate Settled(needs: set<(int, int)>, x: int, files: set<int>) {
    forall f :: (f, x) in needs ==> f in files
  }

  // --- the meaning of failure ---

  /** The rules of failure, for providers p: what needs a failed target fails,
      and a target fails with its last provider. */
  ghost predicate TableClosed(needs: set<(int, int)>, p: ProviderTable, files: set<int>, targets: set<int>) {
    && (forall x :: x in targets ==> Settled(needs, x, files))
    && (forall x :: x in p && Elements(p[x]) <= files ==> x in targets)
  }

  ghost predicate Closed(needs: Needs, s: State, c: Failed) {
    && TableClosed(needs.build, s.build, c.files, c.builds)
    && TableClosed(needs.run, s.run, c.files, c.runs)
  }

  ghost predicate Within(a: Failed, b: Failed) {
    a.files <= b.files && a.builds <= b.builds && a.runs <= b.runs
  }

  /** c obeys the rules and holds everything that has failed in s. */
  ghost predicate Bound(needs: Needs, s: State, c: Failed) {
    Closed(needs, s, c) && Within(s.failed, c)
  }

  // --- one completed spread of failure ---

  ghost predicate TableAfter(needs: set<(int, int)>, p: ProviderTable, p': ProviderTable, gone: set<int>,
                             targets: set<int>, targets': set<int>, files': set<int>)
  {
    && targets <= targets' && p'.Keys == p.Keys
    && (forall x :: x in p ==> p'[x] == Without(p[x], gone))
    && (forall x :: x in targets' && x !in targets ==> Settled(needs, x, files'))
    && (forall x :: x in p && p'[x] == [] && p[x] != [] ==> x in targets' && Settled(needs, x, files'))
  }

  /** From s to s' failure has spread to a standstill: exactly the newly failed
      files are gone from the provider lists, and every newly failed or
      newly provider-less target has taken down all that needs it. */
  ghost predicate After(needs: Needs, s: State, s': State) {
    && s.failed.files <= s'.failed.files
    && TableAfter(needs.build, s.build, s'.build, s'.failed.files - s.failed.files, s.failed.builds, s'.failed.builds,
                  s'.failed.files)
    && TableAfter(needs.run, s.run, s'.run, s'.failed.files - s.failed.files, s.failed.runs, s'.failed.runs,
                  s'.failed.files)
  }

  lemma TableAfterTrans(needs: set<(int, int)>, p: ProviderTable, p1: ProviderTable, p2: ProviderTable,
                        gone1: set<int>, gone2: set<int>, t: set<int>, t1: set<int>, t2: set<int>, f1: set<int>,
                        f2: set<int>)
    requires TableAfter(needs, p, p1, gone1, t, t1, f1) && TableAfter(needs, p1, p2, gone2, t1, t2, f2) && f1 <= f2
    ensures TableAfter(needs, p, p2, gone1 + gone2, t, t2, f2)
  {
    forall x | x in p
      ensures p2[x] == Without(p[x], gone1 + gone2)
    {
      WithoutTwice(p[x], gone1, gone2);
    }
  }

  lemma AfterTrans(needs: Needs, s: State, s1: State, s2: State)
    requires After(needs, s, s1) && After(needs, s1, s2)
    ensures After(needs, s, s2)
  {
    var g1, g2 := s1.failed.files - s.failed.files, s2.failed.files - s1.failed.files;
    assert s2.failed.files - s.failed.files == g1 + g2;
    TableAfterTrans(needs.build, s.build, s1.build, s2.build, g1, g2, s.failed.builds, s1.failed.builds,
                    s2.failed.builds,
                    s1.failed.files, s2.failed.files);
    TableAfterTrans(needs.run, s.run, s1.run, s2.run, g1, g2, s.failed.runs, s1.failed.runs, s2.failed.runs,
                    s1.failed.files, s2.failed.files);
  }

  lemma AfterSelf(needs: Needs, s: State)
    ensures After(needs, s, s)
  {
    forall x | x in s.build ensures Without(s.build[x], {}) == s.build[x] {
      WithoutNone(s.build[x], {});
    }
    forall x | x in s.run ensures Without(s.run[x], {}) == s.run[x] {
      WithoutNone(s.run[x], {});
    }
    assert s.failed.files - s.failed.files == {};
  }

  lemma AfterDistinct(needs: Needs, s: State, s': State)
    requires After(needs, s, s') && AllDistinct(s.build) && AllDistinct(s.run)
    ensures AllDistinct(s'.build) && AllDistinct(s'.run)
  {
    var gone := s'.failed.files - s.failed.files;
    forall x | x in s'.build ensures Distinct(s'.build[x]) {
      WithoutDistinct(s.build[x], gone);
    }
    forall x | x in s'.run ensures Distinct(s'.run[x]) {
      WithoutDistinct(s.run[x], gone);
    }
  }

  // --- a file on its way out ---

  /** f has been marked failed in one table and removed from the lists outside rest. */
  ghost predicate TableLeaving(needs: set<(int, int)>, p: ProviderTable, p': ProviderTable, f: int, rest: set<int>,
                               gone: set<int>,
                               targets: set<int>, targets': set<int>, files': set<int>)
  {
    && targets <= targets' && p'.Keys == p.Keys
    && (forall x :: x in p ==> p'[x] == Without(p[x], if x in rest then gone - {f} else gone))
    && (forall x :: x in targets' && x !in targets ==> Settled(needs, x, files'))
    && (forall x :: x in p && p'[x] == [] && p[x] != [] ==> x in targets' && Settled(needs, x, files'))
  }

  ghost predicate Leaving(needs: Needs, s: State, s': State, f: int, restB: set<int>, restR: set<int>) {
    var gone := s'.failed.files - s.failed.files;
    && f !in s.failed.files && f in s'.failed.files
    && s.failed.files <= s'.failed.files
    && TableLeaving(needs.build, s.build, s'.build, f, restB, gone, s.failed.builds, s'.failed.builds, s'.failed.files)
    && TableLeaving(needs.run, s.run, s'.run, f, restR, gone, s.failed.runs, s'.failed.runs, s'.failed.files)
  }

  lemma LeavingStarts(needs: Needs, s: State, f: int)
    requires f !in s.failed.files
    ensures Leaving(needs, s, s.(failed := s.failed.(files := s.failed.files + {f})), f, s.build.Keys, s.run.Keys)
  {
    var files' := s.failed.files + {f};
    assert files' - s.failed.files - {f} == {};
    forall x | x in s.build ensures Without(s.build[x], {}) == s.build[x] {
      WithoutNone(s.build[x], {});
    }
    forall x | x in s.run ensures Without(s.run[x], {}) == s.run[x] {
      WithoutNone(s.run[x], {});
    }
  }

  lemma LeavingEnds(needs: Needs, s: State, s': State, f: int)
    requires Leaving(needs, s, s', f, {}, {})
    ensures After(needs, s, s')
  {
  }

  /** Handling target x of one table: f is taken off x's list. */
  lemma TableStep(needs: set<(int, int)>, p: ProviderTable, p': ProviderTable, f: int, rest: set<int>, gone: set<int>,
                  targets: set<int>, targets': set<int>, files': set<int>, x: int)
    requires TableLeaving(needs, p, p', f, rest, gone, targets, targets', files')
    requires AllDistinct(p) && f in gone && x in rest && x in p
    ensures f !in p'[x] ==> TableLeaving(needs, p, p', f, rest - {x}, gone, targets, targets', files')
    ensures f in p'[x] ==> RemoveFirst(p'[x], f) == Without(p[x], gone)
    ensures f in p'[x] && RemoveFirst(p'[x], f) != [] ==>
      TableLeaving(needs, p, p'[x := RemoveFirst(p'[x], f)], f, rest - {x}, gone, targets, targets', files')
  {
    hide Settled, Without, RemoveFirst;
    WithoutMembers(p[x], gone - {f}, f);
    if f in p'[x] {
      WithoutDistinct(p[x], gone - {f});
      RemoveIsWithout(p'[x], f);
      WithoutTwice(p[x], gone - {f}, {f});
      assert gone - {f} + {f} == gone;
    } else {
      WithoutSame(p[x], gone - {f}, gone);
    }
  }

  /** After f was taken off x's list and, if it was the last, x's failure has
      spread from p1 to p2. */
  lemma TableSpread(needs: set<(int, int)>, p: ProviderTable, p': ProviderTable, p2: ProviderTable, f: int,
                    rest: set<int>,
                    gone: set<int>, gone2: set<int>, targets: set<int>, t1: set<int>, t2: set<int>, f1: set<int>,
                    f2: set<int>, x: int)
    requires TableLeaving(needs, p, p', f, rest, gone, targets, t1, f1)
    requires AllDistinct(p) && f in gone && f !in gone2 && x in rest && x in p && f in p'[x]
    requires TableAfter(needs, p'[x := RemoveFirst(p'[x], f)], p2, gone2, t1, t2, f2) && f1 <= f2
    requires x in t2 && Settled(needs, x, f2)
    ensures TableLeaving(needs, p, p2, f, rest - {x}, gone + gone2, targets, t2, f2)
  {
    TableStep(needs, p, p', f, rest, gone, targets, t1, f1, x);
    forall y | y in p
      ensures p2[y] == Without(p[y], if y in rest - {x} then gone + gone2 - {f} else gone + gone2)
    {
      if y == x {
        WithoutTwice(p[y], gone, gone2);
      } else if y in rest {
        WithoutTwice(p[y], gone - {f}, gone2);
        assert gone - {f} + gone2 == gone + gone2 - {f};
      } else {
        WithoutTwice(p[y], gone, gone2);
      }
    }
  }

  /** The table that is not being walked, across the same spread. */
  lemma TableElsewhere(needs: set<(int, int)>, p: ProviderTable, p': ProviderTable, p2: ProviderTable, f: int,
                       rest: set<int>,
                       gone: set<int>, gone2: set<int>, targets: set<int>, t1: set<int>, t2: set<int>, f1: set<int>,
                       f2: set<int>)
    requires TableLeaving(needs, p, p', f, rest, gone, targets, t1, f1)
    requires f in gone && f !in gone2
    requires TableAfter(needs, p', p2, gone2, t1, t2, f2) && f1 <= f2
    ensures TableLeaving(needs, p, p2, f, rest, gone + gone2, targets, t2, f2)
  {
    forall y | y in p
      ensures p2[y] == Without(p[y], if y in rest then gone + gone2 - {f} else gone + gone2)
    {
      if y in rest {
        WithoutTwice(p[y], gone - {f}, gone2);
        assert gone - {f} + gone2 == gone + gone2 - {f};
      } else {
        WithoutTwice(p[y], gone, gone2);
      }
    }
  }

  lemma BuildStep(needs: Needs, s: State, s1: State, f: int, restB: set<int>, x: int)
    requires Leaving(needs, s, s1, f, restB, s.run.Keys) && AllDistinct(s.build)
    requires x in restB && x in s.build
    ensures x in s1.build
    ensures f !in s1.build[x] ==> Leaving(needs, s, s1, f, restB - {x}, s.run.Keys)
    ensures f in s1.build[x] && RemoveFirst(s1.build[x], f) != [] ==>
      Leaving(needs, s, s1.(build := s1.build[x := RemoveFirst(s1.build[x], f)]), f, restB - {x}, s.run.Keys)
  {
    TableStep(needs.build, s.build, s1.build, f, restB, s1.failed.files - s.failed.files,
              s.failed.builds, s1.failed.builds, s1.failed.files, x);
  }

  lemma RunStep(needs: Needs, s: State, s1: State, f: int, restR: set<int>, x: int)
    requires Leaving(needs, s, s1, f, {}, restR) && AllDistinct(s.run)
    requires x in restR && x in s.run
    ensures x in s1.run
    ensures f !in s1.run[x] ==> Leaving(needs, s, s1, f, {}, restR - {x})
    ensures f in s1.run[x] && RemoveFirst(s1.run[x], f) != [] ==>
      Leaving(needs, s, s1.(run := s1.run[x := RemoveFirst(s1.run[x], f)]), f, {}, restR - {x})
  {
    TableStep(needs.run, s.run, s1.run, f, restR, s1.failed.files - s.failed.files,
              s.failed.runs, s1.failed.runs, s1.failed.files, x);
  }

  lemma BuildSpread(needs: Needs, s: State, s1: State, s2: State, f: int, restB: set<int>, x: int)
    requires Leaving(needs, s, s1, f, restB, s.run.Keys) && AllDistinct(s.build)
    requires x in restB && x in s.build && x in s1.build && f in s1.build[x]
    requires After(needs, s1.(build := s1.build[x := RemoveFirst(s1.build[x], f)]), s2)
    requires x in s2.failed.builds && Settled(needs.build, x, s2.failed.files)
    ensures Leaving(needs, s, s2, f, restB - {x}, s.run.Keys)
  {
    var g1, g2 := s1.failed.files - s.failed.files, s2.failed.files - s1.failed.files;
    assert s2.failed.files - s.failed.files == g1 + g2;
    TableSpread(needs.build, s.build, s1.build, s2.build, f, restB, g1, g2,
                s.failed.builds, s1.failed.builds, s2.failed.builds, s1.failed.files, s2.failed.files, x);
    TableElsewhere(needs.run, s.run, s1.run, s2.run, f, s.run.Keys, g1, g2,
                   s.failed.runs, s1.failed.runs, s2.failed.runs, s1.failed.files, s2.failed.files);
  }

  lemma RunSpread(needs: Needs, s: State, s1: State, s2: State, f: int, restR: set<int>, x: int)
    requires Leaving(needs, s, s1, f, {}, restR) && AllDistinct(s.run)
    requires x in restR && x in s.run && x in s1.run && f in s1.run[x]
    requires After(needs, s1.(run := s1.run[x := RemoveFirst(s1.run[x], f)]), s2)
    requires x in s2.failed.runs && Settled(needs.run, x, s2.failed.files)
    ensures Leaving(needs, s, s2, f, {}, restR - {x})
  {
    var g1, g2 := s1.failed.files - s.failed.files, s2.failed.files - s1.failed.files;
    assert s2.failed.files - s.failed.files == g1 + g2;
    TableSpread(needs.run, s.run, s1.run, s2.run, f, restR, g1, g2,
                s.failed.runs, s1.failed.runs, s2.failed.runs, s1.failed.files, s2.failed.files, x);
    TableElsewhere(needs.build, s.build, s1.build, s2.build, f, {}, g1, g2,
                   s.failed.builds, s1.failed.builds, s2.failed.builds, s1.failed.files, s2.failed.files);
  }

  // --- staying within every bound ---

  lemma BoundFile(needs: Needs, s: State, c: Failed, f: int)
    requires Bound(needs, s, c) && f in c.files
    ensures Bound(needs, s.(failed := s.failed.(files := s.failed.files + {f})), c)
  {
  }

  lemma {:induction false} RemoveMembers(s: seq<int>, f: int)
    requires f in s
    ensures Elements(s) == Elements(RemoveFirst(s, f)) + {f}
  {
    assert s == [s[0]] + s[1..];
    if s[0] != f {
      RemoveMembers(s[1..], f);
    }
    assert Elements(s) == {s[0]} + Elements(s[1..]);
  }

  lemma BoundBuildRemove(needs: Needs, s: State, c: Failed, x: int, f: int)
    requires Bound(needs, s, c) && x in s.build && f in s.build[x] && f in c.files
    ensures Bound(needs, s.(build := s.build[x := RemoveFirst(s.build[x], f)]), c)
    ensures RemoveFirst(s.build[x], f) == [] ==> x in c.builds
  {
    RemoveMembers(s.build[x], f);
  }

  lemma BoundRunRemove(needs: Needs, s: State, c: Failed, x: int, f: int)
    requires Bound(needs, s, c) && x in s.run && f in s.run[x] && f in c.files
    ensures Bound(needs, s.(run := s.run[x := RemoveFirst(s.run[x], f)]), c)
    ensures RemoveFirst(s.run[x], f) == [] ==> x in c.runs
  {
    RemoveMembers(s.run[x], f);
  }

  // --- at rest: failure is the least set the rules generate ---

  ghost predicate TableAtRest(needs: set<(int, int)>, p: ProviderTable, files: set<int>, targets: set<int>) {
    && AllDistinct(p)
    && (forall x, f :: x in p && f in p[x] ==> f !in files)
    && (forall x :: x in p && p[x] == [] ==> x in targets)
    && (forall x :: x in targets ==> Settled(needs, x, files))
  }

  /** No failed file is listed anywhere, targets without providers have failed,
      and so has everything that needs a failed target. */
  ghost predicate AtRest(needs: Needs, s: State) {
    && TableAtRest(needs.build, s.build, s.failed.files, s.failed.builds)
    && TableAtRest(needs.run, s.run, s.failed.files, s.failed.runs)
  }

  lemma TableRests(needs: set<(int, int)>, p: ProviderTable, p': ProviderTable, t: set<int>, t': set<int>,
                   files: set<int>, files': set<int>)
    requires TableAtRest(needs, p, files, t) && files <= files' &&
      TableAfter(needs, p, p', files' - files, t, t', files')
    ensures TableAtRest(needs, p', files', t') && TableClosed(needs, p, files', t')
  {
    forall x | x in p
      ensures Distinct(p'[x]) && (forall f :: f in p'[x] ==> f !in files') && (Elements(p[x]) <= files' ==> p'[x] == [])
    {
      WithoutDistinct(p[x], files' - files);
      forall f ensures f in p'[x] <==> f in p[x] && f !in files' - files {
        WithoutMembers(p[x], files' - files, f);
      }
      if p'[x] != [] {
        var y := p'[x][0];
        assert y in p'[x];
        assert y in Elements(p[x]) && y !in files';
      }
    }
  }

  /** Starting from rest, what has failed afterwards obeys the rules for the
      providers known before, holds the old failures, and is contained in every
      set that does both and holds the seed: it is the least such set. */
  lemma FailureIsLeast(needs: Needs, s: State, s': State)
    requires AtRest(needs, s) && After(needs, s, s')
    ensures AtRest(needs, s') && Bound(needs, s, s'.failed)
  {
    TableRests(needs.build, s.build, s'.build, s.failed.builds, s'.failed.builds, s.failed.files, s'.failed.files);
    TableRests(needs.run, s.run, s'.run, s.failed.runs, s'.failed.runs, s.failed.files, s'.failed.files);
  }

  /** Seeds of a failure. */
  datatype Seed = File(f: int) | Build(x: int) | Run(x: int)

  ghost predicate Holds(c: Failed, seed: Seed) {
    match seed
    case File(f) => f in c.files
    case Build(x) => x in c.builds
    case Run(x) => x in c.runs
  }

  /** Everything that has failed in s' had to: it is in every set that obeys the
      rules from s on and holds the seed. */
  ghost predicate Forced(needs: Needs, s: State, seed: Seed, s': State) {
    forall c :: Bound(needs, s, c) && Holds(c, seed) ==> Bound(needs, s', c)
  }

  /** Whatever order dictionaries are walked in, the outcome of a failure is the same. */
  lemma OrderDoesNotMatter(needs: Needs, s: State, seed: Seed, s1: State, s2: State)
    requires AtRest(needs, s) && After(needs, s, s1) && After(needs, s, s2)
    requires Holds(s1.failed, seed) && Holds(s2.failed, seed)
    requires Forced(needs, s, seed, s1) && Forced(needs, s, seed, s2)
    ensures s1 == s2
  {
    FailureIsLeast(needs, s, s1);
    FailureIsLeast(needs, s, s2);
    assert Within(s1.failed, s2.failed) && Within(s2.failed, s1.failed);
    assert s1.failed == s2.failed;
    assert forall x :: x in s.build ==> s1.build[x] == s2.build[x];
    assert forall x :: x in s.run ==> s1.run[x] == s2.run[x];
    assert s1.build == s2.build && s1.run == s2.run;
  }
}
