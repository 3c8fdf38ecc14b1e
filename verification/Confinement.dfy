/** How far failure can get while targets are resolved.

Failure stays within every set of names that holds what has failed before, what nothing
provides, what the first file that could provide it takes down, and what needs any of it. */
module Confinement {
  import opened Collections
  import opened Failures
  import opened Resolution

  /** Names of files, build targets and runtime targets that may fail. */
  datatype Hopeless = Hopeless(files: iset<string>, builds: iset<string>, runs: iset<string>)

  /** A target without hope: nobody provides it, or the first file that is eligible may fail. */
  predicate NoHope(eligible: seq<string>, files: iset<string>) {
    eligible == [] || eligible[0] in files
  }

  ghost predicate WantsBuild(dc: DataCache, fn: string, w: string) {
    w in dc.deps(fn) || exists decl, d :: decl in dc.tasks(fn) && d in decl.idepends && d.0 == w
  }

  /** What must be among the names that may fail. */
  ghost predicate Rules(dc: DataCache, h: Hopeless) {
    && (forall w :: w !in dc.ignored_dependencies && (w in dc.providers ==> NoHope(dc.eligible(w), h.files)) ==>
          w in h.builds)
    && (forall w :: w !in dc.ignored_dependencies && (dc.rproviders(w) != [] ==> NoHope(dc.religible(w), h.files)) ==>
          w in h.runs)
    && (forall fn, w :: WantsBuild(dc, fn, w) && w in h.builds ==> fn in h.files)
    && (forall fn, w :: w in dc.rundeps(fn) && w in h.runs ==> fn in h.files)
  }

  /** Only such targets have failed, and every other one with an entry has a provider
      that will not. */
  ghost predicate TableConfined(names: seq<string>, fns: seq<string>, p: ProviderTable, failed: set<int>,
                                targets: iset<string>, files: iset<string>)
  {
    && (forall x :: x in failed ==> 0 <= x < |names| && names[x] in targets)
    && (forall x :: x in p ==> 0 <= x < |names| && (names[x] in targets || HasSafe(fns, p[x], files)))
    && (forall x, f :: x in p && f in p[x] ==> 0 <= f < |fns|)
  }

  ghost predicate HasSafe(fns: seq<string>, l: seq<int>, files: iset<string>) {
    exists f :: f in l && 0 <= f < |fns| && fns[f] !in files
  }

  /** Failure has not got beyond these names. */
  ghost predicate Confined(t: Tally, h: Hopeless) {
    && (forall f :: f in t.s.failed.files ==> 0 <= f < |t.fns| && t.fns[f] in h.files)
    && TableConfined(t.builds, t.fns, t.s.build, t.s.failed.builds, h.builds, h.files)
    && TableConfined(t.runs, t.fns, t.s.run, t.s.failed.runs, h.runs, h.files)
  }

  /** The ids of these names. */
  ghost function ById(t: Tally, h: Hopeless): Failed {
    Failed(set f | 0 <= f < |t.fns| && t.fns[f] in h.files,
           set x | 0 <= x < |t.builds| && t.builds[x] in h.builds,
           set x | 0 <= x < |t.runs| && t.runs[x] in h.runs)
  }

  /** The needs are what the metadata asks for. */
  ghost predicate Spelled(needs: Needs, t: Tally, dc: DataCache) {
    && (forall f, x :: (f, x) in needs.build ==>
          0 <= f < |t.fns| && 0 <= x < |t.builds| && WantsBuild(dc, t.fns[f], t.builds[x]))
    && (forall f, x :: (f, x) in needs.run ==>
          0 <= f < |t.fns| && 0 <= x < |t.runs| && t.runs[x] in dc.rundeps(t.fns[f]))
  }

  lemma NeedsAreSpelled(depids: map<int, seq<int>>, rdepids: map<int, seq<int>>, tt: TaskTables, t: Tally,
                        dc: DataCache)
    requires tt.fns == t.fns && tt.builds == t.builds && |tt.fnids| == |tt.idepends|
    requires SpellsAll(depids, t.fns, t.builds, dc.deps) && SpellsAll(rdepids, t.fns, t.runs, dc.rundeps)
    requires Asked(tt, dc)
    ensures Spelled(NeedsOf(depids, rdepids, tt.fnids, tt.idepends), t, dc)
  {
    var needs := NeedsOf(depids, rdepids, tt.fnids, tt.idepends);
    forall f, x | (f, x) in needs.build
      ensures 0 <= f < |t.fns| && 0 <= x < |t.builds| && WantsBuild(dc, t.fns[f], t.builds[x])
    {
      if f in depids && x in depids[f] {
        assert Spells(depids[f], t.builds, dc.deps(t.fns[f]));
      } else {
        var k, e :| 0 <= k < |tt.fnids| && e in tt.idepends[k] && tt.fnids[k] == f && e.0 == x;
        assert AskedIdepend(tt, dc, k, e);
      }
    }
    forall f, x | (f, x) in needs.run
      ensures 0 <= f < |t.fns| && 0 <= x < |t.runs| && t.runs[x] in dc.rundeps(t.fns[f])
    {
      assert Spells(rdepids[f], t.runs, dc.rundeps(t.fns[f]));
    }
  }

  /** In terms of ids, such a set obeys the rules of failure. */
  lemma ConfinedIsBound(t: Tally, h: Hopeless, dc: DataCache, needs: Needs)
    requires Rules(dc, h) && Confined(t, h) && Spelled(needs, t, dc)
    ensures Bound(needs, t.s, ById(t, h))
  {
    var c := ById(t, h);
    forall x | x in c.builds ensures Settled(needs.build, x, c.files) {
      forall f | (f, x) in needs.build ensures f in c.files {
        assert WantsBuild(dc, t.fns[f], t.builds[x]);
      }
    }
    forall x | x in c.runs ensures Settled(needs.run, x, c.files) {
    }
    forall x | x in t.s.build && Elements(t.s.build[x]) <= c.files ensures x in c.builds {
      SafeIsNoElement(t.fns, t.s.build[x], h.files, c.files);
    }
    forall x | x in t.s.run && Elements(t.s.run[x]) <= c.files ensures x in c.runs {
      SafeIsNoElement(t.fns, t.s.run[x], h.files, c.files);
    }
  }

  lemma SafeIsNoElement(fns: seq<string>, l: seq<int>, files: iset<string>, ids: set<int>)
    requires forall f :: f in ids ==> 0 <= f < |fns| && fns[f] in files
    ensures HasSafe(fns, l, files) ==> !(Elements(l) <= ids)
  {
    if HasSafe(fns, l, files) {
      var f :| f in l && 0 <= f < |fns| && fns[f] !in files;
      assert f in Elements(l) && f !in ids;
    }
  }

  lemma TableStaysConfined(names: seq<string>, fns: seq<string>, p: ProviderTable, p': ProviderTable,
                           failed: set<int>, failed': set<int>, gone: set<int>, targets: iset<string>,
                           files: iset<string>)
    requires TableConfined(names, fns, p, failed, targets, files)
    requires p'.Keys == p.Keys && forall x :: x in p ==> p'[x] == Without(p[x], gone)
    requires forall f :: f in gone ==> 0 <= f < |fns| && fns[f] in files
    requires forall x :: x in failed' ==> 0 <= x < |names| && names[x] in targets
    ensures TableConfined(names, fns, p', failed', targets, files)
  {
    forall x | x in p' ensures names[x] in targets || HasSafe(fns, p'[x], files) {
      if names[x] !in targets {
        var f :| f in p[x] && 0 <= f < |fns| && fns[f] !in files;
        WithoutMembers(p[x], gone, f);
      }
    }
    forall x, f | x in p' && f in p'[x] ensures 0 <= f < |fns| {
      WithoutMembers(p[x], gone, f);
    }
  }

  /** Failure that starts inside stays inside. */
  lemma SpreadIsConfined(t: Tally, h: Hopeless, dc: DataCache, needs: Needs, seed: Seed, s': State)
    requires Rules(dc, h) && Confined(t, h) && Spelled(needs, t, dc)
    requires Holds(ById(t, h), seed) && Forced(needs, t.s, seed, s') && After(needs, t.s, s')
    ensures Confined(t.(s := s'), h)
  {
    var c := ById(t, h);
    ConfinedIsBound(t, h, dc, needs);
    assert Bound(needs, s', c);
    var gone := s'.failed.files - t.s.failed.files;
    TableStaysConfined(t.builds, t.fns, t.s.build, s'.build, t.s.failed.builds, s'.failed.builds, gone,
                       h.builds, h.files);
    TableStaysConfined(t.runs, t.fns, t.s.run, s'.run, t.s.failed.runs, s'.failed.runs, gone, h.runs, h.files);
  }

  /** Even while it is still to spread. */
  lemma SpreadStaysWithin(t: Tally, h: Hopeless, dc: DataCache, needs: Needs, seed: Seed, s': State)
    requires Rules(dc, h) && Confined(t, h) && Spelled(needs, t, dc)
    requires Holds(ById(t, h), seed) && Forced(needs, t.s, seed, s')
    ensures Within(s'.failed, ById(t, h))
  {
    ConfinedIsBound(t, h, dc, needs);
    assert Bound(needs, s', ById(t, h));
  }

  /** New names change nothing. */
  lemma NamesAreConfined(t: Tally, u: Tally, h: Hopeless)
    requires Confined(t, h) && t.builds <= u.builds && t.runs <= u.runs && t.fns <= u.fns && u.s == t.s
    ensures Confined(u, h)
  {
    forall x | x in u.s.build ensures u.builds[x] in h.builds || HasSafe(u.fns, u.s.build[x], h.files) {
      if t.builds[x] !in h.builds {
        SafeStays(t.fns, u.fns, u.s.build[x], h.files);
      }
    }
    forall x | x in u.s.run ensures u.runs[x] in h.runs || HasSafe(u.fns, u.s.run[x], h.files) {
      if t.runs[x] !in h.runs {
        SafeStays(t.fns, u.fns, u.s.run[x], h.files);
      }
    }
  }

  lemma SafeStays(fns: seq<string>, fns': seq<string>, l: seq<int>, files: iset<string>)
    requires fns <= fns' && HasSafe(fns, l, files)
    ensures HasSafe(fns', l, files)
  {
    var f :| f in l && 0 <= f < |fns| && fns[f] !in files;
    assert fns'[f] == fns[f];
  }

  /** A provider joins: a new entry must be for a target that may fail, or start with a
      file that will not. */
  lemma ProviderIsConfined(names: seq<string>, fns: seq<string>, p: ProviderTable, failed: set<int>,
                           targets: iset<string>, files: iset<string>, x: int, f: int)
    requires TableConfined(names, fns, p, failed, targets, files) && 0 <= x < |names| && 0 <= f < |fns|
    requires names[x] in targets || x in p || fns[f] !in files
    ensures TableConfined(names, fns, WithProvider(p, x, f), failed, targets, files)
  {
    var p' := WithProvider(p, x, f);
    if x in p {
      if HasSafe(fns, p[x], files) {
        var g :| g in p[x] && 0 <= g < |fns| && fns[g] !in files;
        assert g in p'[x];
      }
    } else {
      assert fns[f] !in files ==> f in p'[x] && HasSafe(fns, p'[x], files);
    }
  }

  /** A file that has failed may fail. */
  lemma FailedMayFail(t: Tally, h: Hopeless, fn: string)
    requires Confined(t, h) && HasFailed(t, fn)
    ensures fn in h.files
  {
  }

  /** A target that nothing can provide may fail. */
  lemma UnprovidedMayFail(t: Tally, h: Hopeless, dc: DataCache, w: string)
    requires Rules(dc, h) && Confined(t, h) && w !in dc.ignored_dependencies
    requires w in dc.providers ==> forall p :: p in dc.eligible(w) ==> HasFailed(t, p)
    ensures w in h.builds
  {
    if w in dc.providers && dc.eligible(w) != [] {
      FailedMayFail(t, h, dc.eligible(w)[0]);
    }
  }

  lemma UnprovidedRunMayFail(t: Tally, h: Hopeless, dc: DataCache, w: string)
    requires Rules(dc, h) && Confined(t, h) && w !in dc.ignored_dependencies
    requires dc.rproviders(w) != [] ==> forall p :: p in dc.religible(w) ==> HasFailed(t, p)
    ensures w in h.runs
  {
    if dc.rproviders(w) != [] && dc.religible(w) != [] {
      FailedMayFail(t, h, dc.religible(w)[0]);
    }
  }

  lemma BuildJoinIsConfined(t: Tally, h: Hopeless, x: int, f: int)
    requires Confined(t, h) && 0 <= x < |t.builds| && 0 <= f < |t.fns|
    requires t.builds[x] in h.builds || x in t.s.build || t.fns[f] !in h.files
    ensures Confined(t.(s := t.s.(build := WithProvider(t.s.build, x, f))), h)
  {
    ProviderIsConfined(t.builds, t.fns, t.s.build, t.s.failed.builds, h.builds, h.files, x, f);
  }

  lemma RunJoinIsConfined(t: Tally, h: Hopeless, x: int, f: int)
    requires Confined(t, h) && 0 <= x < |t.runs| && 0 <= f < |t.fns|
    requires t.runs[x] in h.runs || x in t.s.run || t.fns[f] !in h.files
    ensures Confined(t.(s := t.s.(run := WithProvider(t.s.run, x, f))), h)
  {
    ProviderIsConfined(t.runs, t.fns, t.s.run, t.s.failed.runs, h.runs, h.files, x, f);
  }

  lemma SafeHasNotFailed(t: Tally, h: Hopeless, fn: string)
    requires Confined(t, h) && fn !in h.files
    ensures !HasFailed(t, fn)
  {
  }

  /** A target with hope keeps it when the failed files are dropped. */
  lemma HopeStays(t: Tally, h: Hopeless, eligible: seq<string>)
    requires Confined(t, h) && !NoHope(eligible, h.files)
    ensures !NoHope(Dropped(eligible, 0, FailedNames(t)), h.files)
  {
    SafeHasNotFailed(t, h, eligible[0]);
    DroppedLaws(eligible, 0, FailedNames(t));
  }

  // --- the smallest such names ---

  ghost predicate FileMayFail(dc: DataCache, t: Tally, fn: string) {
    forall h :: Rules(dc, h) && Confined(t, h) ==> fn in h.files
  }

  ghost predicate BuildMayFail(dc: DataCache, t: Tally, w: string) {
    forall h :: Rules(dc, h) && Confined(t, h) ==> w in h.builds
  }

  ghost predicate RunMayFail(dc: DataCache, t: Tally, w: string) {
    forall h :: Rules(dc, h) && Confined(t, h) ==> w in h.runs
  }

  /** The names that may fail according to all sets of this kind. */
  ghost function Least(dc: DataCache, t: Tally): Hopeless {
    Hopeless(iset fn | FileMayFail(dc, t, fn), iset w | BuildMayFail(dc, t, w), iset w | RunMayFail(dc, t, w))
  }

  lemma LeastIsWithin(dc: DataCache, t: Tally, h: Hopeless)
    requires Rules(dc, h) && Confined(t, h)
    ensures
      var l := Least(dc, t);
      l.files <= h.files && l.builds <= h.builds && l.runs <= h.runs
  {
  }

  lemma LeastObeysTheRules(dc: DataCache, t: Tally)
    ensures Rules(dc, Least(dc, t))
  {
    var l := Least(dc, t);
    forall w | w !in dc.ignored_dependencies && (w in dc.providers ==> NoHope(dc.eligible(w), l.files))
      ensures w in l.builds
    {
      forall h | Rules(dc, h) && Confined(t, h) ensures w in h.builds {
        assert w in dc.providers ==> NoHope(dc.eligible(w), h.files);
      }
    }
    forall w | w !in dc.ignored_dependencies && (dc.rproviders(w) != [] ==> NoHope(dc.religible(w), l.files))
      ensures w in l.runs
    {
      forall h | Rules(dc, h) && Confined(t, h) ensures w in h.runs {
        assert dc.rproviders(w) != [] ==> NoHope(dc.religible(w), h.files);
      }
    }
    forall fn, w | WantsBuild(dc, fn, w) && w in l.builds ensures fn in l.files {
      forall h | Rules(dc, h) && Confined(t, h) ensures fn in h.files {
        assert w in h.builds;
      }
    }
    forall fn, w | w in dc.rundeps(fn) && w in l.runs ensures fn in l.files {
      forall h | Rules(dc, h) && Confined(t, h) ensures fn in h.files {
        assert w in h.runs;
      }
    }
  }

  lemma LeastConfines(dc: DataCache, t: Tally, h: Hopeless)
    requires Rules(dc, h) && Confined(t, h)
    ensures Confined(t, Least(dc, t))
  {
    hide Rules;
    var l := Least(dc, t);
    forall x | x in t.s.build && t.builds[x] !in l.builds ensures HasSafe(t.fns, t.s.build[x], l.files) {
      var g :| Rules(dc, g) && Confined(t, g) && t.builds[x] !in g.builds;
      LeastIsWithin(dc, t, g);
      var f :| f in t.s.build[x] && 0 <= f < |t.fns| && t.fns[f] !in g.files;
      assert t.fns[f] !in l.files;
    }
    forall x | x in t.s.run && t.runs[x] !in l.runs ensures HasSafe(t.fns, t.s.run[x], l.files) {
      var g :| Rules(dc, g) && Confined(t, g) && t.runs[x] !in g.runs;
      LeastIsWithin(dc, t, g);
      var f :| f in t.s.run[x] && 0 <= f < |t.fns| && t.fns[f] !in g.files;
      assert t.fns[f] !in l.files;
    }
  }

  /** Names that provide for each other: the first file that is eligible for a target is
      among them, and so is all that their files need. */
  ghost predicate ProvideEachOther(dc: DataCache, good: Hopeless) {
    && (forall w :: w in good.builds && w !in dc.ignored_dependencies ==>
          w in dc.providers && dc.eligible(w) != [] && dc.eligible(w)[0] in good.files)
    && (forall w :: w in good.runs && w !in dc.ignored_dependencies ==>
          dc.rproviders(w) != [] && dc.religible(w) != [] && dc.religible(w)[0] in good.files)
    && (forall fn :: fn in good.files ==>
          && (forall w :: w in dc.deps(fn) ==> w in good.builds)
          && (forall decl, d :: decl in dc.tasks(fn) && d in decl.idepends ==> d.0 in good.builds)
          && (forall w :: w in dc.rundeps(fn) ==> w in good.runs))
  }

  ghost function AllOthers(good: Hopeless): Hopeless {
    Hopeless(iset fn: string | fn !in good.files, iset w: string | w !in good.builds, iset w: string | w !in good.runs)
  }

  /** All other names obey the rules exactly if they do. */
  lemma OthersMayFail(dc: DataCache, good: Hopeless)
    ensures ProvideEachOther(dc, good) <==> Rules(dc, AllOthers(good))
  {
    var h := AllOthers(good);
    if ProvideEachOther(dc, good) {
      forall fn, w | WantsBuild(dc, fn, w) && w in h.builds ensures fn in h.files {
      }
    }
    if Rules(dc, h) {
      forall w | w in good.builds && w !in dc.ignored_dependencies
        ensures w in dc.providers && dc.eligible(w) != [] && dc.eligible(w)[0] in good.files
      {
        assert w !in h.builds;
      }
      forall w | w in good.runs && w !in dc.ignored_dependencies
        ensures dc.rproviders(w) != [] && dc.religible(w) != [] && dc.religible(w)[0] in good.files
      {
        assert w !in h.runs;
      }
      forall fn, w | fn in good.files && WantsBuild(dc, fn, w) ensures w in good.builds {
        assert w in h.builds ==> fn in h.files;
      }
      forall fn, w | fn in good.files && w in dc.rundeps(fn) ensures w in good.runs {
        assert w in h.runs ==> fn in h.files;
      }
      forall fn, decl, d | fn in good.files && decl in dc.tasks(fn) && d in decl.idepends ensures d.0 in good.builds {
        assert WantsBuild(dc, fn, d.0);
      }
    }
  }

  // --- more than one provider ---

  /** The rules that one would expect: a target fails when all its eligible files do. */
  ghost predicate ExpectedRules(dc: DataCache, h: Hopeless) {
    && (forall w ::
          && w !in dc.ignored_dependencies
          && (w in dc.providers ==> forall p :: p in dc.eligible(w) ==> p in h.files) ==>
          w in h.builds)
    && (forall w ::
          && w !in dc.ignored_dependencies
          && (dc.rproviders(w) != [] ==> forall p :: p in dc.religible(w) ==> p in h.files) ==>
          w in h.runs)
    && (forall fn, w :: WantsBuild(dc, fn, w) && w in h.builds ==> fn in h.files)
    && (forall fn, w :: w in dc.rundeps(fn) && w in h.runs ==> fn in h.files)
  }

  /** Hopeless first files have no hopeful successors. */
  ghost predicate FirstSpeaksForAll(dc: DataCache, h: Hopeless) {
    && (forall w, p :: w in dc.providers && NoHope(dc.eligible(w), h.files) && p in dc.eligible(w) ==>
          p in h.files || w in h.builds || w in dc.ignored_dependencies)
    && (forall w, p :: dc.rproviders(w) != [] && NoHope(dc.religible(w), h.files) && p in dc.religible(w) ==>
          p in h.files || w in h.runs || w in dc.ignored_dependencies)
  }

  /** The rules that hold are the expected ones exactly where the first eligible file
      speaks for all. */
  lemma RulesAreExpected(dc: DataCache, h: Hopeless)
    ensures Rules(dc, h) <==> ExpectedRules(dc, h) && FirstSpeaksForAll(dc, h)
  {
    forall w | w in dc.providers && forall p :: p in dc.eligible(w) ==> p in h.files
      ensures NoHope(dc.eligible(w), h.files)
    {
      assert dc.eligible(w) != [] ==> dc.eligible(w)[0] in dc.eligible(w);
    }
    forall w | dc.rproviders(w) != [] && forall p :: p in dc.religible(w) ==> p in h.files
      ensures NoHope(dc.religible(w), h.files)
    {
      assert dc.religible(w) != [] ==> dc.religible(w)[0] in dc.religible(w);
    }
  }
}
