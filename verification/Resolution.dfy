/** What TaskData's methods do to its tables, as relations between tables. */
module Resolution {
  import opened Collections
  import opened Failures

  /** Which file needs which target, read off the dependency tables. */
  ghost function NeedsOf(depids: map<int, seq<int>>, rdepids: map<int, seq<int>>,
                         tasks_fnid: seq<int>, tasks_idepends: seq<seq<(int, string)>>): Needs
    requires |tasks_fnid| == |tasks_idepends|
  {
    Needs((set f, t | f in depids && t in depids[f] :: (f, t)) +
          (set k, e | 0 <= k < |tasks_fnid| && e in tasks_idepends[k] :: (tasks_fnid[k], e.0)),
          set f, t | f in rdepids && t in rdepids[f] :: (f, t))
  }

  /** Everything that needs build target x has failed, said of the tables. */
  lemma SettledBuilds(depids: map<int, seq<int>>, rdepids: map<int, seq<int>>, tasks_fnid: seq<int>,
                      tasks_idepends: seq<seq<(int, string)>>, x: int, files: set<int>)
    requires |tasks_fnid| == |tasks_idepends|
    ensures Settled(NeedsOf(depids, rdepids, tasks_fnid, tasks_idepends).build, x, files) <==>
      && (forall f :: f in depids && x in depids[f] ==> f in files)
      && forall k, e :: 0 <= k < |tasks_fnid| && e in tasks_idepends[k] && e.0 == x ==> tasks_fnid[k] in files
  {
    var needs := NeedsOf(depids, rdepids, tasks_fnid, tasks_idepends);
    if Settled(needs.build, x, files) {
      forall f | f in depids && x in depids[f] ensures f in files {
        assert (f, x) in needs.build;
      }
      forall k, e | 0 <= k < |tasks_fnid| && e in tasks_idepends[k] && e.0 == x ensures tasks_fnid[k] in files {
        var f := tasks_fnid[k];
        assert (f, e.0) in needs.build;
        assert (f, x) in needs.build;
      }
    }
  }

  lemma ElementsAppend<T>(s: seq<T>, x: T)
    ensures Elements(s + [x]) == Elements(s) + {x}
  {
  }

  lemma {:induction false} BelowFinite(S: set<int>, n: nat)
    requires forall x :: x in S ==> 0 <= x < n
    ensures |S| <= n
  {
    if n == 0 {
      forall x ensures x !in S {}
      assert S == {};
    } else {
      BelowFinite(S - {n - 1}, n - 1);
      assert n - 1 in S ==> S == (S - {n - 1}) + {n - 1};
      assert n - 1 !in S ==> S == S - {n - 1};
    }
  }

  /** Marking a target failed and then everything that needs it. */
  lemma AfterBuildTarget(needs: Needs, s: State, x: int, s': State)
    requires After(needs, s.(failed := s.failed.(builds := s.failed.builds + {x})), s')
    requires Settled(needs.build, x, s'.failed.files)
    ensures After(needs, s, s')
  {
  }

  lemma AfterRunTarget(needs: Needs, s: State, x: int, s': State)
    requires After(needs, s.(failed := s.failed.(runs := s.failed.runs + {x})), s')
    requires Settled(needs.run, x, s'.failed.files)
    ensures After(needs, s, s')
  {
  }

  lemma BoundBuildTarget(needs: Needs, s: State, c: Failed, x: int)
    requires Bound(needs, s, c) && x in c.builds
    ensures Bound(needs, s.(failed := s.failed.(builds := s.failed.builds + {x})), c)
    ensures forall f :: (f, x) in needs.build ==> f in c.files
  {
    assert Settled(needs.build, x, c.files);
  }

  lemma BoundRunTarget(needs: Needs, s: State, c: Failed, x: int)
    requires Bound(needs, s, c) && x in c.runs
    ensures Bound(needs, s.(failed := s.failed.(runs := s.failed.runs + {x})), c)
    ensures forall f :: (f, x) in needs.run ==> f in c.files
  {
    assert Settled(needs.run, x, c.files);
  }

  lemma ForcedSelf(needs: Needs, s: State, seed: Seed)
    ensures Forced(needs, s, seed, s)
  {
  }

  lemma ForcedFile(needs: Needs, s: State, f: int)
    ensures Forced(needs, s, File(f), s.(failed := s.failed.(files := s.failed.files + {f})))
  {
    forall c | Bound(needs, s, c) && f in c.files {
      BoundFile(needs, s, c, f);
    }
  }

  lemma ForcedBuildTarget(needs: Needs, s: State, x: int)
    ensures Forced(needs, s, Build(x), s.(failed := s.failed.(builds := s.failed.builds + {x})))
  {
    forall c | Bound(needs, s, c) && x in c.builds {
      BoundBuildTarget(needs, s, c, x);
    }
  }

  lemma ForcedRunTarget(needs: Needs, s: State, x: int)
    ensures Forced(needs, s, Run(x), s.(failed := s.failed.(runs := s.failed.runs + {x})))
  {
    forall c | Bound(needs, s, c) && x in c.runs {
      BoundRunTarget(needs, s, c, x);
    }
  }

  /** A file that needs the failed target was bound to fail too. */
  lemma ForcedDependee(needs: Needs, s: State, seed: Seed, s1: State, f: int, s2: State)
    requires Forced(needs, s, seed, s1) && Forced(needs, s1, File(f), s2)
    requires seed.Build? ==> (f, seed.x) in needs.build
    requires seed.Run? ==> (f, seed.x) in needs.run
    requires !seed.File?
    ensures Forced(needs, s, seed, s2)
  {
    forall c | Bound(needs, s, c) && Holds(c, seed)
      ensures f in c.files
    {
      if seed.Build? {
        BoundBuildTarget(needs, s, c, seed.x);
      } else {
        BoundRunTarget(needs, s, c, seed.x);
      }
    }
    hide Bound;
  }

  /** f was taken off x's list; if that was the last provider, x had to fail. */
  lemma ForcedBuildRemove(needs: Needs, s: State, f: int, s1: State, x: int)
    requires Forced(needs, s, File(f), s1) && x in s1.build && f in s1.build[x]
    ensures Forced(needs, s, File(f), s1.(build := s1.build[x := RemoveFirst(s1.build[x], f)]))
  {
    forall c | Bound(needs, s, c) && f in c.files {
      BoundBuildRemove(needs, s1, c, x, f);
    }
  }

  lemma ForcedBuildSpread(needs: Needs, s: State, f: int, s1: State, x: int, s2: State)
    requires Forced(needs, s, File(f), s1) && x in s1.build && f in s1.build[x] && RemoveFirst(s1.build[x], f) == []
    requires Forced(needs, s1.(build := s1.build[x := RemoveFirst(s1.build[x], f)]), Build(x), s2)
    ensures Forced(needs, s, File(f), s2)
  {
    forall c | Bound(needs, s, c) && f in c.files
      ensures Bound(needs, s2, c)
    {
      BoundBuildRemove(needs, s1, c, x, f);
      hide Bound;
      assert Holds(c, Build(x));
    }
  }

  lemma ForcedRunRemove(needs: Needs, s: State, f: int, s1: State, x: int)
    requires Forced(needs, s, File(f), s1) && x in s1.run && f in s1.run[x]
    ensures Forced(needs, s, File(f), s1.(run := s1.run[x := RemoveFirst(s1.run[x], f)]))
  {
    forall c | Bound(needs, s, c) && f in c.files {
      BoundRunRemove(needs, s1, c, x, f);
    }
  }

  lemma ForcedRunSpread(needs: Needs, s: State, f: int, s1: State, x: int, s2: State)
    requires Forced(needs, s, File(f), s1) && x in s1.run && f in s1.run[x] && RemoveFirst(s1.run[x], f) == []
    requires Forced(needs, s1.(run := s1.run[x := RemoveFirst(s1.run[x], f)]), Run(x), s2)
    ensures Forced(needs, s, File(f), s2)
  {
    forall c | Bound(needs, s, c) && f in c.files
      ensures Bound(needs, s2, c)
    {
      BoundRunRemove(needs, s1, c, x, f);
      hide Bound;
      assert Holds(c, Run(x));
    }
  }

  lemma LeavingDistinct(needs: Needs, s: State, s1: State, f: int, restB: set<int>, restR: set<int>, x: int)
    requires Leaving(needs, s, s1, f, restB, restR) && AllDistinct(s.build) && AllDistinct(s.run)
    ensures AllDistinct(s1.build) && AllDistinct(s1.run)
    ensures s1.build.Keys == s.build.Keys && s1.run.Keys == s.run.Keys
    ensures x in s1.build && x in s.build && f in s1.build[x] ==>
      AllDistinct(s1.build[x := RemoveFirst(s1.build[x], f)])
    ensures x in s1.run && x in s.run && f in s1.run[x] ==>
      AllDistinct(s1.run[x := RemoveFirst(s1.run[x], f)])
    ensures f in s1.failed.files && Within(s.failed, s1.failed)
  {
    var gone := s1.failed.files - s.failed.files;
    forall y | y in s.build
      ensures Distinct(s1.build[y]) && (f in s1.build[y] ==> Distinct(RemoveFirst(s1.build[y], f)))
    {
      WithoutDistinct(s.build[y], if y in restB then gone - {f} else gone);
      if f in s1.build[y] {
        RemoveIsWithout(s1.build[y], f);
        WithoutDistinct(s1.build[y], {f});
      }
    }
    forall y | y in s.run
      ensures Distinct(s1.run[y]) && (f in s1.run[y] ==> Distinct(RemoveFirst(s1.run[y], f)))
    {
      WithoutDistinct(s.run[y], if y in restR then gone - {f} else gone);
      if f in s1.run[y] {
        RemoveIsWithout(s1.run[y], f);
        WithoutDistinct(s1.run[y], {f});
      }
    }
  }

  lemma MoreFailed(a: set<int>, b: set<int>, f: int)
    requires a <= b
    ensures |a| <= |b|
    ensures f in b && f !in a ==> |a| < |b|
  {
    assert b == a + (b - a);
  }

  lemma AfterWithin(needs: Needs, s: State, s1: State)
    requires After(needs, s, s1)
    ensures Within(s.failed, s1.failed)
  {
  }

  /** What Within says about the files. */
  lemma WithinFiles(a: Failed, b: Failed)
    requires Within(a, b)
    ensures a.files <= b.files && a.builds <= b.builds && a.runs <= b.runs
  {
  }

  /** The state in which the seed itself counts as failed. */
  ghost function Seeded(s: State, seed: Seed): State {
    match seed
    case File(f) => s.(failed := s.failed.(files := s.failed.files + {f}))
    case Build(x) => s.(failed := s.failed.(builds := s.failed.builds + {x}))
    case Run(x) => s.(failed := s.failed.(runs := s.failed.runs + {x}))
  }

  lemma SeededWithin(s: State, seed: Seed)
    ensures Within(s.failed, Seeded(s, seed).failed)
  {
  }

  lemma WithinTrans(a: Failed, b: Failed, c: Failed)
    requires Within(a, b) && Within(b, c)
    ensures Within(a, c)
  {
  }

  // --- resolution ---

  datatype TaskDecl = TaskDecl(name: string, parents: seq<string>, idepends: seq<(string, string)>)

  /** What resolution reads of the parsed metadata.  eligible and religible are
      the answers of filterProviders and filterProvidersRunTime, rproviders that
      of getRuntimeProviders; rundeps joins RDEPENDS and RRECOMMENDS. */
  datatype DataCache = DataCache(ignored_dependencies: set<string>, providers: set<string>,
                                 eligible: string -> seq<string>, rproviders: string -> seq<string>,
                                 religible: string -> seq<string>, tasks: string -> seq<TaskDecl>,
                                 deps: string -> seq<string>, rundeps: string -> seq<string>)

  /** The id of a name, which is added when it is new. */
  method IdOf(names0: seq<string>, name: string) returns (names: seq<string>, id: nat)
    requires Distinct(names0)
    ensures Distinct(names) && names0 <= names && id < |names| && names[id] == name
    ensures name in names0 ==> names == names0
  {
    for i := 0 to |names0|
      invariant forall k :: 0 <= k < i ==> names0[k] != name
    {
      if names0[i] == name {
        return names0, i;
      }
    }
    return names0 + [name], |names0|;
  }

  /** ids are the ids of exactly the wanted names. */
  ghost predicate Spells(ids: seq<int>, names: seq<string>, wanted: seq<string>) {
    && (forall x :: x in ids ==> 0 <= x < |names| && names[x] in wanted)
    && (forall w :: w in wanted ==> HasId(ids, names, w))
  }

  ghost predicate HasId(ids: seq<int>, names: seq<string>, w: string) {
    exists x :: x in ids && 0 <= x < |names| && names[x] == w
  }

  lemma HasIdGrows(ids: seq<int>, names: seq<string>, ids': seq<int>, names': seq<string>, w: string)
    requires HasId(ids, names, w) && ids <= ids' && names <= names'
    ensures HasId(ids', names', w)
  {
    var x :| x in ids && 0 <= x < |names| && names[x] == w;
    assert x in ids' && names'[x] == w;
  }

  lemma SpellsGrows(ids: seq<int>, names: seq<string>, names': seq<string>, wanted: seq<string>)
    requires Spells(ids, names, wanted) && names <= names'
    ensures Spells(ids, names', wanted)
  {
    forall w | w in wanted ensures HasId(ids, names', w) {
      HasIdGrows(ids, names, ids, names', w);
    }
  }

  /** The ids of a list of names, without repetition, as the keys of a dictionary. */
  method IdsOf(names0: seq<string>, wanted: seq<string>) returns (names: seq<string>, ids: seq<int>)
    requires Distinct(names0)
    ensures Distinct(names) && names0 <= names && Spells(ids, names, wanted)
  {
    names, ids := names0, [];
    for i := 0 to |wanted|
      invariant Distinct(names) && names0 <= names && Spells(ids, names, wanted[..i])
    {
      ghost var before, known := names, ids;
      var id: nat;
      names, id := IdOf(names, wanted[i]);
      if id !in ids {
        ids := ids + [id];
      }
      assert wanted[..i+1] == wanted[..i] + [wanted[i]];
      SpellsNext(known, before, wanted[..i], ids, names, wanted[i], id);
    }
    assert wanted[..|wanted|] == wanted;
  }

  lemma SpellsNext(ids: seq<int>, names: seq<string>, wanted: seq<string>, ids': seq<int>, names': seq<string>,
                   w: string, id: int)
    requires Spells(ids, names, wanted) && names <= names' && 0 <= id < |names'| && names'[id] == w
    requires ids' == if id in ids then ids else ids + [id]
    ensures Spells(ids', names', wanted + [w])
  {
    assert id in ids';
    forall v | v in wanted + [w] ensures HasId(ids', names', v) {
      if v in wanted {
        HasIdGrows(ids, names, ids', names', v);
      }
    }
    assert w in wanted + [w];
  }

  /** The task lists, with the names that their ids stand for. */
  datatype TaskTables = TaskTables(fns: seq<string>, builds: seq<string>, names: seq<string>, fnids: seq<int>,
                                   tdepends: seq<seq<int>>, idepends: seq<seq<(int, string)>>)

  ghost predicate IsTask(t: TaskTables, id: int, fn: string, name: string) {
    && 0 <= id < |t.names| && t.names[id] == name
    && id < |t.fnids| && 0 <= t.fnids[id] < |t.fns| && t.fns[t.fnids[id]] == fn
  }

  /** b has everything a has, and perhaps more. */
  ghost predicate Extends(a: TaskTables, b: TaskTables) {
    && a.fns <= b.fns && a.builds <= b.builds && a.names <= b.names && a.fnids <= b.fnids
    && |a.tdepends| <= |b.tdepends| && |a.idepends| <= |b.idepends|
    && (forall k :: 0 <= k < |a.tdepends| ==> a.tdepends[k] <= b.tdepends[k])
    && (forall k :: 0 <= k < |a.idepends| ==> a.idepends[k] <= b.idepends[k])
  }

  ghost predicate HasParent(t: TaskTables, id: int, fn: string, parent: string)
    requires 0 <= id < |t.tdepends|
  {
    exists q :: q in t.tdepends[id] && IsTask(t, q, fn, parent)
  }

  ghost predicate HasIdepend(t: TaskTables, id: int, d: (string, string))
    requires 0 <= id < |t.idepends|
  {
    exists x :: x in t.idepends[id] && 0 <= x.0 < |t.builds| && t.builds[x.0] == d.0 && x.1 == d.1
  }

  /** The task with its parents and inter-task dependencies is in the lists. */
  ghost predicate RecordedAs(t: TaskTables, id: int, fn: string, decl: TaskDecl) {
    && IsTask(t, id, fn, decl.name) && id < |t.tdepends| && id < |t.idepends|
    && (forall p :: p in decl.parents ==> HasParent(t, id, fn, p))
    && (forall d :: d in decl.idepends ==> HasIdepend(t, id, d))
  }

  ghost predicate Recorded(t: TaskTables, fn: string, decl: TaskDecl) {
    exists id :: RecordedAs(t, id, fn, decl)
  }

  lemma TaskStays(a: TaskTables, b: TaskTables, id: int, fn: string, name: string)
    requires Extends(a, b) && IsTask(a, id, fn, name)
    ensures IsTask(b, id, fn, name)
  {
  }

  lemma ParentStays(a: TaskTables, b: TaskTables, id: int, fn: string, parent: string)
    requires Extends(a, b) && 0 <= id < |a.tdepends| && HasParent(a, id, fn, parent)
    ensures HasParent(b, id, fn, parent)
  {
    var q :| q in a.tdepends[id] && IsTask(a, q, fn, parent);
    TaskStays(a, b, q, fn, parent);
    assert q in b.tdepends[id];
  }

  lemma IdependStays(a: TaskTables, b: TaskTables, id: int, d: (string, string))
    requires Extends(a, b) && 0 <= id < |a.idepends| && HasIdepend(a, id, d)
    ensures HasIdepend(b, id, d)
  {
    var x :| x in a.idepends[id] && 0 <= x.0 < |a.builds| && a.builds[x.0] == d.0 && x.1 == d.1;
    assert x in b.idepends[id];
  }

  lemma RecordedStays(a: TaskTables, b: TaskTables, fn: string, decl: TaskDecl)
    requires Extends(a, b) && Recorded(a, fn, decl)
    ensures Recorded(b, fn, decl)
  {
    var id :| RecordedAs(a, id, fn, decl);
    TaskStays(a, b, id, fn, decl.name);
    forall p | p in decl.parents ensures HasParent(b, id, fn, p) {
      ParentStays(a, b, id, fn, p);
    }
    forall d | d in decl.idepends ensures HasIdepend(b, id, d) {
      IdependStays(a, b, id, d);
    }
    assert RecordedAs(b, id, fn, decl);
  }

  lemma ExtendsTrans(a: TaskTables, b: TaskTables, c: TaskTables)
    requires Extends(a, b) && Extends(b, c)
    ensures Extends(a, c)
  {
  }

  /** The lists of one task extended. */
  function WithTask(t: TaskTables, id: int, parents: seq<int>, idepends: seq<(int, string)>): TaskTables
    requires 0 <= id < |t.tdepends| && id < |t.idepends|
  {
    t.(tdepends := t.tdepends[id := t.tdepends[id] + parents],
       idepends := t.idepends[id := t.idepends[id] + idepends])
  }

  lemma TaskRecorded(t: TaskTables, id: int, fn: string, decl: TaskDecl, parents: seq<int>,
                     idepends: seq<(int, string)>)
    requires IsTask(t, id, fn, decl.name) && id < |t.tdepends| && id < |t.idepends|
    requires |parents| == |decl.parents| && |idepends| == |decl.idepends|
    requires forall j :: 0 <= j < |parents| ==> IsTask(t, parents[j], fn, decl.parents[j])
    requires forall j :: 0 <= j < |idepends| ==>
      && 0 <= idepends[j].0 < |t.builds| && t.builds[idepends[j].0] == decl.idepends[j].0
      && idepends[j].1 == decl.idepends[j].1
    ensures Extends(t, WithTask(t, id, parents, idepends)) && Recorded(WithTask(t, id, parents, idepends), fn, decl)
  {
    var u := WithTask(t, id, parents, idepends);
    forall p | p in decl.parents ensures HasParent(u, id, fn, p) {
      var j :| 0 <= j < |decl.parents| && decl.parents[j] == p;
      assert parents[j] in u.tdepends[id] && IsTask(u, parents[j], fn, p);
    }
    forall d | d in decl.idepends ensures HasIdepend(u, id, d) {
      var j :| 0 <= j < |decl.idepends| && decl.idepends[j] == d;
      assert idepends[j] in u.idepends[id];
    }
    assert RecordedAs(u, id, fn, decl);
  }

  /** Entry k of the task lists belongs to a known file. */
  ghost predicate IsListed(t: TaskTables, k: int) {
    0 <= k < |t.fnids| && k < |t.names| && 0 <= t.fnids[k] < |t.fns|
  }

  /** A declaration of the task asks for this inter-task dependency. */
  ghost predicate AskedIdepend(t: TaskTables, dc: DataCache, k: int, e: (int, string)) {
    && IsListed(t, k) && 0 <= e.0 < |t.builds|
    && exists decl ::
      && decl in dc.tasks(t.fns[t.fnids[k]]) && decl.name == t.names[k]
      && (t.builds[e.0], e.1) in decl.idepends
  }

  /** A declaration of the task asks for this parent. */
  ghost predicate AskedParent(t: TaskTables, dc: DataCache, k: int, q: int) {
    && IsListed(t, k) && IsListed(t, q) && t.fnids[q] == t.fnids[k]
    && exists decl :: decl in dc.tasks(t.fns[t.fnids[k]]) && decl.name == t.names[k] && t.names[q] in decl.parents
  }

  /** Nothing is in the lists of a task that its declaration does not ask for. */
  ghost predicate Asked(t: TaskTables, dc: DataCache) {
    && (forall k, e :: 0 <= k < |t.idepends| && e in t.idepends[k] ==> AskedIdepend(t, dc, k, e))
    && (forall k, q :: 0 <= k < |t.tdepends| && q in t.tdepends[k] ==> AskedParent(t, dc, k, q))
  }

  /** New names, and new tasks with empty lists. */
  ghost predicate Widened(a: TaskTables, b: TaskTables) {
    && a.fns <= b.fns && a.builds <= b.builds && a.names <= b.names && a.fnids <= b.fnids
    && |a.tdepends| <= |b.tdepends| && |a.idepends| <= |b.idepends|
    && (forall k :: 0 <= k < |b.tdepends| ==> b.tdepends[k] == if k < |a.tdepends| then a.tdepends[k] else [])
    && (forall k :: 0 <= k < |b.idepends| ==> b.idepends[k] == if k < |a.idepends| then a.idepends[k] else [])
  }

  lemma WidenedTrans(a: TaskTables, b: TaskTables, c: TaskTables)
    requires Widened(a, b) && Widened(b, c)
    ensures Widened(a, c)
  {
  }

  lemma NamesWiden(a: TaskTables, b: TaskTables)
    requires a.fns <= b.fns && a.builds <= b.builds && b == a.(fns := b.fns, builds := b.builds)
    ensures Widened(a, b)
  {
  }

  lemma IdependStaysAsked(a: TaskTables, b: TaskTables, dc: DataCache, k: int, e: (int, string))
    requires a.fns <= b.fns && a.builds <= b.builds && a.names <= b.names && a.fnids <= b.fnids
    requires AskedIdepend(a, dc, k, e)
    ensures AskedIdepend(b, dc, k, e)
  {
  }

  lemma ParentStaysAsked(a: TaskTables, b: TaskTables, dc: DataCache, k: int, q: int)
    requires a.fns <= b.fns && a.builds <= b.builds && a.names <= b.names && a.fnids <= b.fnids
    requires AskedParent(a, dc, k, q)
    ensures AskedParent(b, dc, k, q)
  {
  }

  lemma WidenedAsked(a: TaskTables, b: TaskTables, dc: DataCache)
    requires Widened(a, b) && Asked(a, dc)
    ensures Asked(b, dc)
  {
    forall k, e | 0 <= k < |b.idepends| && e in b.idepends[k] ensures AskedIdepend(b, dc, k, e) {
      IdependStaysAsked(a, b, dc, k, e);
    }
    forall k, q | 0 <= k < |b.tdepends| && q in b.tdepends[k] ensures AskedParent(b, dc, k, q) {
      ParentStaysAsked(a, b, dc, k, q);
    }
  }

  /** The lists of one task grow by what its declaration asks for. */
  lemma TaskStaysAsked(t: TaskTables, dc: DataCache, id: int, fn: string, decl: TaskDecl, parents: seq<int>,
                       idepends: seq<(int, string)>)
    requires Asked(t, dc) && decl in dc.tasks(fn)
    requires IsTask(t, id, fn, decl.name) && id < |t.tdepends| && id < |t.idepends| && Distinct(t.fns)
    requires |parents| == |decl.parents| && |idepends| == |decl.idepends|
    requires forall j :: 0 <= j < |parents| ==> IsTask(t, parents[j], fn, decl.parents[j])
    requires forall j :: 0 <= j < |idepends| ==>
      && 0 <= idepends[j].0 < |t.builds| && t.builds[idepends[j].0] == decl.idepends[j].0
      && idepends[j].1 == decl.idepends[j].1
    ensures Asked(WithTask(t, id, parents, idepends), dc)
  {
    var u := WithTask(t, id, parents, idepends);
    forall k, e | 0 <= k < |u.idepends| && e in u.idepends[k] ensures AskedIdepend(u, dc, k, e) {
      if k < |t.idepends| && e in t.idepends[k] {
        IdependStaysAsked(t, u, dc, k, e);
      } else {
        assert k == id && e in idepends;
        var j :| 0 <= j < |idepends| && idepends[j] == e;
        assert (t.builds[e.0], e.1) == decl.idepends[j];
      }
    }
    forall k, q | 0 <= k < |u.tdepends| && q in u.tdepends[k] ensures AskedParent(u, dc, k, q) {
      if k < |t.tdepends| && q in t.tdepends[k] {
        ParentStaysAsked(t, u, dc, k, q);
      } else {
        assert k == id && q in parents;
        var j :| 0 <= j < |parents| && parents[j] == q;
        assert t.names[q] == decl.parents[j];
      }
    }
  }

  type Lookup = map<int, map<string, int>>

  /** The task lists belong together, and the lookup table is their inverse. */
  ghost predicate LookedUp(t: TaskTables, lookup: Lookup) {
    && |t.names| == |t.fnids| == |t.tdepends| == |t.idepends|
    && (forall f, n :: f in lookup && n in lookup[f] ==>
          var k := lookup[f][n]; 0 <= k < |t.names| && t.fnids[k] == f && t.names[k] == n)
    && (forall k :: 0 <= k < |t.fnids| ==>
          0 <= t.fnids[k] < |t.fns| && t.fnids[k] in lookup && t.names[k] in lookup[t.fnids[k]]
          && lookup[t.fnids[k]][t.names[k]] == k)
  }

  function NewTask(t: TaskTables, fnid: int, task: string): TaskTables {
    t.(names := t.names + [task], fnids := t.fnids + [fnid], tdepends := t.tdepends + [[]],
       idepends := t.idepends + [[]])
  }

  lemma NewTaskLooked(t: TaskTables, lookup: Lookup, fnid: int, task: string)
    requires LookedUp(t, lookup) && 0 <= fnid < |t.fns|
    requires fnid in lookup ==> task !in lookup[fnid]
    ensures var row := if fnid in lookup then lookup[fnid] else map[];
      LookedUp(NewTask(t, fnid, task), lookup[fnid := row[task := |t.names|]])
    ensures Extends(t, NewTask(t, fnid, task)) && IsTask(NewTask(t, fnid, task), |t.names|, t.fns[fnid], task)
  {
  }

  lemma OldTaskLooked(t: TaskTables, lookup: Lookup, fnid: int, task: string)
    requires LookedUp(t, lookup) && fnid in lookup && task in lookup[fnid]
    ensures 0 <= lookup[fnid][task] < |t.names| && 0 <= fnid < |t.fns|
    ensures IsTask(t, lookup[fnid][task], t.fns[fnid], task)
  {
  }

  /** A new file name changes nothing for the tasks. */
  lemma MoreFiles(a: TaskTables, b: TaskTables, lookup: Lookup)
    requires a.fns <= b.fns && b == a.(fns := b.fns) && LookedUp(a, lookup)
    ensures Extends(a, b) && LookedUp(b, lookup)
  {
  }

  lemma ExtendsMeans(a: TaskTables, b: TaskTables)
    requires Extends(a, b)
    ensures a.fns <= b.fns && a.builds <= b.builds
  {
  }

  lemma MoreBuilds(a: TaskTables, b: TaskTables, lookup: Lookup)
    requires a.builds <= b.builds && b == a.(builds := b.builds) && LookedUp(a, lookup)
    ensures Extends(a, b) && LookedUp(b, lookup)
  {
  }

  lemma Lengths(t: TaskTables, lookup: Lookup)
    requires LookedUp(t, lookup)
    ensures |t.names| == |t.fnids| == |t.tdepends| == |t.idepends|
  {
  }

  lemma InLists(t: TaskTables, id: int, fn: string, name: string)
    requires IsTask(t, id, fn, name)
    ensures 0 <= id < |t.names|
  {
  }

  lemma ExtendsSelf(t: TaskTables)
    ensures Extends(t, t)
  {
  }

  /** New build names change nothing for the tasks. */
  lemma SameTasks(a: TaskTables, b: TaskTables, id: int, fn: string, name: string, lookup: Lookup)
    requires a.builds <= b.builds && b == a.(builds := b.builds) && IsTask(a, id, fn, name) && LookedUp(a, lookup)
    ensures Extends(a, b) && IsTask(b, id, fn, name) && LookedUp(b, lookup)
  {
  }

  lemma TasksStay(a: TaskTables, b: TaskTables, ids: seq<int>, fn: string, names: seq<string>)
    requires Extends(a, b) && |ids| == |names| && forall j :: 0 <= j < |ids| ==> IsTask(a, ids[j], fn, names[j])
    ensures forall j :: 0 <= j < |ids| ==> IsTask(b, ids[j], fn, names[j])
  {
  }

  lemma WithTaskIs(t: TaskTables, id: int, parents: seq<int>, idepends: seq<(int, string)>)
    requires 0 <= id < |t.tdepends| && id < |t.idepends|
    ensures WithTask(t, id, parents, idepends) ==
      TaskTables(t.fns, t.builds, t.names, t.fnids, t.tdepends[id := t.tdepends[id] + parents],
                 t.idepends[id := t.idepends[id] + idepends])
  {
  }

  lemma WithTaskLooked(t: TaskTables, id: int, parents: seq<int>, idepends: seq<(int, string)>, lookup: Lookup)
    requires 0 <= id < |t.tdepends| && id < |t.idepends| && LookedUp(t, lookup)
    ensures LookedUp(WithTask(t, id, parents, idepends), lookup)
  {
  }

  /** The ids of the build names of inter-task dependencies. */
  method IdependIds(names0: seq<string>, depends: seq<(string, string)>)
      returns (names: seq<string>, ids: seq<(int, string)>)
    requires Distinct(names0)
    ensures Distinct(names) && names0 <= names && |ids| == |depends|
    ensures forall j :: 0 <= j < |ids| ==>
      0 <= ids[j].0 < |names| && names[ids[j].0] == depends[j].0 && ids[j].1 == depends[j].1
  {
    names, ids := names0, [];
    for i := 0 to |depends|
      invariant Distinct(names) && names0 <= names && |ids| == i
      invariant forall j :: 0 <= j < i ==>
        0 <= ids[j].0 < |names| && names[ids[j].0] == depends[j].0 && ids[j].1 == depends[j].1
    {
      var id: nat;
      names, id := IdOf(names, depends[i].0);
      ids := ids + [(id, depends[i].1)];
    }
  }

  /** Every entry of a dependency table spells what the metadata asks for. */
  ghost predicate SpellsAll(table: map<int, seq<int>>, fns: seq<string>, names: seq<string>,
                            wanted: string -> seq<string>) {
    forall f :: f in table ==> 0 <= f < |fns| && Spells(table[f], names, wanted(fns[f]))
  }

  lemma SpellsAllGrows(table: map<int, seq<int>>, fns: seq<string>, names: seq<string>, wanted: string -> seq<string>,
                       fns': seq<string>, names': seq<string>)
    requires SpellsAll(table, fns, names, wanted) && fns <= fns' && names <= names'
    ensures SpellsAll(table, fns', names', wanted)
  {
    forall f | f in table ensures 0 <= f < |fns'| && Spells(table[f], names', wanted(fns'[f])) {
      SpellsGrows(table[f], names, names', wanted(fns[f]));
    }
  }

  /** The new entries are the needs of file f alone. */
  lemma OnlyFileChanges(depids: map<int, seq<int>>, rdepids: map<int, seq<int>>,
                        depids': map<int, seq<int>>, rdepids': map<int, seq<int>>, f: int)
    requires depids' == depids || (f in depids' && depids' == depids[f := depids'[f]])
    requires rdepids' == rdepids || (f in rdepids' && rdepids' == rdepids[f := rdepids'[f]])
    ensures forall g, x :: (g, x) in DirectNeeds(depids', rdepids').build && g != f ==>
      (g, x) in DirectNeeds(depids, rdepids).build
    ensures forall g, x :: (g, x) in DirectNeeds(depids', rdepids').run && g != f ==>
      (g, x) in DirectNeeds(depids, rdepids).run
  {
  }

  /** The needs that resolution itself keeps in force: DEPENDS and the runtime
      dependencies.  Inter-task dependencies are only honoured by later failures. */
  ghost function DirectNeeds(depids: map<int, seq<int>>, rdepids: map<int, seq<int>>): Needs {
    NeedsOf(depids, rdepids, [], [])
  }

  lemma FewerNeeds(big: Needs, small: Needs, s: State, s': State)
    requires After(big, s, s') && small.build <= big.build && small.run <= big.run
    ensures After(small, s, s')
  {
    forall x | Settled(big.build, x, s'.failed.files) ensures Settled(small.build, x, s'.failed.files) {}
    forall x | Settled(big.run, x, s'.failed.files) ensures Settled(small.run, x, s'.failed.files) {}
  }

  lemma FullTables(depids: map<int, seq<int>>, rdepids: map<int, seq<int>>, tasks_fnid: seq<int>,
                   tasks_idepends: seq<seq<(int, string)>>, n: int, dc: DataCache,
                   fns: seq<string>, builds: seq<string>, runs: seq<string>)
    requires |tasks_fnid| == |tasks_idepends| && n == |fns|
    requires SpellsAll(depids, fns, builds, dc.deps) && SpellsAll(rdepids, fns, runs, dc.rundeps)
    requires forall k :: 0 <= k < |tasks_fnid| ==> 0 <= tasks_fnid[k] < n
    ensures forall f, t :: (f, t) in NeedsOf(depids, rdepids, tasks_fnid, tasks_idepends).build ==> 0 <= f < n
    ensures forall f, t :: (f, t) in NeedsOf(depids, rdepids, tasks_fnid, tasks_idepends).run ==> 0 <= f < n
  {
  }

  lemma DirectNeedsAreNeeds(depids: map<int, seq<int>>, rdepids: map<int, seq<int>>,
                            tasks_fnid: seq<int>, tasks_idepends: seq<seq<(int, string)>>)
    requires |tasks_fnid| == |tasks_idepends|
    ensures DirectNeeds(depids, rdepids).build <= NeedsOf(depids, rdepids, tasks_fnid, tasks_idepends).build
    ensures DirectNeeds(depids, rdepids).run <= NeedsOf(depids, rdepids, tasks_fnid, tasks_idepends).run
  {
  }

  /** At rest except that f's needs were added just now. */
  lemma NewFileRests(old_: Needs, new_: Needs, s: State, s': State, f: int)
    requires AtRest(old_, s)
    requires forall g, x :: (g, x) in new_.build && g != f ==> (g, x) in old_.build
    requires forall g, x :: (g, x) in new_.run && g != f ==> (g, x) in old_.run
    requires After(new_, s, s') && f in s'.failed.files
    ensures AtRest(new_, s')
  {
    NewTableRests(old_.build, new_.build, s.build, s'.build, s.failed.builds, s'.failed.builds, s.failed.files,
                  s'.failed.files, f);
    NewTableRests(old_.run, new_.run, s.run, s'.run, s.failed.runs, s'.failed.runs, s.failed.files, s'.failed.files, f);
  }

  lemma NewTableRests(old_: set<(int, int)>, new_: set<(int, int)>, p: ProviderTable, p': ProviderTable,
                      t: set<int>, t': set<int>, files: set<int>, files': set<int>, f: int)
    requires TableAtRest(old_, p, files, t) && files <= files' && f in files'
    requires forall g, x :: (g, x) in new_ && g != f ==> (g, x) in old_
    requires TableAfter(new_, p, p', files' - files, t, t', files')
    ensures TableAtRest(new_, p', files', t')
  {
    forall x | x in p
      ensures Distinct(p'[x]) && forall g :: g in p'[x] ==> g !in files'
    {
      WithoutDistinct(p[x], files' - files);
      forall g ensures g in p'[x] <==> g in p[x] && g !in files' - files {
        WithoutMembers(p[x], files' - files, g);
      }
    }
    forall x | x in t
      ensures Settled(new_, x, files')
    {
      assert Settled(old_, x, files);
    }
  }

  /** What only grows while targets are resolved. */
  datatype Tally = Tally(builds: seq<string>, runs: seq<string>, fns: seq<string>, s: State)

  ghost predicate Grew(a: Tally, b: Tally) {
    && a.builds <= b.builds && a.runs <= b.runs && a.fns <= b.fns
    && Within(a.s.failed, b.s.failed)
    && Kept(a.s.build, b.s.build, b.s.failed.files) && Kept(a.s.run, b.s.run, b.s.failed.files)
  }

  /** No list of providers disappears, and no file leaves one without failing. */
  ghost predicate Kept(p: ProviderTable, p': ProviderTable, failed: set<int>) {
    p.Keys <= p'.Keys && forall x, f :: x in p && f in p[x] ==> f in p'[x] || f in failed
  }

  /** These files leave the lists of providers, and nothing else changes. */
  ghost predicate Thinned(p: ProviderTable, p': ProviderTable, gone: set<int>) {
    p'.Keys == p.Keys && forall x :: x in p ==> p'[x] == Without(p[x], gone)
  }

  lemma ThinnedByNone(p: ProviderTable)
    ensures Thinned(p, p, {})
  {
    forall x | x in p ensures Without(p[x], {}) == p[x] {
      WithoutNone(p[x], {});
    }
  }

  lemma AfterThins(needs: Needs, s: State, s': State)
    requires After(needs, s, s')
    ensures Thinned(s.build, s'.build, s'.failed.files - s.failed.files)
    ensures Thinned(s.run, s'.run, s'.failed.files - s.failed.files)
  {
  }

  lemma ThinnedIsKept(p: ProviderTable, p': ProviderTable, failed: set<int>, failed': set<int>)
    requires Thinned(p, p', failed' - failed)
    ensures Kept(p, p', failed')
  {
    forall x, f | x in p && f in p[x] ensures f in p'[x] || f in failed' {
      WithoutMembers(p[x], failed' - failed, f);
    }
  }

  lemma KeptTrans(p: ProviderTable, p1: ProviderTable, p2: ProviderTable, failed1: set<int>, failed2: set<int>)
    requires Kept(p, p1, failed1) && Kept(p1, p2, failed2) && failed1 <= failed2
    ensures Kept(p, p2, failed2)
  {
  }

  lemma AfterKeeps(needs: Needs, s: State, s': State)
    requires After(needs, s, s')
    ensures Kept(s.build, s'.build, s'.failed.files) && Kept(s.run, s'.run, s'.failed.files)
  {
    var gone := s'.failed.files - s.failed.files;
    forall x, f | x in s.build && f in s.build[x] ensures f in s'.build[x] || f in s'.failed.files {
      WithoutMembers(s.build[x], gone, f);
    }
    forall x, f | x in s.run && f in s.run[x] ensures f in s'.run[x] || f in s'.failed.files {
      WithoutMembers(s.run[x], gone, f);
    }
  }

  /** The file f is a provider of the item. */
  ghost predicate Serves(names: seq<string>, p: ProviderTable, item: string, f: int) {
    exists x :: 0 <= x < |names| && names[x] == item && x in p && f in p[x]
  }

  /** The file has been entered as a provider of the build target, or has failed. */
  ghost predicate BuildHandled(t: Tally, fn: string, item: string) {
    exists f :: 0 <= f < |t.fns| && t.fns[f] == fn && (f in t.s.failed.files || Serves(t.builds, t.s.build, item, f))
  }

  ghost predicate RunHandled(t: Tally, fn: string, item: string) {
    exists f :: 0 <= f < |t.fns| && t.fns[f] == fn && (f in t.s.failed.files || Serves(t.runs, t.s.run, item, f))
  }

  lemma ServesStays(names: seq<string>, names': seq<string>, p: ProviderTable, p': ProviderTable, failed: set<int>,
                    item: string, f: int)
    requires names <= names' && Kept(p, p', failed) && Serves(names, p, item, f)
    ensures f in failed || Serves(names', p', item, f)
  {
    var x :| 0 <= x < |names| && names[x] == item && x in p && f in p[x];
    assert names'[x] == item;
  }

  lemma HandledStays(a: Tally, b: Tally, fn: string, item: string)
    requires Grew(a, b)
    ensures BuildHandled(a, fn, item) ==> BuildHandled(b, fn, item)
    ensures RunHandled(a, fn, item) ==> RunHandled(b, fn, item)
  {
    if BuildHandled(a, fn, item) {
      var f :| 0 <= f < |a.fns| && a.fns[f] == fn && (f in a.s.failed.files || Serves(a.builds, a.s.build, item, f));
      if f !in a.s.failed.files {
        ServesStays(a.builds, b.builds, a.s.build, b.s.build, b.s.failed.files, item, f);
      }
      assert b.fns[f] == fn;
    }
    if RunHandled(a, fn, item) {
      var f :| 0 <= f < |a.fns| && a.fns[f] == fn && (f in a.s.failed.files || Serves(a.runs, a.s.run, item, f));
      if f !in a.s.failed.files {
        ServesStays(a.runs, b.runs, a.s.run, b.s.run, b.s.failed.files, item, f);
      }
      assert b.fns[f] == fn;
    }
  }

  /** A file that has failed. */
  ghost predicate HasFailed(t: Tally, fn: string) {
    exists f :: 0 <= f < |t.fns| && t.fns[f] == fn && f in t.s.failed.files
  }

  lemma FailureStays(a: Tally, b: Tally, fn: string)
    requires Grew(a, b) && HasFailed(a, fn)
    ensures HasFailed(b, fn)
  {
    var f :| 0 <= f < |a.fns| && a.fns[f] == fn && f in a.s.failed.files;
    assert b.fns[f] == fn;
  }

  lemma BuildEntered(t: Tally, f: int, item: string, x: int)
    requires 0 <= f < |t.fns| && 0 <= x < |t.builds| && t.builds[x] == item && x in t.s.build && f in t.s.build[x]
    ensures BuildHandled(t, t.fns[f], item)
  {
    assert Serves(t.builds, t.s.build, item, f);
  }

  lemma RunEntered(t: Tally, f: int, item: string, x: int)
    requires 0 <= f < |t.fns| && 0 <= x < |t.runs| && t.runs[x] == item && x in t.s.run && f in t.s.run[x]
    ensures RunHandled(t, t.fns[f], item)
  {
    assert Serves(t.runs, t.s.run, item, f);
  }

  lemma GrewTrans(a: Tally, b: Tally, c: Tally)
    requires Grew(a, b) && Grew(b, c)
    ensures Grew(a, c)
  {
    KeptTrans(a.s.build, b.s.build, c.s.build, b.s.failed.files, c.s.failed.files);
    KeptTrans(a.s.run, b.s.run, c.s.run, b.s.failed.files, c.s.failed.files);
  }

  lemma NamesGrew(a: Tally, b: Tally)
    requires a.builds <= b.builds && a.runs <= b.runs && a.fns <= b.fns && Within(a.s.failed, b.s.failed)
    requires Kept(a.s.build, b.s.build, b.s.failed.files) && Kept(a.s.run, b.s.run, b.s.failed.files)
    ensures Grew(a, b)
  {
  }

  lemma GrewSelf(a: Tally)
    ensures Grew(a, a)
  {
  }

  /** have_build_target and have_runtime_target */
  ghost predicate HasTarget(names: seq<string>, p: ProviderTable, item: string) {
    exists x :: 0 <= x < |names| && names[x] == item && x in p
  }

  lemma TargetById(names: seq<string>, p: ProviderTable, item: string, x: int)
    requires Distinct(names) && 0 <= x < |names| && names[x] == item
    ensures HasTarget(names, p, item) <==> x in p
  {
  }

  lemma FailedIsHandled(t: Tally, fn: string, item: string)
    requires HasFailed(t, fn)
    ensures BuildHandled(t, fn, item) && RunHandled(t, fn, item)
  {
    var f :| 0 <= f < |t.fns| && t.fns[f] == fn && f in t.s.failed.files;
    assert f in t.s.failed.files;
  }

  /** The files dropped from the list had failed, and still have. */
  lemma FailuresStay(a: Tally, b: Tally, all: seq<string>, kept: seq<string>, item: string)
    requires Grew(a, b) && forall p :: p in all ==> p in kept || HasFailed(a, p)
    ensures forall p :: p in all && p !in kept ==> BuildHandled(b, p, item) && RunHandled(b, p, item)
  {
    forall p | p in all && p !in kept ensures BuildHandled(b, p, item) && RunHandled(b, p, item) {
      FailureStays(a, b, p);
      FailedIsHandled(b, p, item);
    }
  }

  lemma HandledStayAll(a: Tally, b: Tally, fns: seq<string>, item: string)
    requires Grew(a, b)
    ensures (forall j :: 0 <= j < |fns| ==> BuildHandled(a, fns[j], item)) ==>
      forall j :: 0 <= j < |fns| ==> BuildHandled(b, fns[j], item)
    ensures (forall j :: 0 <= j < |fns| ==> RunHandled(a, fns[j], item)) ==>
      forall j :: 0 <= j < |fns| ==> RunHandled(b, fns[j], item)
  {
    forall j | 0 <= j < |fns|
      ensures BuildHandled(a, fns[j], item) ==> BuildHandled(b, fns[j], item)
      ensures RunHandled(a, fns[j], item) ==> RunHandled(b, fns[j], item)
    {
      HandledStays(a, b, fns[j], item);
    }
  }

  lemma FailedNow(t: Tally, f: int)
    requires 0 <= f < |t.fns| && f in t.s.failed.files
    ensures HasFailed(t, t.fns[f])
  {
  }

  lemma {:induction false} RemoveDrops<T>(s: seq<T>, x: T)
    requires x in s
    ensures |RemoveFirst(s, x)| == |s| - 1
    ensures forall y :: y in RemoveFirst(s, x) ==> y in s
    ensures forall y :: y in s && y != x ==> y in RemoveFirst(s, x)
  {
    assert s == [s[0]] + s[1..];
    if s[0] != x {
      RemoveDrops(s[1..], x);
    }
  }

  function WithProvider(p: ProviderTable, x: int, f: int): ProviderTable {
    if x in p then
      if f in p[x] then p else p[x := p[x] + [f]]
    else
      p[x := [f]]
  }

  lemma ProviderJoins(p: ProviderTable, x: int, f: int)
    requires AllDistinct(p)
    ensures AllDistinct(WithProvider(p, x, f)) && x in WithProvider(p, x, f) && f in WithProvider(p, x, f)[x]
  {
    if x in p && f !in p[x] {
      assert Distinct(p[x]);
      assert forall i :: 0 <= i < |p[x]| ==> p[x][i] in p[x];
      assert Distinct(p[x] + [f]);
    }
  }

  lemma ProviderGrew(t: Tally, x: int, f: int)
    ensures Grew(t, t.(s := t.s.(build := WithProvider(t.s.build, x, f))))
    ensures Grew(t, t.(s := t.s.(run := WithProvider(t.s.run, x, f))))
  {
  }

  lemma TableTakesProvider(needs: set<(int, int)>, p: ProviderTable, files: set<int>, targets: set<int>, x: int, f: int)
    requires TableAtRest(needs, p, files, targets) && f !in files
    ensures TableAtRest(needs, WithProvider(p, x, f), files, targets)
    ensures x in WithProvider(p, x, f) && f in WithProvider(p, x, f)[x]
  {
    if x in p && f !in p[x] {
      var l := p[x] + [f];
      assert forall i :: 0 <= i < |p[x]| ==> p[x][i] in p[x];
      assert forall g :: g in l ==> g in p[x] || g == f;
    }
  }

  /** x has providers, all of them buildable so far. */
  ghost predicate Provided(p: ProviderTable, x: int, failed: set<int>) {
    x in p && p[x] != [] && forall f :: f in p[x] ==> f !in failed
  }

  ghost predicate Met(names: seq<string>, ignored: set<string>, p: ProviderTable, failed: set<int>, w: string) {
    w in ignored || exists x :: 0 <= x < |names| && names[x] == w && Provided(p, x, failed)
  }

  /** A first provider can be taken for every dependency of every file that has not
      failed, provided it has an entry; and it has one unless it is ignored. */
  ghost predicate FirstIsSafe(table: map<int, seq<int>>, names: seq<string>, ignored: set<string>, p: ProviderTable,
                              failed: set<int>)
  {
    forall f, x :: f in table && f !in failed && x in table[f] ==>
      && 0 <= x < |names|
      && (names[x] in ignored || x in p)
      && (x in p ==> Provided(p, x, failed))
  }

  /** Every known name is ignored, has failed, or has a provider list. */
  ghost predicate Resolved(names: seq<string>, ignored: set<string>, p: ProviderTable, targets: set<int>) {
    forall x :: 0 <= x < |names| ==> names[x] in ignored || x in targets || x in p
  }

  /** The unresolved names of one kind are among todo. */
  ghost predicate Pending(names: seq<string>, ignored: set<string>, p: ProviderTable, targets: set<int>,
                          todo: seq<string>) {
    forall x :: 0 <= x < |names| ==> names[x] in ignored || x in targets || x in p || names[x] in todo
  }

  lemma NothingPending(names: seq<string>, ignored: set<string>, p: ProviderTable, targets: set<int>)
    requires Pending(names, ignored, p, targets, [])
    ensures Resolved(names, ignored, p, targets)
  {
  }

  lemma PendingGrows(names: seq<string>, ignored: set<string>, p: ProviderTable, targets: set<int>, todo: seq<string>,
                     p': ProviderTable, targets': set<int>)
    requires Pending(names, ignored, p, targets, todo) && p.Keys <= p'.Keys && targets <= targets'
    ensures Pending(names, ignored, p', targets', todo)
  {
  }

  lemma PendingDone(names: seq<string>, ignored: set<string>, p: ProviderTable, targets: set<int>, todo: seq<string>,
                    id: nat)
    requires Distinct(names) && todo != [] && Pending(names, ignored, p, targets, todo)
    requires id < |names| && names[id] == todo[0] && id in targets
    ensures Pending(names, ignored, p, targets, todo[1..])
  {
    forall x | 0 <= x < |names| && names[x] in todo
      ensures x == id || names[x] in todo[1..]
    {
      var k :| 0 <= k < |todo| && todo[k] == names[x];
      assert k > 0 ==> todo[1..][k-1] == names[x];
    }
  }

  lemma PendingGrowsIf(still: bool, names: seq<string>, ignored: set<string>, p: ProviderTable, targets: set<int>,
                       todo: seq<string>,
                       p': ProviderTable, targets': set<int>)
    requires still ==> Pending(names, ignored, p, targets, todo)
    requires p.Keys <= p'.Keys && targets <= targets'
    ensures still ==> Pending(names, ignored, p', targets', todo)
  {
    if still {
      PendingGrows(names, ignored, p, targets, todo, p', targets');
    }
  }

  lemma ResolvedGrows(names: seq<string>, ignored: set<string>, p: ProviderTable, targets: set<int>,
                      p': ProviderTable, targets': set<int>)
    requires Resolved(names, ignored, p, targets) && p.Keys <= p'.Keys && targets <= targets'
    ensures Resolved(names, ignored, p', targets')
  {
  }

  lemma GrewMeans(a: Tally, b: Tally)
    requires Grew(a, b)
    ensures a.builds <= b.builds && a.runs <= b.runs && a.fns <= b.fns
    ensures a.s.failed.files <= b.s.failed.files
    ensures a.s.build.Keys <= b.s.build.Keys && a.s.failed.builds <= b.s.failed.builds
    ensures a.s.run.Keys <= b.s.run.Keys && a.s.failed.runs <= b.s.failed.runs
    ensures forall w :: w in a.builds ==> w in b.builds
    ensures forall w :: w in a.runs ==> w in b.runs
  {
    forall w | w in a.builds ensures w in b.builds {
      var i :| 0 <= i < |a.builds| && a.builds[i] == w;
      assert b.builds[i] == w;
    }
    forall w | w in a.runs ensures w in b.runs {
      var i :| 0 <= i < |a.runs| && a.runs[i] == w;
      assert b.runs[i] == w;
    }
  }

  /** One more round of the loop over a target's files, for a file's build or runtime target x. */
  lemma OneMoreRound(a: Tally, b: Tally, c: Tally, fns: seq<string>, item: string, x: int)
    requires Grew(a, b) && Grew(b, c)
    ensures Grew(a, c) && b.builds <= c.builds && b.runs <= c.runs
    ensures (x in b.s.build ==> x in c.s.build) && (x in b.s.failed.builds ==> x in c.s.failed.builds)
    ensures (x in b.s.run ==> x in c.s.run) && (x in b.s.failed.runs ==> x in c.s.failed.runs)
    ensures (forall j :: 0 <= j < |fns| ==> BuildHandled(b, fns[j], item)) ==>
      forall j :: 0 <= j < |fns| ==> BuildHandled(c, fns[j], item)
    ensures (forall j :: 0 <= j < |fns| ==> RunHandled(b, fns[j], item)) ==>
      forall j :: 0 <= j < |fns| ==> RunHandled(c, fns[j], item)
  {
    GrewTrans(a, b, c);
    GrewMeans(b, c);
    hide Grew, BuildHandled, RunHandled;
    HandledStayAll(b, c, fns, item);
  }

  lemma FailureGrew(needs: Needs, a: Tally, b: Tally)
    requires b == a.(s := b.s) && After(needs, a.s, b.s)
    ensures Grew(a, b) && b.s.build.Keys == a.s.build.Keys && b.s.run.Keys == a.s.run.Keys
  {
    AfterKeeps(needs, a.s, b.s);
  }

  lemma TailMembers(todo: seq<string>, names: seq<string>)
    requires todo != [] && forall w :: w in todo ==> w in names
    ensures forall w :: w in todo[1..] ==> w in names
  {
    forall w | w in todo[1..] ensures w in names {
      assert w in todo;
    }
  }

  /** get_unresolved_build_targets and get_unresolved_run_targets on their tables. */
  method UnresolvedTargets(names: seq<string>, ignored: set<string>, failed: seq<int>, p: ProviderTable)
      returns (unresolved: seq<string>)
    requires Distinct(names)
    ensures Pending(names, ignored, p, Elements(failed), unresolved)
    ensures forall w :: w in unresolved ==> w in names
    ensures forall x :: 0 <= x < |names| ==>
      (names[x] in unresolved <==> names[x] !in ignored && x !in failed && x !in p)
  {
    unresolved := [];
    for i := 0 to |names|
      invariant forall x :: 0 <= x < i ==>
        (names[x] in unresolved <==> names[x] !in ignored && x !in failed && x !in p)
      invariant forall w :: w in unresolved ==> w in names[..i]
    {
      if names[i] in ignored {
        continue;
      }
      if i in failed {
        continue;
      }
      if i !in p {
        unresolved := unresolved + [names[i]];
      }
    }
  }

  /** At rest with every name resolved, each dependency of a file that has not
      failed is ignored or has a non-empty list of providers that have not failed. */
  lemma ResolvedMeansMet(needs: set<(int, int)>, table: map<int, seq<int>>, fns: seq<string>, names: seq<string>,
                         wanted: string -> seq<string>,
                         ignored: set<string>, p: ProviderTable, files: set<int>, targets: set<int>, f: int, w: string)
    requires TableAtRest(needs, p, files, targets) && Resolved(names, ignored, p, targets)
    requires SpellsAll(table, fns, names, wanted)
    requires f in table && f !in files && w in wanted(fns[f])
    requires forall x :: x in table[f] ==> (f, x) in needs
    ensures Met(names, ignored, p, files, w)
  {
    assert HasId(table[f], names, w);
    var x :| x in table[f] && 0 <= x < |names| && names[x] == w;
    assert (f, x) in needs;
    assert x !in targets;
    if w !in ignored {
      assert Provided(p, x, files);
    }
  }

  lemma ResolvedMeansSafe(needs: set<(int, int)>, table: map<int, seq<int>>, fns: seq<string>, names: seq<string>,
                          wanted: string -> seq<string>, ignored: set<string>, p: ProviderTable, files: set<int>,
                          targets: set<int>)
    requires TableAtRest(needs, p, files, targets) && Resolved(names, ignored, p, targets)
    requires SpellsAll(table, fns, names, wanted)
    requires forall f, x :: f in table && x in table[f] ==> (f, x) in needs
    ensures FirstIsSafe(table, names, ignored, p, files)
  {
    forall f, x | f in table && f !in files && x in table[f]
      ensures 0 <= x < |names| && (names[x] in ignored || x in p) && (x in p ==> Provided(p, x, files))
    {
      assert Spells(table[f], names, wanted(fns[f]));
      assert (f, x) in needs && x !in targets;
    }
  }

  /** At rest although f's needs were added just now: f needs nothing that has failed. */
  lemma HopefulFileRests(old_: Needs, new_: Needs, s: State, f: int)
    requires AtRest(old_, s)
    requires forall g, x :: (g, x) in new_.build && g != f ==> (g, x) in old_.build
    requires forall g, x :: (g, x) in new_.run && g != f ==> (g, x) in old_.run
    requires forall x :: (f, x) in new_.build ==> x !in s.failed.builds
    requires forall x :: (f, x) in new_.run ==> x !in s.failed.runs
    ensures AtRest(new_, s)
  {
    forall x | x in s.failed.builds ensures Settled(new_.build, x, s.failed.files) {
      assert Settled(old_.build, x, s.failed.files);
    }
    forall x | x in s.failed.runs ensures Settled(new_.run, x, s.failed.files) {
      assert Settled(old_.run, x, s.failed.files);
    }
  }

  // --- the order of providers ---

  /** The files of l stand in s, in this order. */
  ghost predicate InOrder(l: seq<int>, fns: seq<string>, s: seq<string>) {
    && (forall a :: 0 <= a < |l| ==> 0 <= l[a] < |fns| && fns[l[a]] in s)
    && (forall a, b :: 0 <= a < b < |l| ==> Position(s, fns[l[a]]) < Position(s, fns[l[b]]))
  }

  /** All of them stand before position i. */
  ghost predicate StandBefore(l: seq<int>, fns: seq<string>, s: seq<string>, i: nat)
    requires InOrder(l, fns, s)
  {
    forall a :: 0 <= a < |l| ==> Position(s, fns[l[a]]) < i
  }

  lemma InOrderGrows(l: seq<int>, fns: seq<string>, fns': seq<string>, s: seq<string>, i: nat)
    requires InOrder(l, fns, s) && StandBefore(l, fns, s, i) && fns <= fns'
    ensures InOrder(l, fns', s) && StandBefore(l, fns', s, i) && StandBefore(l, fns', s, i + 1)
  {
  }

  lemma TailInOrder(l: seq<int>, fns: seq<string>, s: seq<string>, i: nat)
    requires l != [] && InOrder(l, fns, s) && StandBefore(l, fns, s, i)
    ensures InOrder(l[1..], fns, s) && StandBefore(l[1..], fns, s, i)
    ensures forall f :: f in l[1..] ==> Position(s, fns[l[0]]) < Position(s, fns[f])
  {
    forall f | f in l[1..] ensures Position(s, fns[l[0]]) < Position(s, fns[f]) {
      var b :| 0 <= b < |l| - 1 && l[1..][b] == f;
      assert l[b+1] == f;
    }
  }

  lemma FrontInOrder(f: int, rest: seq<int>, fns: seq<string>, s: seq<string>, i: nat)
    requires InOrder(rest, fns, s) && StandBefore(rest, fns, s, i)
    requires 0 <= f < |fns| && fns[f] in s && Position(s, fns[f]) < i
    requires forall g :: g in rest ==> Position(s, fns[f]) < Position(s, fns[g])
    ensures InOrder([f] + rest, fns, s) && StandBefore([f] + rest, fns, s, i)
  {
    var l := [f] + rest;
    forall a | 0 <= a < |l| ensures 0 <= l[a] < |fns| && fns[l[a]] in s && Position(s, fns[l[a]]) < i {
      assert a > 0 ==> l[a] == rest[a-1];
    }
    forall a, b | 0 <= a < b < |l| ensures Position(s, fns[l[a]]) < Position(s, fns[l[b]]) {
      assert l[b] == rest[b-1] && rest[b-1] in rest;
      assert a > 0 ==> l[a] == rest[a-1];
    }
  }

  lemma {:induction false} FewerInOrder(l: seq<int>, fns: seq<string>, s: seq<string>, i: nat, gone: set<int>)
    requires InOrder(l, fns, s) && StandBefore(l, fns, s, i)
    ensures InOrder(Without(l, gone), fns, s) && StandBefore(Without(l, gone), fns, s, i)
  {
    if l != [] {
      var f, rest := l[0], Without(l[1..], gone);
      assert 0 <= f < |fns| && fns[f] in s && Position(s, fns[f]) < i;
      TailInOrder(l, fns, s, i);
      hide InOrder, StandBefore, Position;
      FewerInOrder(l[1..], fns, s, i, gone);
      if f !in gone {
        forall g | g in rest ensures g in l[1..] {
          WithoutMembers(l[1..], gone, g);
        }
        FrontInOrder(f, rest, fns, s, i);
      }
    }
  }

  lemma NextInOrder(l: seq<int>, fns: seq<string>, s: seq<string>, i: nat, f: int)
    requires InOrder(l, fns, s) && StandBefore(l, fns, s, i)
    requires i < |s| && 0 <= f < |fns| && fns[f] == s[i] && Position(s, s[i]) == i
    ensures InOrder(l + [f], fns, s) && StandBefore(l + [f], fns, s, i + 1)
  {
    var r := l + [f];
    forall a | 0 <= a < |r| ensures 0 <= r[a] < |fns| && fns[r[a]] in s && Position(s, fns[r[a]]) < i + 1 {
      if a < |l| {
        assert r[a] == l[a];
      }
    }
    forall a, b | 0 <= a < b < |r| ensures Position(s, fns[r[a]]) < Position(s, fns[r[b]]) {
      assert r[a] == l[a];
      if b < |l| {
        assert r[b] == l[b];
      }
    }
  }

  // --- the walk that drops failed files ---

  /** for p in s: if p has failed: s.remove(p), from position i on; the walk goes on
      by positions although the list changes. */
  function Dropped(s: seq<string>, i: nat, failed: iset<string>): seq<string>
    decreases |s| - i
  {
    if i >= |s| then s
    else if s[i] in failed then
      RemovedIsShorter(s, s[i]);
      Dropped(RemoveFirst(s, s[i]), i + 1, failed)
    else Dropped(s, i + 1, failed)
  }

  lemma {:induction false} RemovedIsShorter(s: seq<string>, x: string)
    requires x in s
    ensures |RemoveFirst(s, x)| == |s| - 1
  {
    RemoveDrops(s, x);
  }

  /** Of two failed files next to each other the second stays in the list. */
  lemma FailedFileStays(p: string, q: string, failed: iset<string>)
    requires p in failed && q in failed
    ensures Dropped([p, q], 0, failed) == [q]
  {
    assert RemoveFirst([p, q], p) == [q];
  }

  /** Files that have not failed keep their order. */
  lemma {:induction false} RemoveKeepsOrder(s: seq<string>, x: string, p: string, q: string)
    requires x in s && p in s && q in s && p != x && q != x && Position(s, p) < Position(s, q)
    ensures p in RemoveFirst(s, x) && q in RemoveFirst(s, x)
    ensures Position(RemoveFirst(s, x), p) < Position(RemoveFirst(s, x), q)
  {
    RemoveDrops(s, x);
    assert s == [s[0]] + s[1..];
    if s[0] != x && s[0] != p {
      RemoveKeepsOrder(s[1..], x, p, q);
    }
  }

  lemma {:induction false} DroppedLaws(s: seq<string>, i: nat, failed: iset<string>)
    ensures forall p :: p in Dropped(s, i, failed) ==> p in s
    ensures forall p :: p in s && p !in failed ==> p in Dropped(s, i, failed)
    ensures forall p, q :: p in s && q in s && p !in failed && q !in failed && Position(s, p) < Position(s, q) ==>
      p in Dropped(s, i, failed) && q in Dropped(s, i, failed)
      && Position(Dropped(s, i, failed), p) < Position(Dropped(s, i, failed), q)
    ensures s != [] && s[0] !in failed ==> Dropped(s, i, failed) != [] && Dropped(s, i, failed)[0] == s[0]
    decreases |s| - i
  {
    if i < |s| {
      if s[i] in failed {
        var t := RemoveFirst(s, s[i]);
        RemoveDrops(s, s[i]);
        DroppedLaws(t, i + 1, failed);
        forall p, q | p in s && q in s && p !in failed && q !in failed && Position(s, p) < Position(s, q)
          ensures p in t && q in t && Position(t, p) < Position(t, q)
        {
          RemoveKeepsOrder(s, s[i], p, q);
        }
      } else {
        DroppedLaws(s, i + 1, failed);
      }
    }
  }

  /** What the walk keeps. */
  lemma DroppedKeeps(s: seq<string>, failed: iset<string>)
    ensures forall p :: p in Dropped(s, 0, failed) ==> p in s
    ensures forall p :: p in s && p !in failed ==> p in Dropped(s, 0, failed)
    ensures s != [] && s[0] !in failed ==> Dropped(s, 0, failed) != [] && Dropped(s, 0, failed)[0] == s[0]
  {
    DroppedLaws(s, 0, failed);
  }

  /** The names of the files that have failed. */
  ghost function FailedNames(t: Tally): iset<string> {
    iset fn | HasFailed(t, fn)
  }

  lemma DroppedStep(s: seq<string>, i: nat, failed: iset<string>)
    ensures i >= |s| ==> Dropped(s, i, failed) == s
    ensures i < |s| && s[i] !in failed ==> Dropped(s, i, failed) == Dropped(s, i + 1, failed)
    ensures i < |s| && s[i] in failed ==> Dropped(s, i, failed) == Dropped(RemoveFirst(s, s[i]), i + 1, failed)
  {
  }

  // --- the providers of one target ---

  /** The list of target x, if it has one, holds files from before position i, in order. */
  ghost predicate ListInOrder(p: ProviderTable, fns: seq<string>, x: int, s: seq<string>, i: nat) {
    x in p ==> InOrder(p[x], fns, s) && StandBefore(p[x], fns, s, i)
  }

  lemma NothingInOrder(p: ProviderTable, fns: seq<string>, x: int, s: seq<string>)
    ensures x !in p ==> ListInOrder(p, fns, x, s, 0)
  {
  }

  lemma ListKeepsOrder(p: ProviderTable, fns: seq<string>, fns': seq<string>, x: int, s: seq<string>, i: nat)
    requires fns <= fns'
    ensures ListInOrder(p, fns, x, s, i) ==> ListInOrder(p, fns', x, s, i) && ListInOrder(p, fns', x, s, i + 1)
  {
    if x in p && ListInOrder(p, fns, x, s, i) {
      InOrderGrows(p[x], fns, fns', s, i);
    }
  }

  lemma ListGoesOn(p: ProviderTable, p': ProviderTable, fns: seq<string>, fns': seq<string>, x: int, s: seq<string>,
                   i: nat, f: int, gone: set<int>)
    requires ListInOrder(p, fns, x, s, i) && fns <= fns' && i < |s| && 0 <= f < |fns| && fns[f] == s[i]
    requires (x in p && f in p[x]) || Position(s, s[i]) == i
    requires Thinned(WithProvider(p, x, f), p', gone)
    ensures ListInOrder(p', fns', x, s, i + 1)
  {
    hide InOrder, StandBefore, Position;
    var l := WithProvider(p, x, f)[x];
    assert InOrder(l, fns, s) && StandBefore(l, fns, s, i + 1) by {
      if x in p && f in p[x] {
        InOrderGrows(l, fns, fns, s, i);
      } else if x in p {
        NextInOrder(p[x], fns, s, i, f);
      } else {
        EmptyInOrder(fns, s, i);
        NextInOrder([], fns, s, i, f);
        assert [] + [f] == [f];
      }
    }
    FewerInOrder(l, fns, s, i + 1, gone);
    InOrderGrows(p'[x], fns, fns', s, i + 1);
  }

  lemma EmptyInOrder(fns: seq<string>, s: seq<string>, i: nat)
    ensures InOrder([], fns, s) && StandBefore([], fns, s, i)
  {
  }

  /** A file that is neither listed nor failed has not stood earlier in the list. */
  lemma BuildFirstTime(t: Tally, s: seq<string>, i: nat, item: string, x: int, f: int)
    requires Distinct(t.fns) && Distinct(t.builds) && 0 <= x < |t.builds| && t.builds[x] == item
    requires i < |s| && 0 <= f < |t.fns| && t.fns[f] == s[i] && f !in t.s.failed.files
    requires forall j :: 0 <= j < i ==> BuildHandled(t, s[j], item)
    ensures (x in t.s.build && f in t.s.build[x]) || Position(s, s[i]) == i
  {
    var j := Position(s, s[i]);
    hide Position, Distinct;
    if j < i {
      BuildHandledById(t, s[j], item, x, f);
    }
  }

  lemma BuildHandledById(t: Tally, fn: string, item: string, x: int, f: int)
    requires Distinct(t.fns) && Distinct(t.builds) && 0 <= x < |t.builds| && t.builds[x] == item
    requires 0 <= f < |t.fns| && t.fns[f] == fn && f !in t.s.failed.files && BuildHandled(t, fn, item)
    ensures x in t.s.build && f in t.s.build[x]
  {
    var g :| 0 <= g < |t.fns| && t.fns[g] == fn && (g in t.s.failed.files || Serves(t.builds, t.s.build, item, g));
    assert g == f;
  }

  lemma RunFirstTime(t: Tally, s: seq<string>, i: nat, item: string, x: int, f: int)
    requires Distinct(t.fns) && Distinct(t.runs) && 0 <= x < |t.runs| && t.runs[x] == item
    requires i < |s| && 0 <= f < |t.fns| && t.fns[f] == s[i] && f !in t.s.failed.files
    requires forall j :: 0 <= j < i ==> RunHandled(t, s[j], item)
    ensures (x in t.s.run && f in t.s.run[x]) || Position(s, s[i]) == i
  {
    var j := Position(s, s[i]);
    hide Position, Distinct;
    if j < i {
      RunHandledById(t, s[j], item, x, f);
    }
  }

  lemma RunHandledById(t: Tally, fn: string, item: string, x: int, f: int)
    requires Distinct(t.fns) && Distinct(t.runs) && 0 <= x < |t.runs| && t.runs[x] == item
    requires 0 <= f < |t.fns| && t.fns[f] == fn && f !in t.s.failed.files && RunHandled(t, fn, item)
    ensures x in t.s.run && f in t.s.run[x]
  {
    var g :| 0 <= g < |t.fns| && t.fns[g] == fn && (g in t.s.failed.files || Serves(t.runs, t.s.run, item, g));
    assert g == f;
  }

  /** A target whose only provider has failed has failed. */
  lemma LastProviderGone(needs: set<(int, int)>, p: ProviderTable, p': ProviderTable, files: set<int>,
                         targets: set<int>,
                         gone: set<int>, x: int, f: int)
    requires TableAtRest(needs, p', files, targets) && Thinned(p, p', gone) && x in p && p[x] == [f] && f in files
    ensures x in targets
  {
    if p'[x] != [] {
      var g := p'[x][0];
      assert g in p'[x];
      WithoutMembers(p[x], gone, g);
    }
  }

  /** All providers of the item stand in s, in this order. */
  ghost predicate ProvidersInOrder(names: seq<string>, p: ProviderTable, fns: seq<string>, item: string,
                                   s: seq<string>) {
    forall x :: 0 <= x < |names| && names[x] == item && x in p ==> InOrder(p[x], fns, s)
  }

  ghost predicate TargetFailed(names: seq<string>, failed: seq<int>, item: string) {
    exists x :: 0 <= x < |names| && names[x] == item && x in failed
  }

  // --- files that fail at once ---

  /** The file needs a target that has failed. */
  ghost predicate NeedsFailed(t: Tally, dc: DataCache, fn: string) {
    || (exists x :: 0 <= x < |t.builds| && t.builds[x] in dc.deps(fn) && x in t.s.failed.builds)
    || (exists x :: 0 <= x < |t.runs| && t.runs[x] in dc.rundeps(fn) && x in t.s.failed.runs)
  }

  /** It is new besides. */
  ghost predicate StartsDoomed(t: Tally, tasks_fnid: seq<int>, dc: DataCache, fn: string) {
    && !HasFailed(t, fn) && NeedsFailed(t, dc, fn)
    && forall k :: 0 <= k < |tasks_fnid| ==> 0 <= tasks_fnid[k] < |t.fns| && t.fns[tasks_fnid[k]] != fn
  }

  lemma NeedStaysFailed(t: Tally, u: Tally, dc: DataCache, fn: string)
    requires t.builds <= u.builds && t.runs <= u.runs && u.s.failed == t.s.failed
    ensures NeedsFailed(t, dc, fn) ==> NeedsFailed(u, dc, fn)
  {
    if x :| 0 <= x < |t.builds| && t.builds[x] in dc.deps(fn) && x in t.s.failed.builds {
      assert u.builds[x] == t.builds[x];
    }
    if x :| 0 <= x < |t.runs| && t.runs[x] in dc.rundeps(fn) && x in t.s.failed.runs {
      assert u.runs[x] == t.runs[x];
    }
  }

  lemma FailedBefore(t: Tally, u: Tally, fn: string)
    requires t.fns <= u.fns && u.s == t.s && forall f :: f in t.s.failed.files ==> 0 <= f < |t.fns|
    ensures HasFailed(u, fn) ==> HasFailed(t, fn)
  {
    if HasFailed(u, fn) {
      var f :| 0 <= f < |u.fns| && u.fns[f] == fn && f in u.s.failed.files;
      assert t.fns[f] == fn;
    }
  }

  lemma DoomedStays(t: Tally, u: Tally, tasks_fnid: seq<int>, dc: DataCache, fn: string)
    requires t.builds <= u.builds && t.runs <= u.runs && t.fns <= u.fns && u.s == t.s
    requires forall f :: f in t.s.failed.files ==> 0 <= f < |t.fns|
    ensures StartsDoomed(t, tasks_fnid, dc, fn) ==> StartsDoomed(u, tasks_fnid, dc, fn)
  {
    if StartsDoomed(t, tasks_fnid, dc, fn) {
      if x :| 0 <= x < |t.builds| && t.builds[x] in dc.deps(fn) && x in t.s.failed.builds {
        assert u.builds[x] == t.builds[x];
      } else {
        var x :| 0 <= x < |t.runs| && t.runs[x] in dc.rundeps(fn) && x in t.s.failed.runs;
        assert u.runs[x] == t.runs[x];
      }
      FailedBefore(t, u, fn);
    }
  }

  lemma NewFileIsNew(t: Tally, tasks_fnid: seq<int>, dc: DataCache, fns: seq<string>, fn: string, f: int)
    requires StartsDoomed(t, tasks_fnid, dc, fn) && t.fns <= fns && 0 <= f < |fns| && fns[f] == fn
    ensures f !in tasks_fnid
  {
  }

  /** add_provider_internal raises: nothing provides the target, or all eligible files drop out. */
  ghost predicate BuildUnprovided(dc: DataCache, names: seq<string>, p: ProviderTable, target: string,
                                  failed: iset<string>) {
    && target !in dc.ignored_dependencies
    && (target in dc.providers ==> !HasTarget(names, p, target) && Dropped(dc.eligible(target), 0, failed) == [])
  }

  /** The same for add_rprovider. */
  ghost predicate RunUnprovided(dc: DataCache, names: seq<string>, p: ProviderTable, target: string,
                                failed: iset<string>) {
    && target !in dc.ignored_dependencies && !HasTarget(names, p, target)
    && (dc.rproviders(target) != [] ==> Dropped(dc.religible(target), 0, failed) == [])
  }

  /** The target is ignored, or has an entry, or every file that is eligible for it is a
      provider or has failed. */
  ghost predicate BuildAnswered(dc: DataCache, t: Tally, w: string) {
    || w in dc.ignored_dependencies
    || HasTarget(t.builds, t.s.build, w)
    || (w in dc.providers && forall p :: p in dc.eligible(w) ==> BuildHandled(t, p, w))
  }

  ghost predicate RunAnswered(dc: DataCache, t: Tally, w: string) {
    || w in dc.ignored_dependencies
    || HasTarget(t.runs, t.s.run, w)
    || (dc.rproviders(w) != [] && forall p :: p in dc.religible(w) ==> RunHandled(t, p, w))
  }

  ghost predicate Lost(names: seq<string>, failed: set<int>, w: string) {
    exists x :: 0 <= x < |names| && names[x] == w && x in failed
  }

  /** That, or the target has failed. */
  ghost predicate BuildTried(dc: DataCache, t: Tally, w: string) {
    BuildAnswered(dc, t, w) || Lost(t.builds, t.s.failed.builds, w)
  }

  ghost predicate RunTried(dc: DataCache, t: Tally, w: string) {
    RunAnswered(dc, t, w) || Lost(t.runs, t.s.failed.runs, w)
  }

  lemma HasTargetStays(names: seq<string>, names': seq<string>, p: ProviderTable, p': ProviderTable, w: string)
    requires names <= names' && p.Keys <= p'.Keys && HasTarget(names, p, w)
    ensures HasTarget(names', p', w)
  {
    var x :| 0 <= x < |names| && names[x] == w && x in p;
    assert names'[x] == w && x in p';
  }

  lemma LostStays(names: seq<string>, names': seq<string>, failed: set<int>, failed': set<int>, w: string)
    requires names <= names' && failed <= failed' && Lost(names, failed, w)
    ensures Lost(names', failed', w)
  {
    var x :| 0 <= x < |names| && names[x] == w && x in failed;
    assert names'[x] == w && x in failed';
  }

  lemma AnsweredStays(dc: DataCache, a: Tally, b: Tally, w: string)
    requires Grew(a, b)
    ensures BuildAnswered(dc, a, w) ==> BuildAnswered(dc, b, w)
    ensures RunAnswered(dc, a, w) ==> RunAnswered(dc, b, w)
  {
    GrewMeans(a, b);
    hide BuildHandled, RunHandled, Grew;
    if HasTarget(a.builds, a.s.build, w) {
      HasTargetStays(a.builds, b.builds, a.s.build, b.s.build, w);
    }
    if HasTarget(a.runs, a.s.run, w) {
      HasTargetStays(a.runs, b.runs, a.s.run, b.s.run, w);
    }
    hide HasTarget;
    forall p ensures
        (BuildHandled(a, p, w) ==> BuildHandled(b, p, w)) && (RunHandled(a, p, w) ==> RunHandled(b, p, w))
    {
      HandledStays(a, b, p, w);
    }
  }

  lemma TriedStays(dc: DataCache, a: Tally, b: Tally, w: string)
    requires Grew(a, b)
    ensures BuildTried(dc, a, w) ==> BuildTried(dc, b, w)
    ensures RunTried(dc, a, w) ==> RunTried(dc, b, w)
  {
    AnsweredStays(dc, a, b, w);
    GrewMeans(a, b);
    hide Grew, BuildAnswered, RunAnswered;
    if Lost(a.builds, a.s.failed.builds, w) {
      LostStays(a.builds, b.builds, a.s.failed.builds, b.s.failed.builds, w);
    }
    if Lost(a.runs, a.s.failed.runs, w) {
      LostStays(a.runs, b.runs, a.s.failed.runs, b.s.failed.runs, w);
    }
  }

  lemma AllTriedStays(dc: DataCache, a: Tally, b: Tally)
    requires Grew(a, b)
    ensures forall w :: BuildTried(dc, a, w) ==> BuildTried(dc, b, w)
    ensures forall w :: RunTried(dc, a, w) ==> RunTried(dc, b, w)
    ensures forall w :: BuildAnswered(dc, a, w) ==> BuildAnswered(dc, b, w)
    ensures forall w :: RunAnswered(dc, a, w) ==> RunAnswered(dc, b, w)
  {
    forall w
      ensures BuildTried(dc, a, w) ==> BuildTried(dc, b, w)
      ensures RunTried(dc, a, w) ==> RunTried(dc, b, w)
      ensures BuildAnswered(dc, a, w) ==> BuildAnswered(dc, b, w)
      ensures RunAnswered(dc, a, w) ==> RunAnswered(dc, b, w)
    {
      TriedStays(dc, a, b, w);
      AnsweredStays(dc, a, b, w);
    }
  }

  /** Names that are no longer unresolved. */
  lemma BuildsTried(dc: DataCache, t: Tally, todo: seq<string>)
    requires forall x :: 0 <= x < |t.builds| ==>
      t.builds[x] in todo || t.builds[x] in dc.ignored_dependencies || x in t.s.failed.builds || x in t.s.build
    ensures forall w :: w in t.builds ==> w in todo || BuildTried(dc, t, w)
  {
    hide BuildHandled;
    forall w | w in t.builds && w !in todo ensures BuildTried(dc, t, w) {
      var x :| 0 <= x < |t.builds| && t.builds[x] == w;
      assert x in t.s.build ==> HasTarget(t.builds, t.s.build, w);
      assert x in t.s.failed.builds ==> Lost(t.builds, t.s.failed.builds, w);
    }
  }

  lemma RunsTried(dc: DataCache, t: Tally, todo: seq<string>)
    requires forall x :: 0 <= x < |t.runs| ==>
      t.runs[x] in todo || t.runs[x] in dc.ignored_dependencies || x in t.s.failed.runs || x in t.s.run
    ensures forall w :: w in t.runs ==> w in todo || RunTried(dc, t, w)
  {
    hide RunHandled;
    forall w | w in t.runs && w !in todo ensures RunTried(dc, t, w) {
      var x :| 0 <= x < |t.runs| && t.runs[x] == w;
      assert x in t.s.run ==> HasTarget(t.runs, t.s.run, w);
      assert x in t.s.failed.runs ==> Lost(t.runs, t.s.failed.runs, w);
    }
  }

  /** The first one has been tried now. */
  lemma OneMoreTried(dc: DataCache, names: seq<string>, todo: seq<string>, a: Tally, b: Tally)
    requires Grew(a, b) && todo != []
    ensures (forall w :: w in names ==> w in todo || BuildTried(dc, a, w)) && BuildTried(dc, b, todo[0]) ==>
      forall w :: w in names ==> w in todo[1..] || BuildTried(dc, b, w)
    ensures (forall w :: w in names ==> w in todo || RunTried(dc, a, w)) && RunTried(dc, b, todo[0]) ==>
      forall w :: w in names ==> w in todo[1..] || RunTried(dc, b, w)
  {
    AllTriedStays(dc, a, b);
    hide BuildTried, RunTried, Grew;
    assert todo == [todo[0]] + todo[1..];
    assert forall w :: w in todo ==> w == todo[0] || w in todo[1..];
  }

  /** Every name known at the start has been tried by now. */
  ghost predicate AllTried(dc: DataCache, start: Tally, now: Tally) {
    && (forall w :: w in start.builds ==> BuildTried(dc, now, w))
    && (forall w :: w in start.runs ==> RunTried(dc, now, w))
  }

  lemma TriedInPass(dc: DataCache, start: Tally, a: Tally, b: Tally, c: Tally)
    requires Grew(start, a) && Grew(start, b) && Grew(b, c)
    requires forall w :: w in a.builds ==> BuildTried(dc, b, w)
    requires forall w :: w in b.runs ==> RunTried(dc, c, w)
    ensures AllTried(dc, start, c)
  {
    GrewMeans(start, a);
    GrewMeans(start, b);
    AllTriedStays(dc, b, c);
    hide BuildTried, RunTried, Grew;
  }

  lemma SameFailedNames(t: Tally, u: Tally)
    requires t.fns == u.fns && t.s.failed.files == u.s.failed.files
    ensures FailedNames(t) == FailedNames(u)
  {
  }

  /** File names added since then make no difference. */
  lemma OlderFailedNames(t: Tally, u: Tally)
    requires t.fns <= u.fns && u.s == t.s && forall f :: f in t.s.failed.files ==> 0 <= f < |t.fns|
    ensures FailedNames(t) == FailedNames(u)
  {
    forall fn ensures HasFailed(t, fn) <==> HasFailed(u, fn) {
      FailedBefore(t, u, fn);
      if HasFailed(t, fn) {
        var f :| 0 <= f < |t.fns| && t.fns[f] == fn && f in t.s.failed.files;
        assert u.fns[f] == fn;
      }
    }
  }

  lemma ThinnedKeys(p: ProviderTable, p': ProviderTable, gone: set<int>)
    requires Thinned(p, p', gone)
    ensures p'.Keys == p.Keys
  {
  }

  lemma DoomedHasNotFailed(t: Tally, tasks_fnid: seq<int>, dc: DataCache, fn: string)
    requires StartsDoomed(t, tasks_fnid, dc, fn)
    ensures fn !in FailedNames(t)
  {
  }

  lemma ListMeansOrder(names: seq<string>, p: ProviderTable, fns: seq<string>, x: int, item: string, s: seq<string>)
    requires Distinct(names) && 0 <= x < |names| && names[x] == item && ListInOrder(p, fns, x, s, |s|)
    ensures ProvidersInOrder(names, p, fns, item, s)
  {
  }

  lemma BuildProviderRests(needs: Needs, s: State, x: int, f: int)
    requires AtRest(needs, s) && f !in s.failed.files
    ensures AtRest(needs, s.(build := WithProvider(s.build, x, f)))
  {
    TableTakesProvider(needs.build, s.build, s.failed.files, s.failed.builds, x, f);
  }

  lemma RunProviderRests(needs: Needs, s: State, x: int, f: int)
    requires AtRest(needs, s) && f !in s.failed.files
    ensures AtRest(needs, s.(run := WithProvider(s.run, x, f)))
  {
    TableTakesProvider(needs.run, s.run, s.failed.files, s.failed.runs, x, f);
  }

  lemma LastBuildProviderGone(needs: Needs, s: State, p: ProviderTable, gone: set<int>, x: int, f: int)
    requires AtRest(needs, s) && Thinned(p, s.build, gone) && x in p && p[x] == [f] && f in s.failed.files
    ensures x in s.failed.builds
  {
    LastProviderGone(needs.build, p, s.build, s.failed.files, s.failed.builds, gone, x, f);
  }

  lemma LastRunProviderGone(needs: Needs, s: State, p: ProviderTable, gone: set<int>, x: int, f: int)
    requires AtRest(needs, s) && Thinned(p, s.run, gone) && x in p && p[x] == [f] && f in s.failed.files
    ensures x in s.failed.runs
  {
    LastProviderGone(needs.run, p, s.run, s.failed.files, s.failed.runs, gone, x, f);
  }
}
