/** Choosing among the files that provide one package: sortPriorities,
findPreferredProvider, findLatestProvider and findBestProvider. */
module Providers {
  import opened Collections
  import opened Texts
  import opened Versions
  import opened Wrappers

  type File = string

  /** dataCache: file priorities, default preferences and versions. */
  datatype DataCache = DataCache(priority: map<File, int>, preference: map<File, int>, version: map<File, Version>) {
    predicate Knows(files: seq<File>) {
      forall f :: f in files ==> f in priority && f in preference && f in version
    }

    /** Their versions can be compared, too. */
    predicate Orders(files: seq<File>) {
      Knows(files) && forall f :: f in files ==> version[f].Sound()
    }
  }

  // --- ranks ---

  function Priority(c: DataCache, f: File): int { if f in c.priority then c.priority[f] else 0 }

  function Preference(c: DataCache, f: File): int { if f in c.preference then c.preference[f] else 0 }

  predicate HasRank(c: DataCache, f: File, pri: int, pref: int) {
    Priority(c, f) == pri && Preference(c, f) == pref
  }

  /** The files of one priority and preference, in order. */
  function Select(c: DataCache, files: seq<File>, pri: int, pref: int): seq<File> {
    if files == [] then []
    else
      Select(c, files[..|files|-1], pri, pref) +
      if HasRank(c, files[|files|-1], pri, pref) then [files[|files|-1]] else []
  }

  lemma SelectAppend(c: DataCache, files: seq<File>, f: File, pri: int, pref: int)
    ensures Select(c, files + [f], pri, pref) ==
      Select(c, files, pri, pref) + if HasRank(c, f, pri, pref) then [f] else []
  {
    assert (files + [f])[..|files|] == files;
  }

  lemma {:induction false} SelectHas(c: DataCache, files: seq<File>, pri: int, pref: int, f: File)
    ensures f in Select(c, files, pri, pref) <==> f in files && HasRank(c, f, pri, pref)
  {
    if files != [] {
      assert files == files[..|files|-1] + [files[|files|-1]];
      SelectHas(c, files[..|files|-1], pri, pref, f);
    }
  }

  function Flat<T>(sets: seq<seq<T>>): seq<T> {
    if sets == [] then [] else sets[0] + Flat(sets[1..])
  }

  lemma {:induction false} FlatHas<T>(sets: seq<seq<T>>, x: T)
    ensures x in Flat(sets) <==> exists i :: 0 <= i < |sets| && x in sets[i]
  {
    if sets != [] {
      FlatHas(sets[1..], x);
      if x in Flat(sets[1..]) {
        var i :| 0 <= i < |sets| - 1 && x in sets[1..][i];
        assert x in sets[i+1];
      }
      if i :| 0 <= i < |sets| && x in sets[i] {
        assert i > 0 ==> x in sets[1..][i-1];
      }
    }
  }

  lemma {:induction false} SelectSplits(c: DataCache, a: seq<File>, b: seq<File>, pri: int, pref: int)
    ensures Select(c, a + b, pri, pref) == Select(c, a, pri, pref) + Select(c, b, pri, pref)
  {
    if b == [] {
      assert a + b == a;
    } else {
      var init, last := b[..|b|-1], b[|b|-1];
      assert b == init + [last] && a + b == (a + init) + [last];
      SelectSplits(c, a, init, pri, pref);
      SelectAppend(c, a + init, last, pri, pref);
      SelectAppend(c, init, last, pri, pref);
    }
  }

  /** A set whose files have one priority and falling preferences. */
  predicate FallingSet(c: DataCache, s: seq<File>) {
    && s != []
    && forall a, b :: 0 <= a < b < |s| ==>
         Priority(c, s[a]) == Priority(c, s[b]) && Preference(c, s[a]) >= Preference(c, s[b])
  }

  /** Every file of an earlier set has a greater priority than every file of a later one. */
  predicate Falling(c: DataCache, sets: seq<seq<File>>) {
    && (forall s :: s in sets ==> FallingSet(c, s))
    && forall i, j :: 0 <= i < j < |sets| && sets[i] != [] && sets[j] != [] ==>
         Priority(c, sets[i][0]) > Priority(c, sets[j][0])
  }

  /** How sortPriorities arranges the files: sets by falling priority, within a
      set by falling preference, files of one rank in the given order. */
  ghost predicate Arranged(c: DataCache, files: seq<File>, sets: seq<seq<File>>) {
    Falling(c, sets) && forall pri, pref :: Select(c, Flat(sets), pri, pref) == Select(c, files, pri, pref)
  }

  /** Sorting neither loses nor repeats a file. */
  lemma ArrangedIsPermutation(c: DataCache, files: seq<File>, sets: seq<seq<File>>)
    requires Arranged(c, files, sets)
    ensures multiset(Flat(sets)) == multiset(files)
  {
    forall f ensures multiset(Flat(sets))[f] == multiset(files)[f] {
      CountInSelect(c, Flat(sets), f);
      CountInSelect(c, files, f);
    }
  }

  lemma {:induction false} CountInSelect(c: DataCache, files: seq<File>, f: File)
    ensures multiset(Select(c, files, Priority(c, f), Preference(c, f)))[f] == multiset(files)[f]
  {
    if files != [] {
      assert files == files[..|files|-1] + [files[|files|-1]];
      CountInSelect(c, files[..|files|-1], f);
    }
  }

  // --- sortPriorities ---

  lemma Least(keys: set<int>) returns (m: int)
    requires keys != {}
    ensures m in keys && forall k :: k in keys ==> m <= k
  {
    m := Member(keys);
    var rest := keys - {m};
    assert keys == rest + {m};
    if rest != {} {
      var least := Least(rest);
      if least < m {
        m := least;
      }
    }
  }

  /** keys() in rising order */
  method Sorted(keys: set<int>) returns (r: seq<int>)
    ensures forall i, j :: 0 <= i < j < |r| ==> r[i] < r[j]
    ensures forall k :: k in keys <==> k in r
  {
    r := [];
    var rest := keys;
    while rest != {}
      invariant rest <= keys && forall k :: k in keys <==> k in rest || k in r
      invariant forall i, j :: 0 <= i < j < |r| ==> r[i] < r[j]
      invariant forall i, k :: 0 <= i < |r| && k in rest ==> r[i] < k
    {
      ghost var least := Least(rest);
      var m :| m in rest && forall k :: k in rest ==> m <= k;
      r := r + [m];
      rest := rest - {m};
    }
  }

  /** keys() in falling order */
  method SortedDown(keys: set<int>) returns (r: seq<int>)
    ensures forall i, j :: 0 <= i < j < |r| ==> r[i] > r[j]
    ensures forall k :: k in keys <==> k in r
  {
    var up := Sorted(keys);
    r := seq(|up|, i requires 0 <= i < |up| => up[|up| - 1 - i]);
    forall k ensures k in keys <==> k in r {
      if k in keys {
        var i :| 0 <= i < |up| && up[i] == k;
        assert r[|up| - 1 - i] == k;
      }
    }
  }

  type Table = map<int, map<int, seq<File>>>

  function Cell(t: Table, pri: int, pref: int): seq<File> {
    if pri in t && pref in t[pri] then t[pri][pref] else []
  }

  predicate NoEmptyEntries(t: Table) {
    forall pri :: pri in t ==> t[pri].Keys != {} && forall pref :: pref in t[pri] ==> t[pri][pref] != []
  }

  /** The nested dictionaries hold the files by rank. */
  ghost predicate Filed(c: DataCache, files: seq<File>, t: Table) {
    NoEmptyEntries(t) && forall pri, pref :: Cell(t, pri, pref) == Select(c, files, pri, pref)
  }

  /** priorities[pri][pref].append(f), with the entries made as needed */
  function Filing(t: Table, pri: int, pref: int, f: File): Table {
    t[pri := (if pri in t then t[pri] else map[])[pref := Cell(t, pri, pref) + [f]]]
  }

  lemma FilingFiles(c: DataCache, files: seq<File>, t: Table, f: File)
    requires Filed(c, files, t)
    ensures Filed(c, files + [f], Filing(t, Priority(c, f), Preference(c, f), f))
  {
    hide Select;
    var pri, pref := Priority(c, f), Preference(c, f);
    var after := Filing(t, pri, pref, f);
    assert pref in after[pri].Keys;
    forall p, q ensures Cell(after, p, q) == Select(c, files + [f], p, q) {
      assert Cell(t, p, q) == Select(c, files, p, q);
      SelectAppend(c, files, f, p, q);
    }
  }

  /** The first loop of sortPriorities. */
  method FileByRank(c: DataCache, files: seq<File>) returns (priorities: Table)
    requires c.Knows(files)
    ensures Filed(c, files, priorities)
  {
    hide Filed, Select;
    priorities := map[];
    FiledNone(c);
    for i := 0 to |files|
      invariant Filed(c, files[..i], priorities)
    {
      var f := files[i];
      assert f in files;
      var priority, preference := c.priority[f], c.preference[f];
      ghost var before := priorities;
      if priority !in priorities {
        priorities := priorities[priority := map[]];
      }
      if preference !in priorities[priority] {
        priorities := priorities[priority := priorities[priority][preference := []]];
      }
      priorities := priorities[
        priority := priorities[priority][preference := priorities[priority][preference] + [f]]];
      assert priorities[priority] == (if priority in before then before[priority] else map[])[
        preference := Cell(before, priority, preference) + [f]];
      assert priorities == Filing(before, priority, preference, f);
      FilingFiles(c, files[..i], before, f);
      assert files[..i+1] == files[..i] + [f];
    }
    assert files[..|files|] == files;
  }

  lemma FiledNone(c: DataCache)
    ensures Filed(c, [], map[])
  {
  }

  /** s holds the files of one priority with these preferences, falling. */
  ghost predicate Row(c: DataCache, files: seq<File>, pri: int, done: seq<int>, s: seq<File>) {
    && (forall p, q :: Select(c, s, p, q) == if p == pri && q in done then Select(c, files, p, q) else [])
    && (forall f :: f in s ==> Priority(c, f) == pri && Preference(c, f) in done)
    && (s != [] ==> FallingSet(c, s))
  }

  lemma RowNext(c: DataCache, files: seq<File>, pri: int, done: seq<int>, s: seq<File>, pref: int)
    requires Row(c, files, pri, done, s) && forall q :: q in done ==> q > pref
    ensures Row(c, files, pri, done + [pref], s + Select(c, files, pri, pref))
  {
    hide Select, FallingSet;
    var more := Select(c, files, pri, pref);
    forall p, q
      ensures Select(c, s + more, p, q) == if p == pri && q in done + [pref] then Select(c, files, p, q) else []
    {
      SelectSplits(c, s, more, p, q);
      SelectTwice(c, files, pri, pref, p, q);
      var kept, added := Select(c, s, p, q), Select(c, more, p, q);
      assert kept + [] == kept && [] + added == added;
    }
    forall f | f in more ensures HasRank(c, f, pri, pref) {
      SelectHas(c, files, pri, pref, f);
    }
    FallingJoin(c, s, more, pri, pref);
  }

  lemma FallingJoin(c: DataCache, s: seq<File>, more: seq<File>, pri: int, pref: int)
    requires s != [] ==> FallingSet(c, s)
    requires forall f :: f in s ==> Priority(c, f) == pri && Preference(c, f) > pref
    requires forall f :: f in more ==> HasRank(c, f, pri, pref)
    ensures s + more != [] ==> FallingSet(c, s + more)
  {
    forall k | 0 <= k < |more| ensures HasRank(c, more[k], pri, pref) {
      assert more[k] in more;
    }
    forall k | 0 <= k < |s| ensures Priority(c, s[k]) == pri && Preference(c, s[k]) > pref {
      assert s[k] in s;
    }
  }

  lemma {:induction false} SelectTwice(c: DataCache, files: seq<File>, pri: int, pref: int, p: int, q: int)
    ensures Select(c, Select(c, files, pri, pref), p, q) == if p == pri && q == pref then Select(c, files, p, q) else []
  {
    if files != [] {
      var init, last := files[..|files|-1], files[|files|-1];
      SelectTwice(c, init, pri, pref, p, q);
      if HasRank(c, last, pri, pref) {
        SelectAppend(c, Select(c, init, pri, pref), last, p, q);
      } else {
        assert Select(c, init, pri, pref) + [] == Select(c, init, pri, pref);
      }
    }
  }

  /** The inner loop of sortPriorities. */
  method CollectRow(c: DataCache, ghost files: seq<File>, ghost pri: int, row: map<int, seq<File>>)
      returns (s: seq<File>, ghost prefs: seq<int>)
    requires row.Keys != {} && forall pref :: pref in row ==> row[pref] == Select(c, files, pri, pref) != []
    ensures s != [] && Row(c, files, pri, prefs, s) && forall pref :: pref in prefs <==> pref in row
  {
    hide Row, Select;
    var prefList := SortedDown(row.Keys);
    s := [];
    EmptyRow(c, files, pri);
    for k := 0 to |prefList|
      invariant Row(c, files, pri, prefList[..k], s) && (k > 0 ==> s != [])
    {
      RowNext(c, files, pri, prefList[..k], s, prefList[k]);
      assert prefList[..k+1] == prefList[..k] + [prefList[k]];
      assert prefList[k] in prefList && prefList[k] in row;
      s := s + row[prefList[k]];
    }
    assert prefList[..|prefList|] == prefList;
    ghost var some := Member(row.Keys);
    assert some in prefList;
    prefs := prefList;
  }

  lemma EmptyRow(c: DataCache, files: seq<File>, pri: int)
    ensures Row(c, files, pri, [], [])
  {
  }

  /** The sets made so far hold exactly the files of these priorities. */
  ghost predicate Partly(c: DataCache, files: seq<File>, sets: seq<seq<File>>, done: seq<int>) {
    && Falling(c, sets)
    && (forall p, q :: Select(c, Flat(sets), p, q) == if p in done then Select(c, files, p, q) else [])
    && (forall s :: s in sets ==> s != [] && Priority(c, s[0]) in done)
  }

  lemma PartlyNext(c: DataCache, files: seq<File>, sets: seq<seq<File>>, done: seq<int>, pri: int, s: seq<File>)
    requires Partly(c, files, sets, done) && forall p :: p in done ==> p < pri
    requires FallingSet(c, s) && Priority(c, s[0]) == pri
    requires forall p, q :: Select(c, s, p, q) == if p == pri then Select(c, files, p, q) else []
    ensures Partly(c, files, [s] + sets, done + [pri])
  {
    FlatMore(s, sets);
    assert s != [];
    hide Flat, Select, Falling, FallingSet;
    forall p, q ensures Select(c, s + Flat(sets), p, q) == if p in done + [pri] then Select(c, files, p, q) else [] {
      SelectOneMore(c, files, s, Flat(sets), done, pri, p, q);
    }
    FallingMore(c, sets, s);
  }

  lemma FlatMore<T>(s: seq<T>, sets: seq<seq<T>>)
    ensures Flat([s] + sets) == s + Flat(sets)
  {
    assert ([s] + sets)[1..] == sets;
  }

  lemma SelectOneMore(c: DataCache, files: seq<File>, s: seq<File>, rest: seq<File>, done: seq<int>, pri: int,
                      p: int, q: int)
    requires pri !in done
    requires Select(c, s, p, q) == if p == pri then Select(c, files, p, q) else []
    requires Select(c, rest, p, q) == if p in done then Select(c, files, p, q) else []
    ensures Select(c, s + rest, p, q) == if p in done + [pri] then Select(c, files, p, q) else []
  {
    SelectSplits(c, s, rest, p, q);
    hide Select;
    if p == pri {
      assert Select(c, s, p, q) + [] == Select(c, s, p, q);
    }
  }

  lemma FallingMore(c: DataCache, sets: seq<seq<File>>, s: seq<File>)
    requires Falling(c, sets) && FallingSet(c, s)
    requires forall t :: t in sets ==> t != [] && Priority(c, t[0]) < Priority(c, s[0])
    ensures Falling(c, [s] + sets)
  {
    hide FallingSet;
    var more := [s] + sets;
    forall i, j | 0 <= i < j < |more| && more[i] != [] && more[j] != []
      ensures Priority(c, more[i][0]) > Priority(c, more[j][0])
    {
      assert more[j] == sets[j-1] && sets[j-1] in sets;
      assert i > 0 ==> more[i] == sets[i-1];
    }
  }

  /** A complete row of one priority. */
  lemma RowIsComplete(c: DataCache, files: seq<File>, t: Table, pri: int, prefs: seq<int>, s: seq<File>)
    requires Filed(c, files, t) && pri in t && s != [] && Row(c, files, pri, prefs, s)
    requires forall pref :: pref in prefs <==> pref in t[pri]
    ensures FallingSet(c, s) && Priority(c, s[0]) == pri
    ensures forall p, q :: Select(c, s, p, q) == if p == pri then Select(c, files, p, q) else []
  {
    assert s[0] in s;
    hide Select, FallingSet;
    forall q | q !in prefs ensures Select(c, files, pri, q) == [] {
      assert Cell(t, pri, q) == Select(c, files, pri, q);
    }
  }

  /** sortPriorities */
  method SortPriorities(c: DataCache, files: seq<File>) returns (sets: seq<seq<File>>)
    requires c.Knows(files)
    ensures Arranged(c, files, sets)
  {
    hide Partly, Arranged, Row, Select, FallingSet;
    var priorities := FileByRank(c, files);
    var priList := Sorted(priorities.Keys);
    sets := [];
    NothingYet(c, files);
    for k := 0 to |priList|
      invariant Partly(c, files, sets, priList[..k])
    {
      var pri := priList[k];
      assert pri in priList && pri in priorities;
      assert forall q :: Cell(priorities, pri, q) == Select(c, files, pri, q);
      var row, prefs := CollectRow(c, files, pri, priorities[pri]);
      RowIsComplete(c, files, priorities, pri, prefs, row);
      PartlyNext(c, files, sets, priList[..k], pri, row);
      assert priList[..k+1] == priList[..k] + [pri];
      sets := [row] + sets;
    }
    assert priList[..|priList|] == priList;
    AllDone(c, files, sets, priList, priorities);
  }

  lemma NothingYet(c: DataCache, files: seq<File>)
    ensures Partly(c, files, [], [])
  {
  }

  lemma AllDone(c: DataCache, files: seq<File>, sets: seq<seq<File>>, done: seq<int>, t: Table)
    requires Partly(c, files, sets, done) && Filed(c, files, t) && forall p :: p in t <==> p in done
    ensures Arranged(c, files, sets)
  {
    hide Select, FallingSet, Flat;
    forall p, q ensures Select(c, Flat(sets), p, q) == Select(c, files, p, q) {
      assert Cell(t, p, q) == Select(c, files, p, q);
    }
  }

  // --- the choice ---

  /** f is not worse than g by default preference, then version. */
  predicate AtLeast(c: DataCache, f: File, g: File)
    requires f in c.version && g in c.version
  {
    || Preference(c, f) > Preference(c, g)
    || (Preference(c, f) == Preference(c, g) && Compare(c.version[f], c.version[g]) >= 0)
  }

  lemma AtLeastChains(c: DataCache, f: File, g: File, h: File)
    requires f in c.version && g in c.version && h in c.version
    requires AtLeast(c, f, g) && AtLeast(c, g, h)
    ensures AtLeast(c, f, h) && (!AtLeast(c, g, f) ==> !AtLeast(c, h, f))
  {
    var u, v, w := c.version[f], c.version[g], c.version[h];
    VersionsTurn(u, v);
    VersionsTurn(v, w);
    VersionsTurn(u, w);
    if Compare(v, u) <= 0 && Compare(w, v) <= 0 {
      VersionsChain(w, v, u);
    }
  }

  /** findLatestProvider: the first of the best files of a set. */
  method FindLatestProvider(c: DataCache, files: seq<File>) returns (latest: Option<Version>, latestF: Option<File>)
    requires c.Orders(files)
    ensures latestF.None? <==> files == []
    ensures latest.None? <==> latestF.None?
    ensures latestF.Some? ==>
      var f := latestF.value;
      && f in files && latest == Some(c.version[f])
      && (forall g :: g in files ==>
            c.preference[f] > c.preference[g] ||
            (c.preference[f] == c.preference[g] && Compare(c.version[f], c.version[g]) >= 0))
      && exists i :: 0 <= i < |files| && files[i] == f && forall j :: 0 <= j < i ==>
           c.preference[files[j]] < c.preference[f] ||
           (c.preference[files[j]] == c.preference[f] && Compare(c.version[files[j]], c.version[f]) < 0)
  {
    hide AtLeast, Compare;
    latest, latestF := None, None;
    var latestP := 0;
    ghost var at := 0;
    for k := 0 to |files|
      invariant latestF.None? == latest.None? == (k == 0)
      invariant latestF.Some? ==> at < k && latestF == Some(files[at]) && latestF.value in files
      invariant latestF.Some? ==>
        latestP == Preference(c, latestF.value) && latest == Some(c.version[latestF.value])
      invariant latestF.Some? ==> forall j :: 0 <= j < k ==> files[j] in files && AtLeast(c, latestF.value, files[j])
      invariant latestF.Some? ==> forall j :: 0 <= j < at ==> files[j] in files && !AtLeast(c, files[j], latestF.value)
    {
      var f := files[k];
      assert f in files;
      var dp := c.preference[f];
      var better := latest.None? || dp > latestP;
      if !better && latestP == dp {
        var r := Vercmp(latest.value, c.version[f]);
        better := r.value < 0;
      }
      if latest.Some? {
        NewerIsBetter(c, latestF.value, f);
      }
      NotWorseThanItself(c, f);
      if better {
        forall j | 0 <= j < k ensures AtLeast(c, f, files[j]) && !AtLeast(c, files[j], f) {
          AtLeastChains(c, f, latestF.value, files[j]);
        }
        latest, latestF, latestP, at := Some(c.version[f]), Some(f), dp, k;
      }
    }
    if latestF.Some? {
      forall g | g in files { AtLeastMeans(c, latestF.value, g); }
      forall j | 0 <= j < at { AtLeastMeans(c, files[j], latestF.value); }
    }
  }

  lemma AtLeastMeans(c: DataCache, f: File, g: File)
    requires c.Knows([f, g])
    ensures AtLeast(c, f, g) <==>
      c.preference[f] > c.preference[g] ||
      (c.preference[f] == c.preference[g] && Compare(c.version[f], c.version[g]) >= 0)
  {
    assert f in [f, g] && g in [f, g];
  }

  lemma NotWorseThanItself(c: DataCache, f: File)
    requires f in c.version
    ensures AtLeast(c, f, f)
  {
    VersionsTurn(c.version[f], c.version[f]);
  }

  lemma NewerIsBetter(c: DataCache, f: File, g: File)
    requires f in c.version && g in c.version
    ensures
      var better := Preference(c, g) > Preference(c, f) ||
        (Preference(c, f) == Preference(c, g) && Compare(c.version[f], c.version[g]) < 0);
      if better then AtLeast(c, g, f) && !AtLeast(c, f, g) else AtLeast(c, f, g)
  {
    VersionsTurn(c.version[f], c.version[g]);
  }

  // --- PREFERRED_VERSION ---

  /** A number is not equal to any text. */
  datatype PyValue = IntValue(n: int) | TextValue(s: string)

  /** preferred_e, preferred_v and preferred_r */
  datatype Preferred = Preferred(epoch: Option<PyValue>, version: string, revision: Option<string>)

  /** The length of digits with a colon at the start of s. */
  function EpochLength(s: string): (n: nat)
    ensures n <= |s|
  {
    var n := DigitRun(s);
    if 0 < n < |s| && s[n] == ':' then n + 1 else 0
  }

  /** (\d+:)* : the last digits it matches */
  function LastEpoch(s: string): (e: Option<string>)
    ensures e.Some? <==> EpochLength(s) > 0
    ensures e.Some? ==> e.value != "" && forall i :: 0 <= i < |e.value| ==> IsDigit(e.value[i])
    decreases |s|
  {
    var n := EpochLength(s);
    if n == 0 then None
    else
      var more := LastEpoch(s[n..]);
      if more.Some? then more else Some(s[..n-1])
  }

  /** What is left behind it. */
  function AfterEpochs(s: string): string
    decreases |s|
  {
    var n := EpochLength(s);
    if n == 0 then s else AfterEpochs(s[n..])
  }

  /** (_.*)* : the last text it matches, without the underscore */
  function LastRevision(s: string): Option<string>
    decreases |s|
  {
    if s == "" || s[0] != '_' then None
    else
      var text := Line(s[1..]);
      var more := LastRevision(s[1 + |text|..]);
      if more.Some? then more else Some(text)
  }

  /** The groups of (\d+:)*(.*)(_.*)* ; each part takes all it can. */
  function ParsePreferred(s: string): Preferred {
    var e := LastEpoch(s);
    var rest := AfterEpochs(s);
    var v := Line(rest);
    Preferred(if e.Some? then Some(IntValue(ToInt(e.value))) else None, v, LastRevision(rest[|v|..]))
  }

  /** The test of findPreferredProvider. */
  predicate Meets(c: DataCache, p: Preferred, f: File) {
    && f in c.version
    && var v := c.version[f];
    && p.version == v.version
    && (p.revision == Some(v.revision) || p.revision == None)
    && (p.epoch == Some(TextValue(v.epoch)) || p.epoch == None)
  }

  /** What epoch:version_revision asks for: a version, and an epoch and a revision
      where it names them. */
  predicate Intended(c: DataCache, s: string, f: File) {
    && f in c.version
    && var v, line, e := c.version[f], Line(AfterEpochs(s)), LastEpoch(s);
    && v.version == UpTo(line, '_')
    && ('_' in line ==> v.revision == line[|UpTo(line, '_')| + 1..])
    && (e.Some? ==> ParseInt(v.epoch) == Some(ToInt(e.value)))
  }

  /** It names neither an epoch nor a revision. */
  predicate Plain(s: string) {
    EpochLength(s) == 0 && '_' !in Line(s)
  }

  lemma {:induction false} NothingCut(s: string, c: char)
    ensures UpTo(s, c) == s <==> c !in s
  {
    if s != "" && s[0] != c {
      NothingCut(s[1..], c);
      assert s == [s[0]] + s[1..];
    }
  }

  /** The second group leaves the third one nothing to match. */
  lemma RevisionIsNeverSplitOff(s: string)
    ensures ParsePreferred(s).revision == None
  {
  }

  /** The epoch is compared as a number with a text. */
  lemma MetHasNoEpoch(c: DataCache, s: string, f: File)
    requires Meets(c, ParsePreferred(s), f)
    ensures EpochLength(s) == 0
  {
  }

  /** A file that passes the test is one that was asked for exactly when neither
      an epoch nor a revision was; and then all that were asked for pass. */
  lemma MetIsIntended(c: DataCache, s: string, f: File)
    ensures Meets(c, ParsePreferred(s), f) ==> (Intended(c, s, f) <==> Plain(s))
    ensures Plain(s) ==> (Meets(c, ParsePreferred(s), f) <==> Intended(c, s, f))
  {
    RevisionIsNeverSplitOff(s);
    NothingCut(Line(AfterEpochs(s)), '_');
  }

  /** The version that a preference asks for, with "0" and "r0" for what it leaves open. */
  function AskedVersion(s: string): Version {
    var line, e := Line(AfterEpochs(s)), LastEpoch(s);
    var v := UpTo(line, '_');
    Version(if e.Some? then e.value else "0", v, if '_' in line then line[|v| + 1..] else "r0")
  }

  lemma AskedIsSound(s: string)
    ensures AskedVersion(s).Sound()
  {
    hide AfterEpochs;
    DigitsAreInt(AskedVersion(s).epoch);
  }

  /** For every other preference there is a file that was asked for and fails. */
  lemma IntendedIsMissed(s: string) returns (c: DataCache, f: File)
    requires !Plain(s)
    ensures c.Orders([f]) && Intended(c, s, f) && !Meets(c, ParsePreferred(s), f)
  {
    var v := AskedVersion(s);
    f := "file";
    c := DataCache(map[f := 0], map[f := 0], map[f := v]);
    DigitsAreInt(v.epoch);
    AskedIsSound(s);
    MetIsIntended(c, s, f);
    hide AfterEpochs, ParseInt, ParsePreferred, Plain, Readable;
  }

  lemma DigitsAreInt(s: string)
    requires s != "" && forall i :: 0 <= i < |s| ==> IsDigit(s[i])
    ensures ParseInt(s) == Some(ToInt(s))
  {
  }

  /** The test picks what was asked for, whatever files there are, exactly for a
      preference without epoch and revision. */
  lemma PreferenceWorksIfPlain(s: string)
    ensures Plain(s) <==> forall c, f :: Meets(c, ParsePreferred(s), f) <==> Intended(c, s, f)
  {
    if Plain(s) {
      forall c, f ensures Meets(c, ParsePreferred(s), f) <==> Intended(c, s, f) {
        MetIsIntended(c, s, f);
      }
    } else {
      var c, f := IntendedIsMissed(s);
    }
  }

  /** A preference written out of its parts. */
  function Asking(e: Option<string>, v: string, r: Option<string>): string {
    (if e.Some? then e.value + ":" else "") + WithRevision(v, r)
  }

  function WithRevision(v: string, r: Option<string>): string {
    if r.Some? then v + "_" + r.value else v
  }

  /** Digits for the epoch, no colon or underscore in the version, and all on one line. */
  predicate Parts(e: Option<string>, v: string, r: Option<string>) {
    && (e.Some? ==> e.value != "" && AllDigits(e.value))
    && '_' !in v && ':' !in v && '\n' !in v && (r.Some? ==> '\n' !in r.value)
  }

  lemma {:induction false} UpToFirst(v: string, c: char, rest: string)
    requires c !in v
    ensures UpTo(v + [c] + rest, c) == v
  {
    var s := v + [c] + rest;
    if v != "" {
      assert s[1..] == v[1..] + [c] + rest;
      UpToFirst(v[1..], c, rest);
    }
  }

  lemma NoEpochAhead(v: string, r: Option<string>)
    requires Parts(None, v, r)
    ensures EpochLength(WithRevision(v, r)) == 0
  {
    var s := WithRevision(v, r);
    if r.Some? {
      assert s[|v|] == '_';
      DigitRunEnds(s, |v|);
    }
    hide DigitRun;
  }

  lemma {:induction false} DigitRunEnds(s: string, i: nat)
    requires i < |s| && !IsDigit(s[i])
    ensures DigitRun(s) <= i
  {
    if i > 0 {
      DigitRunEnds(s[1..], i - 1);
    }
  }

  lemma EpochAhead(e: string, rest: string)
    requires e != "" && AllDigits(e) && EpochLength(rest) == 0
    ensures LastEpoch(e + ":" + rest) == Some(e) && AfterEpochs(e + ":" + rest) == rest
  {
    var s := e + ":" + rest;
    assert s == e + (":" + rest);
    DigitRunIs(e, ":" + rest);
    assert s[|e|] == ':' && s[|e|+1..] == rest && s[..|e|] == e;
    assert EpochLength(s) == |e| + 1;
  }

  lemma RestOfAsking(e: Option<string>, v: string, r: Option<string>)
    requires Parts(e, v, r)
    ensures LastEpoch(Asking(e, v, r)) == e && AfterEpochs(Asking(e, v, r)) == WithRevision(v, r)
    ensures EpochLength(Asking(e, v, r)) == 0 <==> e.None?
  {
    var rest := WithRevision(v, r);
    NoEpochAhead(v, r);
    if e.Some? {
      EpochAhead(e.value, rest);
      assert Asking(e, v, r) == e.value + ":" + rest;
    } else {
      assert Asking(e, v, r) == rest;
    }
  }

  lemma LineOfAsking(e: Option<string>, v: string, r: Option<string>)
    requires Parts(e, v, r)
    ensures var s := WithRevision(v, r);
      Line(s) == s && UpTo(s, '_') == v && ('_' in s <==> r.Some?) && (r.Some? ==> s[|v|+1..] == r.value)
  {
    var s := WithRevision(v, r);
    NothingCut(s, '\n');
    if r.Some? {
      UpToFirst(v, '_', r.value);
    } else {
      NothingCut(v, '_');
    }
  }

  lemma IntendedOfAsking(c: DataCache, e: Option<string>, v: string, r: Option<string>, f: File)
    requires Parts(e, v, r) && f in c.version
    ensures Intended(c, Asking(e, v, r), f) <==>
      && c.version[f].version == v
      && (r.Some? ==> c.version[f].revision == r.value)
      && (e.Some? ==> ParseInt(c.version[f].epoch) == Some(ToInt(e.value)))
  {
    RestOfAsking(e, v, r);
    LineOfAsking(e, v, r);
    hide Asking, WithRevision, Parts, LastEpoch, AfterEpochs, UpTo, Line, EpochLength, ParseInt, ToInt;
  }

  lemma MeetsAsking(c: DataCache, e: Option<string>, v: string, r: Option<string>, f: File)
    requires Parts(e, v, r) && f in c.version
    ensures Meets(c, ParsePreferred(Asking(e, v, r)), f) <==> e.None? && c.version[f].version == WithRevision(v, r)
  {
    RestOfAsking(e, v, r);
    LineOfAsking(e, v, r);
    RevisionIsNeverSplitOff(Asking(e, v, r));
    hide Asking, WithRevision, Parts, LastEpoch, AfterEpochs, UpTo, Line, EpochLength, ToInt, LastRevision;
  }

  /** What a preference asks for and what passes the test, in terms of its parts. */
  lemma AskingMeans(c: DataCache, e: Option<string>, v: string, r: Option<string>, f: File)
    requires Parts(e, v, r) && f in c.version
    ensures
      var s, w := Asking(e, v, r), c.version[f];
      && (Intended(c, s, f) <==>
            w.version == v && (r.Some? ==> w.revision == r.value) &&
            (e.Some? ==> ParseInt(w.epoch) == Some(ToInt(e.value))))
      && (Plain(s) <==> e.None? && r.None?)
      && (Meets(c, ParsePreferred(s), f) <==> e.None? && w.version == WithRevision(v, r))
  {
    IntendedOfAsking(c, e, v, r, f);
    MeetsAsking(c, e, v, r, f);
    RestOfAsking(e, v, r);
    LineOfAsking(e, v, r);
    assert e.None? ==> Asking(e, v, r) == WithRevision(v, r);
    hide Intended, Meets, ParsePreferred, Asking, WithRevision, Parts, LastEpoch, AfterEpochs, EpochLength, UpTo, Line;
  }

  /** A preference that the file is meant to satisfy and does not: an epoch. */
  lemma EpochIsMissed(c: DataCache, f: File)
    requires f in c.version && c.version[f] == Version("1", "2.0", "r3")
    ensures Intended(c, "1:2.0", f) && !Meets(c, ParsePreferred("1:2.0"), f)
  {
    hide DigitRun, UpTo, ParsePreferred, ParseInt, ToInt;
    var s, rest := "1:2.0", "2.0";
    assert s[0] == '1' && s[1] == ':' && rest[0] == '2' && rest[1] == '.';
    assert s[2..] == rest && s[..1] == "1";
    assert DigitRun(s) == 1 && DigitRun(rest) == 1;
    assert LastEpoch(s) == Some("1") && AfterEpochs(s) == rest;
    hide LastEpoch, AfterEpochs;
    DigitsAreInt("1");
    NothingCut(rest, '\n');
    NothingCut(rest, '_');
    MetIsIntended(c, s, f);
  }

  /** And a revision. */
  lemma RevisionIsMissed(c: DataCache, f: File)
    requires f in c.version && c.version[f] == Version("1", "2.0", "r3")
    ensures Intended(c, "2.0_r3", f) && !Meets(c, ParsePreferred("2.0_r3"), f)
  {
    hide DigitRun, UpTo, ParsePreferred, ParseInt, ToInt;
    var s := "2.0_r3";
    assert s[0] == '2' && s[1] == '.' && s[2] == '0' && s[3] == '_';
    assert DigitRun(s) == 1;
    assert LastEpoch(s) == None && AfterEpochs(s) == s;
    hide LastEpoch, AfterEpochs;
    NothingCut(s, '\n');
    var v := UpTo(s, '_');
    assert |v| == 3 && v == s[..3] && s[..3] == "2.0" && s[4..] == "r3";
    MetIsIntended(c, s, f);
  }

  /** findPreferredProvider, for the value of PREFERRED_VERSION, empty for none:
      the first file of the sets that has the version. */
  method FindPreferredProvider(c: DataCache, sets: seq<seq<File>>, preferredV: string)
      returns (preferredVer: Option<Version>, preferredFile: Option<File>)
    requires forall s :: s in sets ==> c.Knows(s)
    ensures preferredFile.Some? ==>
      && preferredV != "" && FirstMeeting(c, sets, ParsePreferred(preferredV), preferredFile.value)
      && preferredFile.value in c.version && preferredVer == Some(c.version[preferredFile.value])
    ensures preferredFile.None? ==>
      && preferredVer == None
      && (preferredV != "" ==>
            forall i, f :: 0 <= i < |sets| && f in sets[i] ==> !Meets(c, ParsePreferred(preferredV), f))
    ensures preferredFile.Some? ==> (Intended(c, preferredV, preferredFile.value) <==> Plain(preferredV))
    ensures EpochLength(preferredV) > 0 ==> preferredFile.None?
  {
    hide Intended, Plain, ParsePreferred;
    preferredVer, preferredFile := None, None;
    if preferredV != "" {
      var p := ParsePreferred(preferredV);
      for i := 0 to |sets|
        invariant preferredFile.None? && preferredVer.None?
        invariant forall k, f :: 0 <= k < i && f in sets[k] ==> !Meets(c, p, f)
      {
        assert sets[i] in sets;
        for j := 0 to |sets[i]|
          invariant preferredFile.None? && preferredVer.None?
          invariant forall k :: 0 <= k < j ==> !Meets(c, p, sets[i][k])
        {
          var f := sets[i][j];
          assert f in sets[i];
          var v := c.version[f];
          if
            && p.version == v.version
            && (p.revision == Some(v.revision) || p.revision == None)
            && (p.epoch == Some(TextValue(v.epoch)) || p.epoch == None)
          {
            MetIsIntended(c, preferredV, f);
            MetHasNoEpoch(c, preferredV, f);
            preferredFile := Some(f);
            preferredVer := Some(v);
            return;
          }
        }
      }
    }
  }

  /** f meets the preference and nothing before it does. */
  ghost predicate FirstMeeting(c: DataCache, sets: seq<seq<File>>, p: Preferred, f: File) {
    exists i, j ::
      && 0 <= i < |sets| && 0 <= j < |sets[i]| && sets[i][j] == f && Meets(c, p, f)
      && (forall k, g :: 0 <= k < i && g in sets[k] ==> !Meets(c, p, g))
      && (forall k :: 0 <= k < j ==> !Meets(c, p, sets[i][k]))
  }

  /** f is not worse than g by priority, then default preference, then version. */
  predicate Best(c: DataCache, f: File, g: File) {
    && f in c.version && g in c.version
    && (Priority(c, f) > Priority(c, g) || (Priority(c, f) == Priority(c, g) && AtLeast(c, f, g)))
  }

  lemma EveryFileIsInASet(c: DataCache, files: seq<File>, sets: seq<seq<File>>, f: File)
    requires Arranged(c, files, sets)
    ensures f in files <==> exists i :: 0 <= i < |sets| && f in sets[i]
  {
    SelectHas(c, files, Priority(c, f), Preference(c, f), f);
    SelectHas(c, Flat(sets), Priority(c, f), Preference(c, f), f);
    FlatHas(sets, f);
  }

  /** Between files of arranged sets. */
  lemma SetsFall(c: DataCache, sets: seq<seq<File>>, i: nat, j: nat, f: File, g: File)
    requires Falling(c, sets) && i <= j < |sets| && f in sets[i] && g in sets[j]
    ensures i < j ==> Priority(c, f) > Priority(c, g)
    ensures i == j ==> Priority(c, f) == Priority(c, g)
  {
    assert sets[i] in sets && sets[j] in sets;
    var a :| 0 <= a < |sets[i]| && sets[i][a] == f;
    var b :| 0 <= b < |sets[j]| && sets[j][b] == g;
    assert Priority(c, sets[i][0]) == Priority(c, f) by { if a > 0 { assert FallingSet(c, sets[i]); } }
    assert Priority(c, sets[j][0]) == Priority(c, g) by { if b > 0 { assert FallingSet(c, sets[j]); } }
  }

  /** A file that meets the preference is not worse than the others that do, by
      priority and then default preference. */
  lemma FirstIsBest(c: DataCache, files: seq<File>, sets: seq<seq<File>>, p: Preferred, f: File, g: File)
    requires Arranged(c, files, sets) && FirstMeeting(c, sets, p, f) && g in files && Meets(c, p, g)
    ensures f in files && Priority(c, f) >= Priority(c, g)
    ensures Priority(c, f) == Priority(c, g) ==> Preference(c, f) >= Preference(c, g)
  {
    var i, j :|
      && 0 <= i < |sets| && 0 <= j < |sets[i]| && sets[i][j] == f
      && (forall k, g :: 0 <= k < i && g in sets[k] ==> !Meets(c, p, g))
      && (forall k :: 0 <= k < j ==> !Meets(c, p, sets[i][k]));
    EveryFileIsInASet(c, files, sets, f);
    EveryFileIsInASet(c, files, sets, g);
    assert f in sets[i];
    var k :| 0 <= k < |sets| && g in sets[k];
    SetsFall(c, sets, i, k, f, g);
    if k == i {
      var l :| 0 <= l < |sets[i]| && sets[i][l] == g;
      assert sets[i] in sets && FallingSet(c, sets[i]);
    }
  }

  /** findBestProvider: the latest file is the best of all; the preferred one is
      the latest, unless some file has the preferred version. */
  method FindBestProvider(c: DataCache, files: seq<File>, preferredV: string)
      returns (latest: Version, latestF: File, preferredVer: Version, preferredFile: File)
    requires c.Orders(files) && files != []
    ensures latestF in files && latest == c.version[latestF]
    ensures forall g :: g in files ==>
      || c.priority[latestF] > c.priority[g]
      || (c.priority[latestF] == c.priority[g] && c.preference[latestF] > c.preference[g])
      || (c.priority[latestF] == c.priority[g] && c.preference[latestF] == c.preference[g] &&
          Compare(latest, c.version[g]) >= 0)
    ensures preferredFile in files && preferredVer == c.version[preferredFile]
    ensures
      var p := ParsePreferred(preferredV);
      if preferredV == "" || forall g :: g in files ==> !Meets(c, p, g) then preferredFile == latestF
      else
        && Meets(c, p, preferredFile)
        && forall g :: g in files && Meets(c, p, g) ==>
             c.priority[preferredFile] > c.priority[g] ||
             (c.priority[preferredFile] == c.priority[g] && c.preference[preferredFile] >= c.preference[g])
    ensures preferredV != "" && (exists g :: g in files && Meets(c, ParsePreferred(preferredV), g)) ==>
      (Intended(c, preferredV, preferredFile) <==> Plain(preferredV))
    ensures preferredV != "" && Plain(preferredV) && (exists g :: g in files && Intended(c, preferredV, g)) ==>
      Intended(c, preferredV, preferredFile)
    ensures EpochLength(preferredV) > 0 ==> preferredFile == latestF
  {
    hide Intended, Plain, ParsePreferred;
    hide Arranged, AtLeast, Meets, FirstMeeting;
    var sets := SortPriorities(c, files);
    SetsAreKnown(c, files, sets);
    var ver, file := FindPreferredProvider(c, sets, preferredV);
    var v, f := FindLatestProvider(c, sets[0]);
    forall g | g in sets[0] ensures AtLeast(c, f.value, g) {
      AtLeastMeans(c, f.value, g);
    }
    latest, latestF := v.value, f.value;
    forall g | g in files
      ensures
        || c.priority[latestF] > c.priority[g]
        || (c.priority[latestF] == c.priority[g] && c.preference[latestF] > c.preference[g])
        || (c.priority[latestF] == c.priority[g] && c.preference[latestF] == c.preference[g] &&
            Compare(latest, c.version[g]) >= 0)
    {
      FirstSetIsBest(c, files, sets, latestF, g);
      AtLeastMeans(c, latestF, g);
    }
    EveryFileIsInASet(c, files, sets, latestF);
    ghost var p := ParsePreferred(preferredV);
    if file.None? {
      preferredVer, preferredFile := latest, latestF;
      forall g | g in files && preferredV != ""
        ensures !Meets(c, p, g) && (Plain(preferredV) ==> !Intended(c, preferredV, g))
      {
        MetIsIntended(c, preferredV, g);
        EveryFileIsInASet(c, files, sets, g);
      }
    } else {
      preferredVer, preferredFile := ver.value, file.value;
      FirstMeets(c, files, sets, p, preferredFile);
      MetIsIntended(c, preferredV, preferredFile);
      forall g | g in files && Meets(c, p, g)
        ensures Priority(c, preferredFile) > Priority(c, g) ||
                (Priority(c, preferredFile) == Priority(c, g) && Preference(c, preferredFile) >= Preference(c, g))
      {
        FirstIsBest(c, files, sets, p, preferredFile, g);
      }
    }
  }

  lemma FirstMeets(c: DataCache, files: seq<File>, sets: seq<seq<File>>, p: Preferred, f: File)
    requires Arranged(c, files, sets) && FirstMeeting(c, sets, p, f)
    ensures f in files && Meets(c, p, f)
  {
    var i, j :| 0 <= i < |sets| && 0 <= j < |sets[i]| && sets[i][j] == f && Meets(c, p, f);
    EveryFileIsInASet(c, files, sets, f);
  }

  lemma SetsAreKnown(c: DataCache, files: seq<File>, sets: seq<seq<File>>)
    requires c.Knows(files) && files != [] && Arranged(c, files, sets)
    ensures sets != [] && sets[0] != [] && forall s :: s in sets ==> c.Knows(s) && (c.Orders(files) ==> c.Orders(s))
  {
    EveryFileIsInASet(c, files, sets, files[0]);
    assert sets[0] in sets;
    forall s, f | s in sets && f in s ensures f in files {
      var i :| 0 <= i < |sets| && sets[i] == s;
      EveryFileIsInASet(c, files, sets, f);
    }
  }

  lemma FirstSetIsBest(c: DataCache, files: seq<File>, sets: seq<seq<File>>, f: File, g: File)
    requires c.Knows(files) && Arranged(c, files, sets) && sets != [] && c.Knows(sets[0])
    requires f in sets[0] && g in files && forall h :: h in sets[0] ==> AtLeast(c, f, h)
    ensures Best(c, f, g)
  {
    EveryFileIsInASet(c, files, sets, g);
    var i :| 0 <= i < |sets| && g in sets[i];
    SetsFall(c, sets, 0, i, f, g);
  }
}
