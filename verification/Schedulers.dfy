/** The priority maps of RunQueueSchedulerSpeed and RunQueueSchedulerCompletion,
and the choice made by RunQueueScheduler.next. */
module Schedulers {
  import opened Collections
  import opened Graph
  import opened TaskWeights

  /** p lists each of the n tasks exactly once. */
  ghost predicate IsPermutation(p: seq<TaskId>, n: nat) {
    && |p| == n
    && Distinct(p)
    && (forall i :: 0 <= i < n ==> 0 <= p[i] < n)
  }

  lemma PermutationCovers(p: seq<TaskId>, n: nat, t: TaskId)
    requires IsPermutation(p, n) && 0 <= t < n
    ensures t in p
  {
    if t !in p {
      var q := p + [t];
      var i, j := Pigeonhole(q, Below(n));
      assert false;
    }
  }

  // --- list.sort on numbers ---

  function Insert(x: int, s: seq<int>): (r: seq<int>)
    ensures multiset(r) == multiset(s) + multiset{x}
  {
    if s == [] || x <= s[0] then [x] + s
    else
      assert s == [s[0]] + s[1..];
      [s[0]] + Insert(x, s[1..])
  }

  lemma {:induction false} InsertAscending(x: int, s: seq<int>)
    requires Ascending(s)
    ensures Ascending(Insert(x, s))
  {
    if s != [] && x > s[0] {
      var tail := Insert(x, s[1..]);
      InsertAscending(x, s[1..]);
      forall i | 0 <= i < |tail|
        ensures s[0] <= tail[i]
      {
        assert tail[i] in multiset(tail);
        assert tail[i] in multiset(s[1..]) || tail[i] == x;
      }
    }
  }

  function Sort(s: seq<int>): (r: seq<int>)
    ensures multiset(r) == multiset(s) && Ascending(r)
  {
    if s == [] then [] else
      assert s == [s[0]] + s[1..];
      InsertAscending(s[0], Sort(s[1..]));
      Insert(s[0], Sort(s[1..]))
  }

  ghost predicate Ascending(s: seq<int>) {
    forall i, j :: 0 <= i < j < |s| ==> s[i] <= s[j]
  }

  function Reverse<T>(s: seq<T>): (r: seq<T>)
    ensures |r| == |s|
    ensures forall i :: 0 <= i < |s| ==> r[i] == s[|s|-1-i]
  {
    seq(|s|, i requires 0 <= i < |s| => s[|s|-1-i])
  }

  /** Heaviest first; among equal weights the higher task id first. */
  ghost predicate HeaviestFirst(p: seq<TaskId>, weight: seq<int>) {
    && (forall i :: 0 <= i < |p| ==> 0 <= p[i] < |weight|)
    && (forall i, j :: 0 <= i < j < |p| ==>
      weight[p[i]] > weight[p[j]] || (weight[p[i]] == weight[p[j]] && p[i] > p[j]))
  }

  ghost predicate AreTasks(p: seq<TaskId>, n: nat) {
    forall i :: 0 <= i < |p| ==> 0 <= p[i] < n
  }

  /** No task stands in front of a heavier one. */
  ghost predicate WeightsFall(p: seq<TaskId>, weight: seq<int>)
    requires AreTasks(p, |weight|)
  {
    forall i, j :: 0 <= i < j < |p| ==> weight[p[i]] >= weight[p[j]]
  }

  /** The tasks picked so far, lightest first; copy has -1 in their place. */
  ghost predicate Picked(weight: seq<int>, sorted: seq<int>, copy: seq<int>, prio: seq<TaskId>, k: nat) {
    && |copy| == |weight| == |sorted| && k == |prio| <= |sorted|
    && Distinct(prio)
    && (forall i :: 0 <= i < k ==> 0 <= prio[i] < |weight| && weight[prio[i]] == sorted[i])
    && (forall x :: 0 <= x < |weight| ==> copy[x] == if x in prio then -1 else weight[x])
    && (forall i, x :: 0 <= i < k && 0 <= x < |weight| && x !in prio && weight[x] == weight[prio[i]] ==> prio[i] < x)
    && (forall i, j :: 0 <= i < j < k && weight[prio[i]] == weight[prio[j]] ==> prio[i] < prio[j])
  }

  /** Besides k markers, copy holds the weights that sorted still has to offer. */
  ghost predicate Offers(sorted: seq<int>, copy: seq<int>, k: nat)
    requires k <= |sorted|
  {
    multiset(copy) == multiset(sorted[k..]) + multiset{}[-1 := k]
  }

  lemma OfferNext(sorted: seq<int>, copy: seq<int>, k: nat)
    requires k < |sorted| && Offers(sorted, copy, k) && sorted[k] >= 0
    ensures sorted[k] in copy
    ensures Offers(sorted, copy[Position(copy, sorted[k]) := -1], k + 1)
  {
    assert sorted[k..] == [sorted[k]] + sorted[k+1..];
    assert sorted[k] in multiset(copy);
  }

  lemma PickNext(weight: seq<int>, sorted: seq<int>, copy: seq<int>, prio: seq<TaskId>, k: nat)
    requires Picked(weight, sorted, copy, prio, k) && k < |sorted|
    requires sorted[k] in copy && sorted[k] >= 0
    ensures var idx := Position(copy, sorted[k]); Picked(weight, sorted, copy[idx := -1], prio + [idx], k + 1)
  {
    var idx := Position(copy, sorted[k]);
    assert idx !in prio && weight[idx] == sorted[k];
    var prio' := prio + [idx];
    assert forall x :: x in prio' <==> x in prio || x == idx;
    forall x | 0 <= x < |weight| && x !in prio' && weight[x] == weight[idx]
      ensures idx < x
    {
      assert copy[x] == weight[x];
    }
  }

  /** Before the first pick. */
  lemma SortedWeights(weight: seq<int>, sorted: seq<int>)
    requires multiset(sorted) == multiset(weight) && Ascending(sorted)
    requires forall t :: 0 <= t < |weight| ==> weight[t] >= 0
    ensures |sorted| == |weight| && forall k :: 0 <= k < |sorted| ==> sorted[k] >= 0
    ensures Picked(weight, sorted, weight, [], 0) && Offers(sorted, weight, 0)
  {
    assert |sorted| == |multiset(sorted)| == |multiset(weight)| == |weight|;
    forall k | 0 <= k < |sorted| ensures sorted[k] >= 0 {
      assert sorted[k] in multiset(sorted);
      assert sorted[k] in multiset(weight);
    }
    assert sorted[0..] == sorted;
  }

  /** RunQueueSchedulerSpeed.__init__.  The marker -1 is never mistaken for a
      weight because weights are not negative. */
  method SpeedPrioMap(runq_weight: seq<int>) returns (prio_map: seq<TaskId>)
    requires forall t :: 0 <= t < |runq_weight| ==> runq_weight[t] >= 0
    ensures IsPermutation(prio_map, |runq_weight|)
    ensures HeaviestFirst(prio_map, runq_weight)
  {
    var sortweight := Sort(runq_weight);
    var copyweight := runq_weight;
    prio_map := [];
    SortedWeights(runq_weight, sortweight);
    hide Picked, Offers;
    for k := 0 to |sortweight|
      invariant Picked(runq_weight, sortweight, copyweight, prio_map, k)
      invariant Offers(sortweight, copyweight, k)
    {
      assert sortweight[k] in sortweight;
      OfferNext(sortweight, copyweight, k);
      PickNext(runq_weight, sortweight, copyweight, prio_map, k);
      var idx := Position(copyweight, sortweight[k]);
      prio_map := prio_map + [idx];
      copyweight := copyweight[idx := -1];
    }
    ghost var lightestFirst := prio_map;
    prio_map := Reverse(prio_map);
    ReversedIsHeaviestFirst(runq_weight, sortweight, copyweight, lightestFirst);
  }

  lemma ReversedIsHeaviestFirst(weight: seq<int>, sorted: seq<int>, copy: seq<int>, prio: seq<TaskId>)
    requires Picked(weight, sorted, copy, prio, |sorted|) && Ascending(sorted)
    ensures IsPermutation(Reverse(prio), |weight|) && HeaviestFirst(Reverse(prio), weight)
  {
    var r, n := Reverse(prio), |prio|;
    forall i, j | 0 <= i < j < n
      ensures r[i] != r[j]
      ensures weight[r[i]] > weight[r[j]] || (weight[r[i]] == weight[r[j]] && r[i] > r[j])
    {
      assert r[i] == prio[n-1-i] && r[j] == prio[n-1-j];
    }
  }

  // --- grouping by file ---

  /** runq_fnid[t] for the tasks of the queue. */
  function FileOf(fnid: seq<int>, t: TaskId): int {
    if 0 <= t < |fnid| then fnid[t] else -1
  }

  /** The entries of s that belong (keep) or do not belong (!keep) to file f, in order. */
  function OfFile(s: seq<TaskId>, fnid: seq<int>, f: int, keep: bool): (r: seq<TaskId>)
    ensures |r| <= |s|
  {
    if s == [] then []
    else
      var tail := OfFile(s[1..], fnid, f, keep);
      if (FileOf(fnid, s[0]) == f) == keep then [s[0]] + tail else tail
  }

  lemma {:induction false} OfFileMembers(s: seq<TaskId>, fnid: seq<int>, f: int, keep: bool, t: TaskId)
    ensures t in OfFile(s, fnid, f, keep) <==> t in s && (FileOf(fnid, t) == f) == keep
  {
    if s != [] {
      OfFileMembers(s[1..], fnid, f, keep, t);
    }
  }

  lemma {:induction false} OfFileConcat(a: seq<TaskId>, b: seq<TaskId>, fnid: seq<int>, f: int, keep: bool)
    ensures OfFile(a + b, fnid, f, keep) == OfFile(a, fnid, f, keep) + OfFile(b, fnid, f, keep)
  {
    if a == [] {
      assert a + b == b;
    } else {
      assert (a + b)[1..] == a[1..] + b;
      OfFileConcat(a[1..], b, fnid, f, keep);
    }
  }

  lemma {:induction false} OfFileSplits(s: seq<TaskId>, fnid: seq<int>, f: int)
    ensures multiset(s) == multiset(OfFile(s, fnid, f, true)) + multiset(OfFile(s, fnid, f, false))
  {
    if s != [] {
      assert s == [s[0]] + s[1..];
      OfFileSplits(s[1..], fnid, f);
    }
  }

  /** Each file's entries in a block, blocks in the order the files first appear. */
  function GroupByFile(s: seq<TaskId>, fnid: seq<int>): (r: seq<TaskId>)
    decreases |s|
  {
    if s == [] then []
    else
      var f := FileOf(fnid, s[0]);
      var others := OfFile(s[1..], fnid, f, false);
      [s[0]] + OfFile(s[1..], fnid, f, true) + GroupByFile(others, fnid)
  }

  lemma {:induction false} GroupIsPermutation(s: seq<TaskId>, fnid: seq<int>)
    ensures multiset(GroupByFile(s, fnid)) == multiset(s)
    decreases |s|
  {
    if s != [] {
      var f := FileOf(fnid, s[0]);
      assert s == [s[0]] + s[1..];
      OfFileSplits(s[1..], fnid, f);
      GroupIsPermutation(OfFile(s[1..], fnid, f, false), fnid);
    }
  }

  lemma PositionInThree(a: TaskId, b: seq<TaskId>, c: seq<TaskId>, x: nat)
    requires x < |[a] + b + c|
    ensures x == 0 ==> ([a] + b + c)[x] == a
    ensures 0 < x <= |b| ==> ([a] + b + c)[x] == b[x-1] && b[x-1] in b
    ensures x > |b| ==> ([a] + b + c)[x] == c[x-1-|b|] && c[x-1-|b|] in c
  {
  }

  lemma GroupHasTheSame(s: seq<TaskId>, fnid: seq<int>, t: TaskId)
    requires t in GroupByFile(s, fnid)
    ensures t in s
  {
    GroupIsPermutation(s, fnid);
    assert t in multiset(GroupByFile(s, fnid));
  }

  lemma GroupUnfolds(s: seq<TaskId>, fnid: seq<int>)
    requires s != []
    ensures var f := FileOf(fnid, s[0]);
      GroupByFile(s, fnid) ==
      [s[0]] + OfFile(s[1..], fnid, f, true) + GroupByFile(OfFile(s[1..], fnid, f, false), fnid)
  {
  }

  /** The first block holds exactly the tasks of the first file. */
  lemma GroupStarts(s: seq<TaskId>, fnid: seq<int>, x: nat)
    requires s != [] && x < |GroupByFile(s, fnid)|
    ensures var f := FileOf(fnid, s[0]);
      var n := 1 + |OfFile(s[1..], fnid, f, true)|;
      var others := OfFile(s[1..], fnid, f, false);
      && (FileOf(fnid, GroupByFile(s, fnid)[x]) == f <==> x < n)
      && |GroupByFile(s, fnid)| == n + |GroupByFile(others, fnid)|
      && (x >= n ==> GroupByFile(s, fnid)[x] == GroupByFile(others, fnid)[x-n])
  {
    hide GroupByFile, OfFile, FileOf;
    GroupUnfolds(s, fnid);
    var f := FileOf(fnid, s[0]);
    var same, others := OfFile(s[1..], fnid, f, true), OfFile(s[1..], fnid, f, false);
    var rest := GroupByFile(others, fnid);
    PositionInThree(s[0], same, rest, x);
    if 0 < x <= |same| {
      OfFileMembers(s[1..], fnid, f, true, same[x-1]);
    } else if x > |same| {
      var t := rest[x-1-|same|];
      GroupHasTheSame(others, fnid, t);
      OfFileMembers(s[1..], fnid, f, false, t);
    }
  }

  /** The tasks of one file stand next to each other. */
  lemma {:induction false} GroupIsContiguous(s: seq<TaskId>, fnid: seq<int>, i: nat, j: nat, k: nat)
    requires i <= j <= k < |GroupByFile(s, fnid)|
    requires FileOf(fnid, GroupByFile(s, fnid)[i]) == FileOf(fnid, GroupByFile(s, fnid)[k])
    ensures FileOf(fnid, GroupByFile(s, fnid)[j]) == FileOf(fnid, GroupByFile(s, fnid)[i])
    decreases |s|
  {
    GroupStarts(s, fnid, i);
    GroupStarts(s, fnid, j);
    GroupStarts(s, fnid, k);
    var f := FileOf(fnid, s[0]);
    var n := 1 + |OfFile(s[1..], fnid, f, true)|;
    if i >= n {
      hide GroupByFile;
      GroupIsContiguous(OfFile(s[1..], fnid, f, false), fnid, i - n, j - n, k - n);
    }
  }

  /** Between two tasks of one file there are only tasks of that file. */
  ghost predicate FilesStayTogether(p: seq<TaskId>, fnid: seq<int>)
    requires AreTasks(p, |fnid|)
  {
    forall i, j, k :: 0 <= i < j < k < |p| && fnid[p[i]] == fnid[p[k]] ==> fnid[p[j]] == fnid[p[i]]
  }

  /** Within a file no task stands in front of a heavier one, and a task of one file in
      front of one of another is of a file that has something at least as heavy to offer. */
  ghost predicate HeavyFilesFirst(p: seq<TaskId>, fnid: seq<int>, weight: seq<int>)
    requires AreTasks(p, |fnid|) && AreTasks(p, |weight|)
  {
    forall i, j :: 0 <= i < j < |p| ==>
      && (fnid[p[i]] == fnid[p[j]] ==> weight[p[i]] >= weight[p[j]])
      && exists k :: 0 <= k <= i && fnid[p[k]] == fnid[p[i]] && weight[p[k]] >= weight[p[j]]
  }

  lemma GroupAreTasks(s: seq<TaskId>, fnid: seq<int>, n: nat)
    requires AreTasks(s, n)
    ensures AreTasks(GroupByFile(s, fnid), n)
  {
    var r := GroupByFile(s, fnid);
    forall i | 0 <= i < |r| ensures 0 <= r[i] < n {
      GroupHasTheSame(s, fnid, r[i]);
    }
  }

  lemma GroupsStayTogether(s: seq<TaskId>, fnid: seq<int>)
    requires AreTasks(s, |fnid|)
    ensures AreTasks(GroupByFile(s, fnid), |fnid|) && FilesStayTogether(GroupByFile(s, fnid), fnid)
  {
    GroupAreTasks(s, fnid, |fnid|);
    var r := GroupByFile(s, fnid);
    forall i, j, k | 0 <= i < j < k < |r| && fnid[r[i]] == fnid[r[k]] ensures fnid[r[j]] == fnid[r[i]] {
      GroupIsContiguous(s, fnid, i, j, k);
    }
  }

  lemma {:induction false} OfFileFalls(s: seq<TaskId>, fnid: seq<int>, f: int, keep: bool, weight: seq<int>)
    requires AreTasks(s, |weight|) && WeightsFall(s, weight)
    ensures AreTasks(OfFile(s, fnid, f, keep), |weight|) && WeightsFall(OfFile(s, fnid, f, keep), weight)
  {
    if s != [] {
      OfFileFalls(s[1..], fnid, f, keep, weight);
      var tail := OfFile(s[1..], fnid, f, keep);
      forall i | 0 <= i < |tail| ensures weight[s[0]] >= weight[tail[i]] {
        OfFileMembers(s[1..], fnid, f, keep, tail[i]);
      }
    }
  }

  /** Any two tasks of the groups, in order. */
  lemma {:induction false} GroupPair(s: seq<TaskId>, fnid: seq<int>, weight: seq<int>, i: nat, j: nat)
    requires AreTasks(s, |fnid|) && AreTasks(s, |weight|) && WeightsFall(s, weight)
    requires i < j < |GroupByFile(s, fnid)|
    ensures
      var r := GroupByFile(s, fnid);
      && AreTasks(r, |fnid|) && AreTasks(r, |weight|)
      && (fnid[r[i]] == fnid[r[j]] ==> weight[r[i]] >= weight[r[j]])
      && exists k :: 0 <= k <= i && fnid[r[k]] == fnid[r[i]] && weight[r[k]] >= weight[r[j]]
    decreases |s|
  {
    var r := GroupByFile(s, fnid);
    GroupAreTasks(s, fnid, |fnid|);
    GroupAreTasks(s, fnid, |weight|);
    GroupStarts(s, fnid, 0);
    GroupStarts(s, fnid, i);
    GroupStarts(s, fnid, j);
    var f := FileOf(fnid, s[0]);
    var same, others := OfFile(s[1..], fnid, f, true), OfFile(s[1..], fnid, f, false);
    var n := 1 + |same|;
    if i >= n {
      OfFileFalls(s[1..], fnid, f, false, weight);
      OthersAreTasks(s, fnid, f, |fnid|);
      hide GroupByFile, OfFile, WeightsFall;
      GroupPair(others, fnid, weight, i - n, j - n);
      var rest := GroupByFile(others, fnid);
      var k :| 0 <= k <= i - n && fnid[rest[k]] == fnid[rest[i-n]] && weight[rest[k]] >= weight[rest[j-n]];
      GroupStarts(s, fnid, k + n);
    } else {
      FirstBlockFalls(s, fnid, weight, i, j);
    }
  }

  lemma OthersAreTasks(s: seq<TaskId>, fnid: seq<int>, f: int, n: nat)
    requires s != [] && AreTasks(s, n)
    ensures AreTasks(OfFile(s[1..], fnid, f, false), n)
  {
    var r := OfFile(s[1..], fnid, f, false);
    forall i | 0 <= i < |r| ensures 0 <= r[i] < n {
      OfFileMembers(s[1..], fnid, f, false, r[i]);
    }
  }

  /** The first block of the groups begins with the heaviest task, and falls. */
  lemma FirstBlockFalls(s: seq<TaskId>, fnid: seq<int>, weight: seq<int>, i: nat, j: nat)
    requires s != [] && AreTasks(s, |weight|) && WeightsFall(s, weight) && i < j < |GroupByFile(s, fnid)|
    requires i < 1 + |OfFile(s[1..], fnid, FileOf(fnid, s[0]), true)|
    ensures
      var r := GroupByFile(s, fnid);
      && AreTasks(r, |weight|) && weight[r[0]] >= weight[r[j]]
      && (FileOf(fnid, r[i]) == FileOf(fnid, r[j]) ==> weight[r[i]] >= weight[r[j]])
  {
    var r := GroupByFile(s, fnid);
    GroupAreTasks(s, fnid, |weight|);
    GroupHasTheSame(s, fnid, r[j]);
    GroupUnfolds(s, fnid);
    var f := FileOf(fnid, s[0]);
    var same, rest := OfFile(s[1..], fnid, f, true), GroupByFile(OfFile(s[1..], fnid, f, false), fnid);
    OfFileFalls(s[1..], fnid, f, true, weight);
    GroupStarts(s, fnid, i);
    GroupStarts(s, fnid, j);
    hide GroupByFile, OfFile, FileOf;
    PositionInThree(s[0], same, rest, i);
    PositionInThree(s[0], same, rest, j);
  }

  lemma GroupsByHeaviest(s: seq<TaskId>, fnid: seq<int>, weight: seq<int>)
    requires AreTasks(s, |fnid|) && AreTasks(s, |weight|) && WeightsFall(s, weight)
    ensures AreTasks(GroupByFile(s, fnid), |fnid|) && AreTasks(GroupByFile(s, fnid), |weight|)
    ensures HeavyFilesFirst(GroupByFile(s, fnid), fnid, weight)
  {
    GroupAreTasks(s, fnid, |fnid|);
    GroupAreTasks(s, fnid, |weight|);
    var r := GroupByFile(s, fnid);
    forall i, j | 0 <= i < j < |r|
      ensures fnid[r[i]] == fnid[r[j]] ==> weight[r[i]] >= weight[r[j]]
      ensures exists k :: 0 <= k <= i && fnid[r[k]] == fnid[r[i]] && weight[r[k]] >= weight[r[j]]
    {
      GroupPair(s, fnid, weight, i, j);
    }
  }

  lemma {:induction false} OfFileTwice(s: seq<TaskId>, fnid: seq<int>, f: int, h: int)
    ensures OfFile(OfFile(s, fnid, f, true), fnid, h, true) == if f == h then OfFile(s, fnid, h, true) else []
    ensures f != h ==> OfFile(OfFile(s, fnid, f, false), fnid, h, true) == OfFile(s, fnid, h, true)
    ensures OfFile(OfFile(s, fnid, f, false), fnid, f, true) == []
  {
    if s != [] {
      OfFileTwice(s[1..], fnid, f, h);
    }
  }

  /** Within each file the order of s is kept. */
  lemma {:induction false} GroupIsStable(s: seq<TaskId>, fnid: seq<int>, h: int)
    ensures OfFile(GroupByFile(s, fnid), fnid, h, true) == OfFile(s, fnid, h, true)
    decreases |s|
  {
    if s != [] {
      var f := FileOf(fnid, s[0]);
      var same := OfFile(s[1..], fnid, f, true);
      var others := OfFile(s[1..], fnid, f, false);
      var rest := GroupByFile(others, fnid);
      GroupIsStable(others, fnid, h);
      OfFileTwice(s[1..], fnid, f, h);
      OfFileConcat([s[0]] + same, rest, fnid, h, true);
      OfFileConcat([s[0]], same, fnid, h, true);
      OfFileConcat([s[0]], s[1..], fnid, h, true);
      assert [s[0]] + s[1..] == s;
    }
  }

  lemma {:induction false} NoneOfFile(s: seq<TaskId>, fnid: seq<int>, f: int)
    requires forall i :: 0 <= i < |s| ==> FileOf(fnid, s[i]) != f
    ensures OfFile(s, fnid, f, true) == [] && OfFile(s, fnid, f, false) == s
  {
    if s != [] {
      NoneOfFile(s[1..], fnid, f);
    }
  }

  lemma DistinctGroups(s: seq<TaskId>, r: seq<TaskId>)
    requires Distinct(s) && multiset(s) == multiset(r)
    ensures Distinct(r) && |r| == |s|
  {
    assert |multiset(s)| == |s| && |multiset(r)| == |r|;
    forall i, j | 0 <= i < j < |r|
      ensures r[i] != r[j]
    {
      if r[i] == r[j] {
        TwiceInMultiset(r, i, j);
        OnceInMultiset(s, r[i]);
        assert false;
      }
    }
  }

  lemma TwiceInMultiset(s: seq<TaskId>, i: nat, j: nat)
    requires i < j < |s| && s[i] == s[j]
    ensures multiset(s)[s[i]] >= 2
  {
    assert s == s[..j] + s[j..];
    assert s[i] in s[..j] && s[j] in s[j..];
    assert s[..j][i] == s[i] && s[j..][0] == s[j];
  }

  lemma {:induction false} OnceInMultiset(s: seq<TaskId>, x: TaskId)
    requires Distinct(s)
    ensures multiset(s)[x] <= 1
  {
    if s != [] {
      assert s == [s[0]] + s[1..];
      assert s[0] !in s[1..];
      OnceInMultiset(s[1..], x);
    }
  }

  /** todel holds, in ascending order, the positions below n of the file's entries. */
  ghost predicate Positions(basemap: seq<TaskId>, fnid: seq<int>, f: int, todel: seq<int>, n: nat) {
    && n <= |basemap|
    && (forall k :: 0 <= k < |todel| ==> 0 <= todel[k] < n && FileOf(fnid, basemap[todel[k]]) == f)
    && (forall k, l :: 0 <= k < l < |todel| ==> todel[k] < todel[l])
    && (forall x :: 0 <= x < n && FileOf(fnid, basemap[x]) == f ==> x in todel)
  }

  lemma PositionsNext(basemap: seq<TaskId>, fnid: seq<int>, f: int, todel: seq<int>, n: nat)
    requires Positions(basemap, fnid, f, todel, n) && n < |basemap|
    ensures FileOf(fnid, basemap[n]) == f ==> Positions(basemap, fnid, f, todel + [n], n + 1)
    ensures FileOf(fnid, basemap[n]) != f ==> Positions(basemap, fnid, f, todel, n + 1)
    ensures
      OfFile(basemap[..n+1], fnid, f, true) ==
      OfFile(basemap[..n], fnid, f, true) + if FileOf(fnid, basemap[n]) == f then [basemap[n]] else []
  {
    assert basemap[..n+1] == basemap[..n] + [basemap[n]];
    OfFileConcat(basemap[..n], [basemap[n]], fnid, f, true);
  }

  /** Deleting the last listed position leaves the entries of other files in the tail. */
  lemma DeleteLast(basemap: seq<TaskId>, fnid: seq<int>, f: int, todel: seq<int>, m: nat, now: seq<TaskId>)
    requires Positions(basemap, fnid, f, todel, m) && |todel| > 0
    requires now == basemap[..m] + OfFile(basemap[m..], fnid, f, false)
    ensures var idx := todel[|todel|-1];
      && 0 <= idx < m && idx < |now|
      && Positions(basemap, fnid, f, todel[..|todel|-1], idx)
      && now[..idx] + now[idx+1..] == basemap[..idx] + OfFile(basemap[idx..], fnid, f, false)
  {
    var idx := todel[|todel|-1];
    forall x | 0 <= x < m && FileOf(fnid, basemap[x]) == f
      ensures x == idx || x in todel[..|todel|-1]
      ensures x <= idx
    {
      var k :| 0 <= k < |todel| && todel[k] == x;
      assert k < |todel| - 1 ==> x == todel[..|todel|-1][k];
    }
    TailWithout(basemap, fnid, f, idx, m);
    hide OfFile;
    assert now[..idx] == basemap[..idx];
    assert now[idx+1..] == basemap[idx+1..m] + OfFile(basemap[m..], fnid, f, false);
  }

  lemma TailWithout(basemap: seq<TaskId>, fnid: seq<int>, f: int, idx: nat, m: nat)
    requires idx < m <= |basemap| && FileOf(fnid, basemap[idx]) == f
    requires forall x :: idx < x < m ==> FileOf(fnid, basemap[x]) != f
    ensures OfFile(basemap[idx..], fnid, f, false) == basemap[idx+1..m] + OfFile(basemap[m..], fnid, f, false)
  {
    var between := basemap[idx+1..m];
    assert basemap[idx..][1..] == between + basemap[m..];
    assert OfFile(basemap[idx..], fnid, f, false) == OfFile(between + basemap[m..], fnid, f, false);
    NoneOfFile(between, fnid, f);
    OfFileConcat(between, basemap[m..], fnid, f, false);
  }

  lemma NothingToDelete(basemap: seq<TaskId>, fnid: seq<int>, f: int, m: nat)
    requires Positions(basemap, fnid, f, [], m)
    ensures basemap[..m] + OfFile(basemap[m..], fnid, f, false) == OfFile(basemap, fnid, f, false)
  {
    NoneOfFile(basemap[..m], fnid, f);
    OfFileConcat(basemap[..m], basemap[m..], fnid, f, false);
    assert basemap[..m] + basemap[m..] == basemap;
  }

  lemma NothingTaken(basemap: seq<TaskId>, fnid: seq<int>, f: int)
    ensures OfFile(basemap[..0], fnid, f, true) == [] && Positions(basemap, fnid, f, [], 0)
    ensures OfFile(basemap[|basemap|..], fnid, f, false) == []
  {
  }

  /** The inner loops of RunQueueSchedulerCompletion.__init__: append the
      entries of the file to prio_map and delete them from basemap by position. */
  method TakeFile(basemap0: seq<TaskId>, prio_map0: seq<TaskId>, runq_fnid: seq<int>, fnid: int)
    returns (basemap: seq<TaskId>, prio_map: seq<TaskId>)
    requires Distinct(basemap0) && Elements(basemap0) <= Below(|runq_fnid|)
    ensures prio_map == prio_map0 + OfFile(basemap0, runq_fnid, fnid, true)
    ensures basemap == OfFile(basemap0, runq_fnid, fnid, false)
  {
    NothingTaken(basemap0, runq_fnid, fnid);
    hide OfFile, Positions;
    basemap, prio_map := basemap0, prio_map0;
    var todel: seq<int> := [];
    for i := 0 to |basemap|
      invariant prio_map == prio_map0 + OfFile(basemap0[..i], runq_fnid, fnid, true)
      invariant Positions(basemap0, runq_fnid, fnid, todel, i)
    {
      var entry := basemap[i];
      assert entry in Elements(basemap0);
      PositionsNext(basemap0, runq_fnid, fnid, todel, i);
      if runq_fnid[entry] == fnid {
        var at := Position(basemap, entry);
        assert at == i;
        todel := todel + [at];
        prio_map := prio_map + [entry];
      }
    }
    assert basemap0[..|basemap0|] == basemap0;
    ghost var m: nat := |basemap0|;
    while todel != []
      invariant m <= |basemap0| && Positions(basemap0, runq_fnid, fnid, todel, m)
      invariant basemap == basemap0[..m] + OfFile(basemap0[m..], runq_fnid, fnid, false)
      decreases |todel|
    {
      DeleteLast(basemap0, runq_fnid, fnid, todel, m, basemap);
      var idx := todel[|todel|-1];
      basemap := basemap[..idx] + basemap[idx+1..];
      todel := todel[..|todel|-1];
      m := idx;
    }
    NothingToDelete(basemap0, runq_fnid, fnid, m);
  }

  lemma GroupedPermutation(speed: seq<TaskId>, fnid: seq<int>)
    requires IsPermutation(speed, |fnid|)
    ensures IsPermutation(GroupByFile(speed, fnid), |fnid|)
  {
    var r := GroupByFile(speed, fnid);
    GroupIsPermutation(speed, fnid);
    DistinctGroups(speed, r);
    forall i | 0 <= i < |r| ensures 0 <= r[i] < |fnid| {
      assert r[i] in multiset(r);
      assert r[i] in multiset(speed);
    }
  }

  lemma GroupStep(basemap: seq<TaskId>, fnid: seq<int>)
    requires basemap != [] && Distinct(basemap)
    ensures var f := FileOf(fnid, basemap[0]);
      var others := OfFile(basemap[1..], fnid, f, false);
      && GroupByFile(basemap, fnid) == [basemap[0]] + OfFile(basemap[1..], fnid, f, true) + GroupByFile(others, fnid)
      && |others| < |basemap| && Distinct(basemap[1..]) && Distinct(others)
      && Elements(basemap[1..]) <= Elements(basemap) && Elements(others) <= Elements(basemap)
      && basemap[0] in Elements(basemap)
  {
    var f := FileOf(fnid, basemap[0]);
    DistinctFilter(basemap[1..], fnid, f);
    forall t | t in OfFile(basemap[1..], fnid, f, false) ensures t in basemap {
      OfFileMembers(basemap[1..], fnid, f, false, t);
    }
  }

  lemma Regrouped(done: seq<TaskId>, entry: TaskId, same: seq<TaskId>, rest: seq<TaskId>)
    ensures done + ([entry] + same + rest) == done + [entry] + same + rest
  {
  }

  /** RunQueueSchedulerCompletion.__init__ after the speed map has been made. */
  method CompletionPrioMap(speed: seq<TaskId>, runq_fnid: seq<int>) returns (prio_map: seq<TaskId>)
    requires IsPermutation(speed, |runq_fnid|)
    ensures prio_map == GroupByFile(speed, runq_fnid)
    ensures IsPermutation(prio_map, |runq_fnid|)
  {
    var basemap := speed;
    prio_map := [];
    assert [] + GroupByFile(speed, runq_fnid) == GroupByFile(speed, runq_fnid);
    while |basemap| > 0
      invariant Distinct(basemap) && Elements(basemap) <= Below(|runq_fnid|)
      invariant prio_map + GroupByFile(basemap, runq_fnid) == GroupByFile(speed, runq_fnid)
      decreases |basemap|
    {
      hide GroupByFile, OfFile, Distinct, IsPermutation;
      GroupStep(basemap, runq_fnid);
      var entry := basemap[0];
      ghost var f := FileOf(runq_fnid, entry);
      ghost var same, others := OfFile(basemap[1..], runq_fnid, f, true), OfFile(basemap[1..], runq_fnid, f, false);
      Regrouped(prio_map, entry, same, GroupByFile(others, runq_fnid));
      basemap, prio_map := TakeFile(basemap[1..], prio_map + [entry], runq_fnid, runq_fnid[entry]);
    }
    assert prio_map == prio_map + GroupByFile(basemap, runq_fnid);
    GroupedPermutation(speed, runq_fnid);
  }

  lemma {:induction false} DistinctFilter(s: seq<TaskId>, fnid: seq<int>, f: int)
    requires Distinct(s)
    ensures Distinct(OfFile(s, fnid, f, false))
  {
    if s != [] {
      DistinctFilter(s[1..], fnid, f);
      OfFileMembers(s[1..], fnid, f, false, s[0]);
    }
  }

  datatype Choice = NoTask | Task(id: TaskId)

  /** RunQueueScheduler.next: the first task of the map that is buildable and not running. */
  method Next(prio_map: seq<TaskId>, runq_running: seq<bool>, runq_buildable: seq<bool>) returns (c: Choice)
    requires |runq_running| == |runq_buildable| && IsPermutation(prio_map, |runq_running|)
    ensures c.NoTask? <==> forall t :: 0 <= t < |runq_running| ==> !(runq_buildable[t] && !runq_running[t])
    ensures c.Task? ==> exists k ::
      && 0 <= k < |prio_map| && c.id == prio_map[k] && 0 <= c.id < |runq_running|
      && runq_buildable[c.id] && !runq_running[c.id]
      && forall i :: 0 <= i < k ==> !(runq_buildable[prio_map[i]] && !runq_running[prio_map[i]])
  {
    for task1 := 0 to |prio_map|
      invariant forall i :: 0 <= i < task1 ==> !(runq_buildable[prio_map[i]] && !runq_running[prio_map[i]])
    {
      var task := prio_map[task1];
      if runq_running[task] {
        continue;
      }
      if runq_buildable[task] {
        return Task(task);
      }
    }
    forall t | 0 <= t < |runq_running|
      ensures !(runq_buildable[t] && !runq_running[t])
    {
      PermutationCovers(prio_map, |runq_running|, t);
    }
    return NoTask;
  }

  /** With the speed map, the task next returns has the largest weight of all ready tasks. */
  lemma NextIsHeaviest(prio_map: seq<TaskId>, weight: seq<int>, ready: set<TaskId>, k: nat, t: TaskId)
    requires IsPermutation(prio_map, |weight|) && HeaviestFirst(prio_map, weight)
    requires k < |prio_map| && forall i :: 0 <= i < k ==> prio_map[i] !in ready
    requires t in ready && 0 <= t < |weight|
    ensures weight[prio_map[k]] >= weight[t]
  {
    PermutationCovers(prio_map, |weight|, t);
    var j :| 0 <= j < |prio_map| && prio_map[j] == t;
  }
}
