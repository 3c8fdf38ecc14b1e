/** Which variables have an expansion at all.

References that never lead back are not enough: expansion rescans its own result, and
braces from different values can combine to new references for ever.  They are enough
if no closing brace of a value that is looked up is left to close something else. */
module AcyclicStores {
  import opened Expansion

  /** The names that one pass over s looks up. */
  function Keys(s: string): set<string> {
    if s == "" then {}
    else
      var n := Reference(s);
      if n == 0 then Keys(s[1..]) else {s[2..n-1]} + Keys(s[n..])
  }

  /** After n passes s has become now. */
  ghost predicate Reached(raw: Values, s: string, varname: string, n: nat, now: string) {
    if n == 0 then now == s
    else exists mid :: Reached(raw, s, varname, n - 1, mid) && Substitutes(raw, mid, varname, Text(now))
  }

  /** The expansion of v looks up key, in its value or in what that becomes. */
  ghost predicate LooksUp(raw: Values, v: string, key: string) {
    v in raw && exists n: nat, now :: Reached(raw, raw[v], v, n, now) && key in Keys(now)
  }

  /** References to other variables lead down. */
  ghost predicate Falls(raw: Values, rank: string -> nat) {
    forall v, key :: LooksUp(raw, v, key) && key in raw && key != v ==> rank(key) < rank(v)
  }

  /** The closing braces of s, without those of references to undefined variables. */
  function Loose(raw: Values, s: string): nat {
    if s == "" then 0
    else
      var n := Reference(s);
      if n == 0 then (if s[0] == '}' then 1 else 0) + Loose(raw, s[1..])
      else (if s[2..n-1] in raw then 1 else 0) + Loose(raw, s[n..])
  }

  /** The expansions that are put into other texts have no loose closing brace. */
  ghost predicate Tight(raw: Values) {
    forall v, key, t :: LooksUp(raw, v, key) && key != v && Gets(raw, key, Text(t)) ==> Loose(raw, t) == 0
  }

  ghost predicate HasAnswer(raw: Values, key: string) {
    exists a :: Gets(raw, key, a)
  }

  // --- a store with an answer for everything ---

  /** One pass comes to an end if the names it looks up have answers. */
  lemma {:induction false} PassEnds(raw: Values, s: string, varname: string)
    requires forall key :: key in Keys(s) && key != varname ==> HasAnswer(raw, key)
    ensures exists b :: Substitutes(raw, s, varname, b)
    decreases |s|
  {
    if s == "" {
      assert Substitute(raw, s, varname, 0) == Text("");
      assert Substitutes(raw, s, varname, Text(""));
      return;
    }
    var n := Reference(s);
    if n == 0 {
      PassEnds(raw, s[1..], varname);
      var b :| Substitutes(raw, s[1..], varname, b);
      var k: nat :| Substitute(raw, s[1..], varname, k) == b;
      assert Substitute(raw, s, varname, k) == Prepend(s[..1], b);
      assert Substitutes(raw, s, varname, Prepend(s[..1], b));
      return;
    }
    var key := s[2..n-1];
    if key == varname {
      assert Substitute(raw, s, varname, 0) == SelfReference;
      assert Substitutes(raw, s, varname, SelfReference);
      return;
    }
    assert key in Keys(s) && HasAnswer(raw, key);
    var a :| Gets(raw, key, a);
    var k: nat :| GetVar(raw, key, k) == a;
    if !a.Undefined? && !a.Text? {
      assert Substitute(raw, s, varname, k) == a;
      assert Substitutes(raw, s, varname, a);
      return;
    }
    PassEnds(raw, s[n..], varname);
    var b :| Substitutes(raw, s[n..], varname, b);
    var l: nat :| Substitute(raw, s[n..], varname, l) == b;
    var m := Max(k, l);
    MoreFuelGetVar(raw, key, k, m);
    MoreFuelSubstitute(raw, s[n..], varname, l, m);
    var piece := Replacement(s[..n], a);
    assert Substitute(raw, s, varname, m) == Prepend(piece, b);
    assert Substitutes(raw, s, varname, Prepend(piece, b));
  }

  /** Text without braces and then a closing brace. */
  lemma {:induction false} LooseRun(raw: Values, s: string, n: nat)
    requires n < |s| && s[n] == '}' && forall i :: 0 <= i < n ==> s[i] != '{' && s[i] != '}'
    ensures Loose(raw, s) == 1 + Loose(raw, s[n+1..])
  {
    if n > 0 {
      assert |s| >= 2 ==> s[1] != '{';
      LooseRun(raw, s[1..], n - 1);
      assert s[1..][n..] == s[n+1..];
    }
  }

  lemma {:induction false} NameLengthAt(s: string, n: nat)
    requires n < |s| && (s[n] == '{' || s[n] == '}') && forall i :: 0 <= i < n ==> s[i] != '{' && s[i] != '}'
    ensures NameLength(s) == n
  {
    if n > 0 {
      NameLengthAt(s[1..], n - 1);
    }
  }

  /** A reference is decided by the text up to its end. */
  lemma ReferenceStays(x: string, y: string)
    requires Reference(x) > 0
    ensures Reference(x + y) == Reference(x) && (x + y)[2..Reference(x)-1] == x[2..Reference(x)-1]
  {
    var n := Reference(x) - 3;
    NameLengthAt((x + y)[2..], n);
  }

  lemma ReferenceWithin(x: string, y: string)
    requires 0 < Reference(x + y) <= |x|
    ensures Reference(x) > 0
  {
    var s, n := x + y, Reference(x + y);
    assert forall i :: 0 <= i <= n - 3 ==> x[2..][i] == s[2..][i];
    NameLengthAt(x[2..], n - 3);
  }

  lemma ReferenceSpells(s: string)
    requires Reference(s) > 0
    ensures s[1] == '{' && s[Reference(s)-1] == '}'
    ensures forall i :: 0 <= i < Reference(s) - 1 && i != 1 ==> s[i] != '{' && s[i] != '}'
  {
    assert forall i :: 2 <= i < Reference(s) - 1 ==> s[i] == s[2..][i-2];
  }

  /** A reference that starts in x and ends in y. */
  lemma LooseAcross(raw: Values, x: string, y: string)
    requires x != "" && Reference(x) == 0 && Reference(x + y) > 0
    ensures Reference(x + y) > |x| && Loose(raw, y) == 1 + Loose(raw, (x + y)[Reference(x + y)..])
  {
    hide Loose, Reference, NameLength;
    var s, n := x + y, Reference(x + y);
    if n <= |x| {
      ReferenceWithin(x, y);
    }
    ReferenceSpells(s);
    var at := n - 1 - |x|;
    assert forall i :: 0 <= i < |y| ==> y[i] == s[|x| + i];
    if |x| == 1 {
      LooseAfterOpening(raw, y, at);
    } else {
      LooseRun(raw, y, at);
    }
    assert y[at+1..] == s[n..];
  }

  /** Joining texts makes no more closing braces loose. */
  lemma {:induction false} LooseJoins(raw: Values, x: string, y: string)
    ensures Loose(raw, x + y) <= Loose(raw, x) + Loose(raw, y)
    decreases |x|
  {
    hide Reference;
    if x == "" {
      assert x + y == y;
    } else if Reference(x) > 0 {
      ReferenceStays(x, y);
      assert (x + y)[Reference(x)..] == x[Reference(x)..] + y;
      LooseJoins(raw, x[Reference(x)..], y);
    } else if Reference(x + y) == 0 {
      assert (x + y)[1..] == x[1..] + y;
      LooseJoins(raw, x[1..], y);
    } else {
      LooseAcross(raw, x, y);
    }
  }

  /** The same with the opening brace of the reference in front. */
  lemma LooseAfterOpening(raw: Values, s: string, n: nat)
    requires 0 < n < |s| && s[0] == '{' && s[n] == '}' && forall i :: 1 <= i < n ==> s[i] != '{' && s[i] != '}'
    ensures Loose(raw, s) == 1 + Loose(raw, s[n+1..])
  {
    assert Reference(s) == 0;
    LooseRun(raw, s[1..], n - 1);
    assert s[1..][n..] == s[n+1..];
  }

  lemma LooseReference(raw: Values, s: string)
    requires Reference(s) > 0 && s[2..Reference(s)-1] !in raw
    ensures Loose(raw, s[..Reference(s)]) == 0
  {
    var n := Reference(s);
    var r := s[..n];
    assert forall i :: 0 <= i <= n - 3 ==> r[2..][i] == s[2..][i];
    NameLengthAt(r[2..], n - 3);
    assert r[2..n-1] == s[2..n-1] && r[n..] == "";
  }

  lemma LooseCharacter(raw: Values, s: string)
    requires s != "" && Reference(s) == 0
    ensures Loose(raw, s) == Loose(raw, s[..1]) + Loose(raw, s[1..])
  {
    assert s[..1][1..] == "";
  }

  /** t comes from s without loosening anything. */
  predicate Tightened(raw: Values, s: string, t: string) {
    Loose(raw, t) <= Loose(raw, s) && (Loose(raw, t) == Loose(raw, s) ==> t == s)
  }

  lemma CharacterTightens(raw: Values, s: string, rest: string)
    requires s != "" && Reference(s) == 0 && Tightened(raw, s[1..], rest)
    ensures Tightened(raw, s, s[..1] + rest)
  {
    LooseJoins(raw, s[..1], rest);
    LooseCharacter(raw, s);
    hide Loose;
    assert s == s[..1] + s[1..];
  }

  lemma ReferenceTightens(raw: Values, s: string, k: nat, rest: string)
    requires Reference(s) > 0 && Tightened(raw, s[Reference(s)..], rest)
    requires
      var a := GetVar(raw, s[2..Reference(s)-1], k);
      a.Undefined? || (a.Text? && Loose(raw, a.s) == 0)
    ensures Tightened(raw, s, Replacement(s[..Reference(s)], GetVar(raw, s[2..Reference(s)-1], k)) + rest)
  {
    var n, a := Reference(s), GetVar(raw, s[2..Reference(s)-1], k);
    hide GetVar;
    LooseJoins(raw, Replacement(s[..n], a), rest);
    if a.Text? {
      LooseDefined(raw, s, k);
    } else {
      LooseUndefined(raw, s, k);
      hide Loose;
      assert s == s[..n] + s[n..];
    }
  }

  /** A pass that changes anything leaves fewer loose closing braces. */
  lemma {:induction false} PassTightens(raw: Values, s: string, varname: string, k: nat, t: string)
    requires Substitute(raw, s, varname, k) == Text(t)
    requires forall key, u :: key in Keys(s) && key != varname && Gets(raw, key, Text(u)) ==> Loose(raw, u) == 0
    ensures Tightened(raw, s, t)
    decreases |s|
  {
    if s != "" {
      hide Loose, Reference, GetVar, Tightened;
      var n := Reference(s);
      if n == 0 {
        var rest := Substitute(raw, s[1..], varname, k).s;
        assert Keys(s) == Keys(s[1..]);
        PassTightens(raw, s[1..], varname, k, rest);
        CharacterTightens(raw, s, rest);
      } else {
        var key, a := s[2..n-1], GetVar(raw, s[2..n-1], k);
        var rest := Substitute(raw, s[n..], varname, k).s;
        assert Keys(s) == {key} + Keys(s[n..]);
        PassTightens(raw, s[n..], varname, k, rest);
        assert a.Text? ==> key in Keys(s) && Gets(raw, key, a);
        ReferenceTightens(raw, s, k, rest);
      }
    } else {
      hide Reference, GetVar;
    }
  }

  lemma {:induction false} PassIsDefined(raw: Values, s: string, varname: string, k: nat)
    ensures !Substitute(raw, s, varname, k).Undefined?
    decreases k, 1, |s|
  {
    if s != "" {
      var n := Reference(s);
      PassIsDefined(raw, s[if n == 0 then 1 else n..], varname, k);
    }
  }

  /** Only a variable without a value has no expansion. */
  lemma {:induction false} ExpandIsDefined(raw: Values, s: string, varname: string, k: nat)
    ensures !Expand(raw, s, varname, k).Undefined?
    decreases k, 0
  {
    if HasOpening(s) && k > 0 {
      PassIsDefined(raw, s, varname, k - 1);
      var t := Substitute(raw, s, varname, k - 1);
      if t.Text? && !HasPython(t.s) && t.s != s {
        ExpandIsDefined(raw, t.s, varname, k - 1);
      }
    }
  }

  lemma LooseDefined(raw: Values, s: string, k: nat)
    requires Reference(s) > 0 && GetVar(raw, s[2..Reference(s)-1], k).Text?
    ensures Loose(raw, s) == 1 + Loose(raw, s[Reference(s)..])
  {
  }

  lemma LooseUndefined(raw: Values, s: string, k: nat)
    requires Reference(s) > 0 && GetVar(raw, s[2..Reference(s)-1], k).Undefined?
    ensures Loose(raw, s) == Loose(raw, s[Reference(s)..]) && Loose(raw, s[..Reference(s)]) == 0
  {
    var key := s[2..Reference(s)-1];
    if key in raw && raw[key] != "" {
      ExpandIsDefined(raw, raw[key], key, k);
    }
    LooseReference(raw, s);
  }

  lemma {:induction false} KeysHaveAnswers(raw: Values, rank: string -> nat, v: string, n: nat, now: string)
    requires Falls(raw, rank) && Tight(raw) && v in raw && Reached(raw, raw[v], v, n, now)
    ensures forall key :: key in Keys(now) && key != v ==> HasAnswer(raw, key)
    decreases rank(v), 0, 0
  {
    forall key | key in Keys(now) && key != v ensures HasAnswer(raw, key) {
      assert LooksUp(raw, v, key);
      if key in raw {
        EverythingExpands(raw, rank, key);
      } else {
        GetsAtOnce(raw, key, 0);
      }
    }
  }

  /** The next pass over a text that the expansion of v gets to. */
  lemma PassGoesOn(raw: Values, v: string, n: nat, now: string, t: string)
    requires Tight(raw) && v in raw && Reached(raw, raw[v], v, n, now) && Substitutes(raw, now, v, Text(t))
    ensures Reached(raw, raw[v], v, n + 1, t) && Tightened(raw, now, t)
  {
    var k: nat :| Substitute(raw, now, v, k) == Text(t);
    assert forall key :: key in Keys(now) ==> LooksUp(raw, v, key);
    hide Substitute, Loose, Keys;
    PassTightens(raw, now, v, k, t);
  }

  /** Every text that the expansion of v gets to has an expansion. */
  lemma {:induction false} RoundsEnd(raw: Values, rank: string -> nat, v: string, n: nat, now: string)
    requires Falls(raw, rank) && Tight(raw) && v in raw && Reached(raw, raw[v], v, n, now)
    ensures exists a :: Expands(raw, now, v, a)
    decreases rank(v), 1, Loose(raw, now)
  {
    hide Falls, Tight, Substitute, Keys, HasPython, HasOpening, Loose, Reached;
    if !HasOpening(now) {
      assert Expand(raw, now, v, 0) == Text(now);
      assert Expands(raw, now, v, Text(now));
      return;
    }
    hide Expand;
    KeysHaveAnswers(raw, rank, v, n, now);
    PassEnds(raw, now, v);
    var b :| Substitutes(raw, now, v, b);
    if !b.Text? || HasPython(b.s) || b.s == now {
      ExpandsLast(raw, now, v, b);
    } else {
      PassGoesOn(raw, v, n, now, b.s);
      RoundsEnd(raw, rank, v, n + 1, b.s);
      var a :| Expands(raw, b.s, v, a);
      ExpandsRound(raw, now, v, b.s, a);
    }
  }

  /** In a store whose references lead down and leave no closing brace loose, every
      variable has an answer. */
  lemma {:induction false} EverythingExpands(raw: Values, rank: string -> nat, v: string)
    requires Falls(raw, rank) && Tight(raw)
    ensures HasAnswer(raw, v)
    decreases rank(v), 2, 0
  {
    if v in raw && raw[v] != "" {
      assert Reached(raw, raw[v], v, 0, raw[v]);
      RoundsEnd(raw, rank, v, 0, raw[v]);
      var a :| Expands(raw, raw[v], v, a);
      GetsExpansion(raw, v, a);
    } else {
      GetsAtOnce(raw, v, 0);
    }
  }

  // --- a store without an answer ---

  /** Two variables; v refers to k, and k refers to nothing. */
  const OPEN := "${k"

  const CROSSING := "}}${k${k"

  const ENDLESS: Values := map["v" := "${k}}", "k" := CROSSING]

  function Many(p: string, n: nat): string {
    if n == 0 then "" else p + Many(p, n - 1)
  }

  lemma {:induction false} ManyTwice(p: string, n: nat)
    ensures Many(p, n) + p == p + Many(p, n)
  {
    if n > 0 {
      ManyTwice(p, n - 1);
      assert Many(p, n) + p == p + (Many(p, n - 1) + p);
    } else {
      assert "" + p == p + "";
    }
  }

  lemma CopyOne(raw: Values, x: string, y: string, varname: string, fuel: nat)
    requires x != "" && Reference(x + y) == 0
    ensures Substitute(raw, x + y, varname, fuel) == Prepend(x[..1], Substitute(raw, x[1..] + y, varname, fuel))
  {
    hide Reference, GetVar;
    assert (x + y)[..1] == x[..1] && (x + y)[1..] == x[1..] + y;
  }

  /** A pass copies what no reference starts in. */
  lemma {:induction false} PassCopies(raw: Values, x: string, y: string, varname: string, fuel: nat)
    requires forall i :: 0 <= i < |x| ==> Reference((x + y)[i..]) == 0
    ensures Substitute(raw, x + y, varname, fuel) == Prepend(x, Substitute(raw, y, varname, fuel))
  {
    hide Substitute, Reference;
    var rest := Substitute(raw, y, varname, fuel);
    if x == "" {
      assert x + y == y;
      assert rest.Text? ==> "" + rest.s == rest.s;
    } else {
      assert (x + y)[0..] == x + y;
      forall i | 0 <= i < |x[1..]| ensures Reference((x[1..] + y)[i..]) == 0 {
        assert (x[1..] + y)[i..] == (x + y)[i+1..];
      }
      PassCopies(raw, x[1..], y, varname, fuel);
      CopyOne(raw, x, y, varname, fuel);
      PrependTwice(x[..1], x[1..], rest);
      assert x[..1] + x[1..] == x;
    }
  }

  lemma NoReference(s: string)
    requires s == "" || s[0] != '$' || '}' !in s
    ensures Reference(s) == 0
  {
  }

  /** No opening of s is closed. */
  predicate NothingCloses(s: string) {
    forall i, j :: 0 <= i < j < |s| && s[i] == '$' ==> s[j] != '}'
  }

  /** Such a text stays as it is. */
  lemma PassKeeps(raw: Values, s: string, varname: string, fuel: nat)
    requires NothingCloses(s)
    ensures Substitute(raw, s, varname, fuel) == Text(s)
  {
    forall i | 0 <= i < |s| ensures Reference((s + "")[i..]) == 0 {
      assert s + "" == s;
      NoReference(s[i..]);
    }
    PassCopies(raw, s, "", varname, fuel);
    assert s + "" == s;
  }

  /** A pass that changes nothing ends the expansion. */
  lemma ExpandStays(raw: Values, s: string, varname: string, fuel: nat)
    requires HasOpening(s) && !HasPython(s) && fuel > 0 && Substitute(raw, s, varname, fuel - 1) == Text(s)
    ensures Expand(raw, s, varname, fuel) == Text(s)
  {
    assert Continue(raw, s, Text(s), varname, fuel - 1) == Text(s);
  }

  /** A value without a closed reference is its own expansion. */
  lemma ValueStays(raw: Values, key: string, fuel: nat)
    requires key in raw && NothingCloses(raw[key]) && HasOpening(raw[key]) && !HasPython(raw[key])
    ensures GetVar(raw, key, fuel) == if fuel == 0 then OutOfFuel else Text(raw[key])
  {
    hide Substitute, HasPython;
    if fuel > 0 {
      hide Expand;
      PassKeeps(raw, raw[key], key, fuel - 1);
      ExpandStays(raw, raw[key], key, fuel);
    }
  }

  lemma CrossingIsOpen()
    ensures NothingCloses(CROSSING) && HasOpening(CROSSING) && !HasPython(CROSSING)
  {
    hide HasOpening, HasPython;
    OpeningInside("}}", OPEN);
    assert "}}" + OPEN + OPEN == CROSSING;
    NoPython(CROSSING);
  }

  lemma CrossingStays(fuel: nat)
    ensures GetVar(ENDLESS, "k", fuel) == if fuel == 0 then OutOfFuel else Text(CROSSING)
  {
    hide GetVar, NothingCloses, HasOpening, HasPython;
    CrossingIsOpen();
    ValueStays(ENDLESS, "k", fuel);
  }

  lemma {:induction false} NoPython(s: string)
    requires '@' !in s
    ensures !HasPython(s)
  {
    if |s| >= 3 {
      NoPython(s[1..]);
    }
  }

  lemma {:induction false} OpeningInside(x: string, y: string)
    ensures HasOpening(x + OPEN + y)
  {
    if x != "" {
      OpeningInside(x[1..], y);
      assert (x + OPEN + y)[1..] == x[1..] + OPEN + y;
    }
  }

  lemma ReferenceToK(y: string)
    ensures Reference("${k}" + y) == 4 && ("${k}" + y)[2..3] == "k" && ("${k}" + y)[4..] == y
  {
    var s := "${k}" + y;
    assert s[2..][0] == 'k' && s[2..][1] == '}';
    NameLengthAt(s[2..], 1);
  }

  /** One pass over a text with one complete reference. */
  lemma OnePass(x: string, y: string, fuel: nat)
    requires NothingCloses(y) && forall i :: 0 <= i < |x| ==> Reference((x + ("${k}" + y))[i..]) == 0
    ensures Substitute(ENDLESS, x + ("${k}" + y), "v", fuel) ==
      if fuel == 0 then OutOfFuel else Text(x + (CROSSING + y))
  {
    var s := "${k}" + y;
    PassCopies(ENDLESS, x, s, "v", fuel);
    CrossingStays(fuel);
    PassKeeps(ENDLESS, y, "v", fuel);
    ReferenceToK(y);
    hide GetVar, Reference, NothingCloses;
    assert Substitute(ENDLESS, s, "v", fuel) == if fuel == 0 then OutOfFuel else Text(CROSSING + y);
  }

  /** What the value of v becomes in an even and in an odd number of passes. */
  function Even(n: nat): string {
    Many("}", 2 * n) + ("${k}" + ("}" + Many(OPEN, 2 * n)))
  }

  function Odd(n: nat): string {
    Many("}", 2 * n) + "}}${k" + ("${k}" + Many(OPEN, 2 * n))
  }

  lemma {:induction false} ManyAre(p: string, n: nat, c: char)
    requires c !in p
    ensures c !in Many(p, n)
  {
    if n > 0 {
      ManyAre(p, n - 1, c);
    }
  }

  lemma PassOverEven(n: nat, fuel: nat)
    ensures Substitute(ENDLESS, Even(n), "v", fuel) == if fuel == 0 then OutOfFuel else Text(Odd(n))
  {
    hide Substitute, Many;
    var x, y := Many("}", 2 * n), "}" + Many(OPEN, 2 * n);
    ManyAre("}", 2 * n, '$');
    ManyAre(OPEN, 2 * n, '}');
    forall i | 0 <= i < |x| ensures Reference((x + ("${k}" + y))[i..]) == 0 {
      assert (x + ("${k}" + y))[i] == x[i];
    }
    hide Reference;
    OnePass(x, y, fuel);
    assert x + (CROSSING + y) == Odd(n);
  }

  lemma OddStarts(m: string, y: string, i: nat)
    requires '$' !in m && i < |m + "}}${k"|
    ensures Reference((m + "}}${k" + ("${k}" + y))[i..]) == 0
  {
    var x, s := m + "}}${k", m + "}}${k" + ("${k}" + y);
    if i == |m| + 2 {
      assert s[i..][2..][..3] == "k${";
      NameLengthAt(s[i..][2..], 2);
    } else {
      assert s[i] == x[i] && (i < |m| ==> x[i] == m[i]);
    }
  }

  lemma PassOverOdd(n: nat, fuel: nat)
    ensures Substitute(ENDLESS, Odd(n), "v", fuel) == if fuel == 0 then OutOfFuel else Text(Even(n + 1))
  {
    hide Substitute, Reference, Many;
    var m, y := Many("}", 2 * n), Many(OPEN, 2 * n);
    ManyAre("}", 2 * n, '$');
    ManyAre(OPEN, 2 * n, '}');
    forall i | 0 <= i < |m + "}}${k"| ensures Reference((m + "}}${k" + ("${k}" + y))[i..]) == 0 {
      OddStarts(m, y, i);
    }
    OnePass(m + "}}${k", y, fuel);
    ManyMore("}", 2 * n);
    ManyMore(OPEN, 2 * n);
    assert m + "}}${k" + (CROSSING + y) == (m + "}" + "}") + ("${k}" + ("}" + (OPEN + OPEN + y)));
  }

  lemma ManyMore(p: string, n: nat)
    ensures Many(p, n + 2) == Many(p, n) + p + p == p + p + Many(p, n)
  {
    ManyTwice(p, n);
    ManyTwice(p, n + 1);
    assert Many(p, n + 2) == p + Many(p, n + 1) == p + (p + Many(p, n));
  }

  lemma TextsGrow(n: nat)
    ensures |Even(n)| < |Odd(n)| < |Even(n + 1)|
  {
    hide Many;
    ManyMore("}", 2 * n);
    ManyMore(OPEN, 2 * n);
  }

  lemma NoPythonInside(n: nat)
    ensures !HasPython(Even(n)) && !HasPython(Odd(n))
  {
    ManyAre("}", 2 * n, '@');
    ManyAre(OPEN, 2 * n, '@');
    hide HasPython, Many;
    NoPython(Even(n));
    NoPython(Odd(n));
  }

  lemma BothHaveOpenings(n: nat)
    ensures HasOpening(Even(n)) && HasOpening(Odd(n))
  {
    hide HasOpening, Many;
    var m, y := Many("}", 2 * n), Many(OPEN, 2 * n);
    OpeningInside(m, "}" + ("}" + y));
    OpeningInside(m + "}}", "${k}" + y);
    assert m + OPEN + ("}" + ("}" + y)) == Even(n);
    assert m + "}}" + OPEN + ("${k}" + y) == Odd(n);
  }

  /** Pass follows pass, and the text grows for ever. */
  lemma {:induction false} NeverDone(n: nat, fuel: nat)
    ensures Expand(ENDLESS, Even(n), "v", fuel) == OutOfFuel
    ensures Expand(ENDLESS, Odd(n), "v", fuel) == OutOfFuel
    decreases fuel
  {
    hide Even, Odd, Substitute, GetVar, HasPython, HasOpening;
    BothHaveOpenings(n);
    if fuel > 0 {
      NoPythonInside(n);
      NoPythonInside(n + 1);
      TextsGrow(n);
      PassOverEven(n, fuel - 1);
      PassOverOdd(n, fuel - 1);
      NeverDone(n, fuel - 1);
      NeverDone(n + 1, fuel - 1);
    }
  }

  lemma {:induction false} NothingElseIsReached(raw: Values, s: string, varname: string, n: nat, now: string)
    requires NothingCloses(s) && Reached(raw, s, varname, n, now)
    ensures now == s
  {
    hide Substitute, NothingCloses;
    if n > 0 {
      var mid :| Reached(raw, s, varname, n - 1, mid) && Substitutes(raw, mid, varname, Text(now));
      NothingElseIsReached(raw, s, varname, n - 1, mid);
      var l: nat :| Substitute(raw, mid, varname, l) == Text(now);
      PassKeeps(raw, s, varname, l);
    }
  }

  lemma {:induction false} NoKeys(s: string)
    requires NothingCloses(s)
    ensures Keys(s) == {}
  {
    if s != "" {
      NoReference(s);
      NoKeys(s[1..]);
    }
  }

  lemma LooksUpNothing(raw: Values, v: string, key: string)
    requires v in raw && NothingCloses(raw[v])
    ensures !LooksUp(raw, v, key)
  {
    hide NothingCloses, Keys, Reached;
    if LooksUp(raw, v, key) {
      var n: nat, now :| Reached(raw, raw[v], v, n, now) && key in Keys(now);
      NothingElseIsReached(raw, raw[v], v, n, now);
      NoKeys(raw[v]);
    }
  }

  lemma EndlessFalls(rank: string -> nat)
    requires rank("k") < rank("v")
    ensures Falls(ENDLESS, rank)
  {
    hide LooksUp;
    forall v, key | LooksUp(ENDLESS, v, key) && key in ENDLESS && key != v ensures rank(key) < rank(v) {
      LookedUpHasValue(ENDLESS, v, key);
      CrossingIsOpen();
      LooksUpNothing(ENDLESS, "k", key);
    }
  }

  lemma LookedUpHasValue(raw: Values, v: string, key: string)
    requires LooksUp(raw, v, key)
    ensures v in raw
  {
  }

  /** References that lead down are not enough for an answer. */
  lemma AcyclicWithoutAnswer()
    ensures exists rank: string -> nat :: Falls(ENDLESS, rank)
    ensures !HasAnswer(ENDLESS, "v")
  {
    hide Falls, Expand;
    var rank: string -> nat := v => if v == "v" then 1 else 0;
    EndlessFalls(rank);
    forall fuel: nat ensures GetVar(ENDLESS, "v", fuel) == OutOfFuel {
      NeverDone(0, fuel);
      assert Even(0) == "${k}}";
    }
  }
}
