/** Stores in which every brace belongs to a complete reference: what can be said about
their expansions by looking at the raw values alone. */
module CleanStores {
  import opened Expansion
  import opened AcyclicStores

  /** Every brace of s belongs to a complete ${NAME}. */
  predicate Clean(s: string) {
    s == "" ||
    var n := Reference(s);
    if n > 0 then Clean(s[n..]) else s[0] != '{' && s[0] != '}' && Clean(s[1..])
  }

  predicate CleanStore(raw: Values) {
    forall v :: v in raw ==> Clean(raw[v])
  }

  /** The references that stand in the values lead down, except from a variable to itself. */
  ghost predicate Direct(raw: Values, rank: string -> nat) {
    forall v, key :: v in raw && key in Keys(raw[v]) && key in raw && key != v ==> rank(key) < rank(v)
  }

  /** They all lead down. */
  ghost predicate Orderly(raw: Values, rank: string -> nat) {
    forall v, key :: v in raw && key in Keys(raw[v]) && key in raw ==> rank(key) < rank(v)
  }

  /** A clean text that refers to undefined variables only. */
  predicate Settled(raw: Values, s: string) {
    Clean(s) && Keys(s) !! raw.Keys
  }

  // --- joining clean texts ---

  lemma NoReferenceAcross(x: string, y: string)
    requires x != "" && Clean(x) && Clean(y) && Reference(x) == 0
    ensures Reference(x + y) == 0
  {
    if |x| == 1 {
      assert y == "" || y[0] != '{';
      assert (x + y)[1..] == y;
    } else {
      assert (x + y)[1] == x[1..][0];
      assert x[1] != '{' by {
        assert Clean(x[1..]);
        assert Reference(x[1..]) > 0 ==> x[1] == '$';
      }
    }
  }

  /** Clean and Keys, read from the front. */
  lemma FrontReference(s: string)
    requires Reference(s) > 0
    ensures var n := Reference(s);
      (Clean(s) <==> Clean(s[n..])) && Keys(s) == {s[2..n-1]} + Keys(s[n..])
  {
  }

  lemma FrontCharacter(s: string)
    requires s != "" && Reference(s) == 0
    ensures Clean(s) <==> s[0] != '{' && s[0] != '}' && Clean(s[1..])
    ensures Keys(s) == Keys(s[1..])
  {
  }

  /** x and y join to a clean text with the names of both. */
  predicate JoinsWell(x: string, y: string) {
    Clean(x + y) && Keys(x + y) == Keys(x) + Keys(y)
  }

  lemma JoinAfterReference(x: string, y: string)
    requires Reference(x) > 0 && JoinsWell(x[Reference(x)..], y)
    ensures JoinsWell(x, y)
  {
    hide Reference, Clean, Keys;
    ReferenceStays(x, y);
    FrontReference(x);
    FrontReference(x + y);
    assert (x + y)[Reference(x)..] == x[Reference(x)..] + y;
  }

  lemma JoinAfterCharacter(x: string, y: string)
    requires x != "" && Reference(x) == 0 && Clean(x) && Clean(y) && JoinsWell(x[1..], y)
    ensures JoinsWell(x, y)
  {
    hide Reference, Clean, Keys;
    NoReferenceAcross(x, y);
    FrontCharacter(x);
    FrontCharacter(x + y);
    assert (x + y)[1..] == x[1..] + y;
  }

  /** Joining clean texts joins their names. */
  lemma {:induction false} CleanJoins(x: string, y: string)
    requires Clean(x) && Clean(y)
    ensures JoinsWell(x, y)
    decreases |x|
  {
    if x == "" {
      assert x + y == y;
    } else {
      hide Reference, JoinsWell, Keys;
      if Reference(x) > 0 {
        CleanJoins(x[Reference(x)..], y);
        JoinAfterReference(x, y);
      } else {
        CleanJoins(x[1..], y);
        JoinAfterCharacter(x, y);
      }
    }
  }

  lemma SettledJoins(raw: Values, x: string, y: string)
    requires Settled(raw, x) && Settled(raw, y)
    ensures Settled(raw, x + y)
  {
    CleanJoins(x, y);
  }

  lemma CharacterIsSettled(raw: Values, s: string)
    requires s != "" && Clean(s) && Reference(s) == 0
    ensures Settled(raw, s[..1]) && Clean(s[1..]) && Keys(s) == Keys(s[1..])
  {
    assert s[..1][1..] == "" && Reference(s[..1]) == 0;
  }

  /** A reference alone. */
  lemma ReferenceAlone(s: string)
    requires Reference(s) > 0
    ensures Reference(s[..Reference(s)]) == Reference(s)
    ensures Clean(s[..Reference(s)]) && Keys(s[..Reference(s)]) == {s[2..Reference(s)-1]}
  {
    var n := Reference(s);
    var r := s[..n];
    assert forall i :: 0 <= i <= n - 3 ==> r[2..][i] == s[2..][i];
    NameLengthAt(r[2..], n - 3);
    assert Reference(r) == n && r[n..] == "" && r[2..n-1] == s[2..n-1];
    assert Keys("") == {} && Clean("");
    hide Reference;
    assert Keys(r) == {r[2..n-1]} + Keys(r[n..]);
  }

  /** A text without openings refers to nothing. */
  lemma {:induction false} NoOpeningNoKeys(s: string)
    requires !HasOpening(s)
    ensures Keys(s) == {}
  {
    if s != "" {
      assert |s| >= 2 ==> !HasOpening(s[1..]);
      assert Reference(s) == 0;
      NoOpeningNoKeys(s[1..]);
    }
  }

  lemma {:induction false} SettledIsTight(raw: Values, s: string)
    requires Settled(raw, s)
    ensures Loose(raw, s) == 0
    decreases |s|
  {
    if s != "" {
      var n := Reference(s);
      hide Reference;
      SettledIsTight(raw, s[if n == 0 then 1 else n..]);
    }
  }

  // --- what a clean text expands to ---

  /** One pass over a clean text settles it. */
  lemma {:induction false} PassSettles(raw: Values, s: string, varname: string, k: nat)
    requires CleanStore(raw) && Clean(s) && Substitute(raw, s, varname, k).Text?
    ensures Settled(raw, Substitute(raw, s, varname, k).s)
    decreases k, 2, |s|
  {
    if s != "" {
      var n := Reference(s);
      var t := Substitute(raw, s, varname, k).s;
      if n == 0 {
        CharacterIsSettled(raw, s);
        PassSettles(raw, s[1..], varname, k);
        SettledJoins(raw, s[..1], Substitute(raw, s[1..], varname, k).s);
      } else {
        var key, a := s[2..n-1], GetVar(raw, s[2..n-1], k);
        PassSettles(raw, s[n..], varname, k);
        var rest := Substitute(raw, s[n..], varname, k).s;
        if a.Text? {
          AnswerIsSettled(raw, key, k);
          SettledJoins(raw, a.s, rest);
        } else {
          OnlyUnknownIsUndefined(raw, key, k);
          ReferenceAlone(s);
          SettledJoins(raw, s[..n], rest);
        }
      }
    }
  }

  lemma OnlyUnknownIsUndefined(raw: Values, key: string, k: nat)
    requires GetVar(raw, key, k).Undefined?
    ensures key !in raw
  {
    if key in raw && raw[key] != "" {
      ExpandIsDefined(raw, raw[key], key, k);
    }
  }

  lemma {:induction false} AnswerIsSettled(raw: Values, key: string, k: nat)
    requires CleanStore(raw) && GetVar(raw, key, k).Text?
    ensures Settled(raw, GetVar(raw, key, k).s)
    decreases k, 1, 0
  {
    if raw[key] != "" {
      ExpansionIsSettled(raw, raw[key], key, k);
    }
  }

  /** An expansion to a text, read from its first pass. */
  lemma ByPasses(raw: Values, s: string, varname: string, k: nat)
    requires HasOpening(s) && Expand(raw, s, varname, k).Text?
    ensures k > 0 && Substitute(raw, s, varname, k - 1).Text?
    ensures var t := Substitute(raw, s, varname, k - 1).s;
      Expand(raw, s, varname, k) == if t == s then Text(s) else Expand(raw, t, varname, k - 1)
  {
    hide Substitute;
  }

  lemma NothingToExpand(raw: Values, s: string, varname: string, k: nat)
    requires !HasOpening(s) && Clean(s)
    ensures Expand(raw, s, varname, k) == Text(s) && Settled(raw, s)
  {
    NoOpeningNoKeys(s);
  }

  lemma SettledIsClean(raw: Values, s: string)
    requires Settled(raw, s)
    ensures Clean(s)
  {
  }

  /** The expansion of a clean text is clean and refers to undefined variables only. */
  lemma {:induction false} ExpansionIsSettled(raw: Values, s: string, varname: string, k: nat)
    requires CleanStore(raw) && Clean(s) && Expand(raw, s, varname, k).Text?
    ensures Settled(raw, Expand(raw, s, varname, k).s)
    decreases k, 0, 0
  {
    hide Expand, Substitute, Settled, Clean;
    if !HasOpening(s) {
      NothingToExpand(raw, s, varname, k);
    } else {
      ByPasses(raw, s, varname, k);
      var t := Substitute(raw, s, varname, k - 1).s;
      PassSettles(raw, s, varname, k - 1);
      SettledIsClean(raw, t);
      if t != s {
        ExpansionIsSettled(raw, t, varname, k - 1);
      }
    }
  }

  /** Only the first pass finds names of variables. */
  lemma {:induction false} LaterTextsAreSettled(raw: Values, s: string, varname: string, n: nat, now: string)
    requires CleanStore(raw) && Clean(s) && Reached(raw, s, varname, n, now)
    ensures Clean(now) && (n > 0 ==> Settled(raw, now))
  {
    hide Substitute, Settled, Clean;
    if n > 0 {
      var mid :| Reached(raw, s, varname, n - 1, mid) && Substitutes(raw, mid, varname, Text(now));
      LaterTextsAreSettled(raw, s, varname, n - 1, mid);
      var k: nat :| Substitute(raw, mid, varname, k) == Text(now);
      PassSettles(raw, mid, varname, k);
      SettledIsClean(raw, now);
    }
  }

  lemma DirectFalls(raw: Values, rank: string -> nat)
    requires CleanStore(raw) && Direct(raw, rank)
    ensures Falls(raw, rank)
  {
    forall v, key | LooksUp(raw, v, key) && key in raw && key != v ensures rank(key) < rank(v) {
      var n: nat, now :| Reached(raw, raw[v], v, n, now) && key in Keys(now);
      LaterTextsAreSettled(raw, raw[v], v, n, now);
    }
  }

  lemma CleanIsTight(raw: Values)
    requires CleanStore(raw)
    ensures Tight(raw)
  {
    forall v, key, t | LooksUp(raw, v, key) && key != v && Gets(raw, key, Text(t)) ensures Loose(raw, t) == 0 {
      var k: nat :| GetVar(raw, key, k) == Text(t);
      AnswerIsSettled(raw, key, k);
      SettledIsTight(raw, t);
    }
  }

  /** In a clean store whose references lead down every variable has an answer. */
  lemma CleanStoreExpands(raw: Values, rank: string -> nat, v: string)
    requires CleanStore(raw) && Direct(raw, rank)
    ensures HasAnswer(raw, v)
  {
    DirectFalls(raw, rank);
    CleanIsTight(raw);
    EverythingExpands(raw, rank, v);
  }

  // --- exactly the stores in which every variable has a text ---

  ghost predicate HasText(raw: Values, v: string) {
    exists t :: Gets(raw, v, Text(t))
  }

  predicate WithoutPython(raw: Values) {
    forall v :: v in raw ==> '@' !in raw[v]
  }

  /** Neither a loop nor an error, as far as k reaches. */
  predicate Fine(a: Answer) {
    a == OutOfFuel || (a.Text? && '@' !in a.s)
  }

  lemma {:induction false} PassIsFine(raw: Values, rank: string -> nat, s: string, varname: string, k: nat)
    requires CleanStore(raw) && WithoutPython(raw) && Orderly(raw, rank)
    requires Clean(s) && '@' !in s && varname !in Keys(s)
    ensures Fine(Substitute(raw, s, varname, k))
    decreases k, 2, |s|
  {
    if s != "" {
      var n := Reference(s);
      if n == 0 {
        FrontCharacter(s);
        PassIsFine(raw, rank, s[1..], varname, k);
      } else {
        FrontReference(s);
        PassIsFine(raw, rank, s[n..], varname, k);
        var key := s[2..n-1];
        if key in raw {
          AnswerIsFine(raw, rank, key, k);
        }
      }
    }
  }

  lemma {:induction false} AnswerIsFine(raw: Values, rank: string -> nat, key: string, k: nat)
    requires CleanStore(raw) && WithoutPython(raw) && Orderly(raw, rank) && key in raw
    ensures Fine(GetVar(raw, key, k))
    decreases k, 1, 0
  {
    if raw[key] != "" {
      assert key !in Keys(raw[key]);
      ExpansionIsFine(raw, rank, raw[key], key, k);
    }
  }

  lemma {:induction false} ExpansionIsFine(raw: Values, rank: string -> nat, s: string, varname: string, k: nat)
    requires CleanStore(raw) && WithoutPython(raw) && Orderly(raw, rank)
    requires Clean(s) && '@' !in s && varname in raw && varname !in Keys(s)
    ensures Fine(Expand(raw, s, varname, k))
    decreases k, 0, 0
  {
    if HasOpening(s) && k > 0 {
      PassIsFine(raw, rank, s, varname, k - 1);
      var t := Substitute(raw, s, varname, k - 1);
      if t.Text? {
        NoPython(t.s);
        PassSettles(raw, s, varname, k - 1);
        if t.s != s {
          ExpansionIsFine(raw, rank, t.s, varname, k - 1);
        }
      }
    }
  }

  /** A pass that gives a text has found an answer for every name in it. */
  lemma {:induction false} PassFindsAnswers(raw: Values, s: string, varname: string, k: nat, key: string)
    requires Substitute(raw, s, varname, k).Text? && key in Keys(s)
    ensures GetVar(raw, key, k) != OutOfFuel
  {
    if s != "" {
      var n := Reference(s);
      hide Expand;
      if n == 0 || key != s[2..n-1] {
        PassFindsAnswers(raw, s[if n == 0 then 1 else n..], varname, k, key);
      }
    }
  }

  /** k is the smallest bound with an answer. */
  ghost predicate IsLeast(raw: Values, v: string, k: nat) {
    GetVar(raw, v, k) != OutOfFuel && forall j: nat :: j < k ==> GetVar(raw, v, j) == OutOfFuel
  }

  lemma {:induction false} LeastExists(raw: Values, v: string, k: nat) returns (least: nat)
    requires GetVar(raw, v, k) != OutOfFuel
    ensures least <= k && IsLeast(raw, v, least)
  {
    if j: nat :| j < k && GetVar(raw, v, j) != OutOfFuel {
      least := LeastExists(raw, v, j);
    } else {
      least := k;
    }
  }

  /** How deep the expansion of v goes. */
  ghost function Depth(raw: Values, v: string): nat {
    if k: nat :| IsLeast(raw, v, k) then k else 0
  }

  lemma LeastIsUnique(raw: Values, v: string, k: nat, l: nat)
    requires IsLeast(raw, v, k) && IsLeast(raw, v, l)
    ensures k == l
  {
  }

  lemma DepthIs(raw: Values, v: string, k: nat)
    requires IsLeast(raw, v, k)
    ensures Depth(raw, v) == k
  {
    LeastIsUnique(raw, v, k, Depth(raw, v));
  }

  /** In any store, the names in the value of a variable with a text are less deep. */
  lemma NamesAreLessDeep(raw: Values, v: string, key: string)
    requires v in raw && HasText(raw, v) && key in Keys(raw[v]) && key in raw
    ensures Depth(raw, key) < Depth(raw, v)
  {
    var t :| Gets(raw, v, Text(t));
    var k: nat :| GetVar(raw, v, k) == Text(t);
    var least := LeastExists(raw, v, k);
    MoreFuelGetVar(raw, v, least, k);
    DepthIs(raw, v, least);
    if !HasOpening(raw[v]) {
      NoOpeningNoKeys(raw[v]);
    }
    assert raw[v] != "" by {
      assert Keys("") == {};
    }
    ByPasses(raw, raw[v], v, least);
    PassFindsAnswers(raw, raw[v], v, least - 1, key);
    var below := LeastExists(raw, key, least - 1);
    DepthIs(raw, key, below);
  }

  /** So if every variable has a text, the references lead down. */
  lemma TextsNeedOrder(raw: Values)
    requires forall v :: v in raw ==> HasText(raw, v)
    ensures exists rank: string -> nat :: Orderly(raw, rank)
  {
    var rank: string -> nat := v => Depth(raw, v);
    forall v, key | v in raw && key in Keys(raw[v]) && key in raw ensures rank(key) < rank(v) {
      NamesAreLessDeep(raw, v, key);
    }
    assert Orderly(raw, rank);
  }

  /** In a clean store without Python, every variable has a text if and only if the
      references in the values lead down. */
  lemma TextsIfOrderly(raw: Values)
    requires CleanStore(raw) && WithoutPython(raw)
    ensures (forall v :: v in raw ==> HasText(raw, v)) <==> exists rank: string -> nat :: Orderly(raw, rank)
  {
    if rank: string -> nat :| Orderly(raw, rank) {
      forall v | v in raw ensures HasText(raw, v) {
        CleanStoreExpands(raw, rank, v);
        var a :| Gets(raw, v, a);
        var k: nat :| GetVar(raw, v, k) == a;
        AnswerIsFine(raw, rank, v, k);
      }
    }
    if forall v :: v in raw ==> HasText(raw, v) {
      TextsNeedOrder(raw);
    }
  }
}
