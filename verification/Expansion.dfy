/** What ${NAME} expansion means without any cache: DataSmart.expand and getVar
as functions of the variables' raw values.

fuel stands for the interpreter's bound on recursion and looping.  An answer
other than OutOfFuel does not depend on it. */
module Expansion {
  datatype Answer =
    | Undefined           // None
    | Text(s: string)
    | SelfReference       // "variable ... references itself!"
    | NeedsPython         // an ${@...} expression would be evaluated
    | OutOfFuel

  /** The unexpanded values of the variables that have one. */
  type Values = map<string, string>

  /** The number of characters of s from i on that are neither { nor }. */
  function NameLength(s: string): (n: nat)
    ensures n <= |s|
    ensures forall i :: 0 <= i < n ==> s[i] != '{' && s[i] != '}'
    ensures n < |s| ==> s[n] == '{' || s[n] == '}'
  {
    if s == "" || s[0] == '{' || s[0] == '}' then 0 else 1 + NameLength(s[1..])
  }

  /** The length of the match of \${[^{}]+} at the start of s, 0 if there is none. */
  function Reference(s: string): (n: nat)
    ensures n == 0 || 4 <= n <= |s|
  {
    if |s| >= 4 && s[0] == '$' && s[1] == '{' then
      var n := NameLength(s[2..]);
      if n > 0 && 2 + n < |s| && s[2+n] == '}' then n + 3 else 0
    else 0
  }

  /** s.find('${') != -1 */
  predicate HasOpening(s: string) {
    |s| >= 2 && ((s[0] == '$' && s[1] == '{') || HasOpening(s[1..]))
  }

  /** Does s contain a closing brace after at least one other character, before any line end? */
  predicate ClosesLater(s: string, first: bool) {
    s != "" && s[0] != '\n' && ((s[0] == '}' && !first) || ClosesLater(s[1..], false))
  }

  /** Does \${@.+?} match somewhere in s? */
  predicate HasPython(s: string) {
    |s| >= 3 &&
    ((s[0] == '$' && s[1] == '{' && s[2] == '@' && ClosesLater(s[3..], true)) || HasPython(s[1..]))
  }

  function Prepend(p: string, a: Answer): Answer {
    if a.Text? then Text(p + a.s) else a
  }

  /** getVar(key, 1) */
  function GetVar(raw: Values, key: string, fuel: nat): Answer
    decreases fuel, 1
  {
    if key !in raw then Undefined
    else if raw[key] == "" then Text("")
    else Expand(raw, raw[key], key, fuel)
  }

  /** One pass of the ${NAME} substitution over s. */
  function Substitute(raw: Values, s: string, varname: string, fuel: nat): Answer
    decreases fuel, 2, |s|
  {
    if s == "" then Text("")
    else
      var n := Reference(s);
      if n == 0 then Prepend(s[..1], Substitute(raw, s[1..], varname, fuel))
      else
        var key := s[2..n-1];
        if varname != "" && key == varname then SelfReference
        else
          match GetVar(raw, key, fuel)
          case Undefined => Prepend(s[..n], Substitute(raw, s[n..], varname, fuel))
          case Text(v) => Prepend(v, Substitute(raw, s[n..], varname, fuel))
          case other => other
  }

  /** What follows the ${NAME} pass of one round: t is its result. */
  function Continue(raw: Values, s: string, t: Answer, varname: string, fuel: nat): Answer
    decreases fuel, 1
  {
    match t
    case Text(u) =>
      if HasPython(u) then NeedsPython
      else if u == s then Text(s)
      else Expand(raw, u, varname, fuel)
    case other => other
  }

  /** expand(s, varname) */
  function Expand(raw: Values, s: string, varname: string, fuel: nat): Answer
    decreases fuel, 0
  {
    if !HasOpening(s) then Text(s)
    else if fuel == 0 then OutOfFuel
    else Continue(raw, s, Substitute(raw, s, varname, fuel - 1), varname, fuel - 1)
  }

  // --- more fuel changes nothing ---

  lemma {:induction false} MoreFuelGetVar(raw: Values, key: string, k: nat, l: nat)
    requires k <= l && GetVar(raw, key, k) != OutOfFuel
    ensures GetVar(raw, key, l) == GetVar(raw, key, k)
    decreases k, 1
  {
    if key in raw && raw[key] != "" {
      MoreFuelExpand(raw, raw[key], key, k, l);
    }
  }

  lemma {:induction false} MoreFuelSubstitute(raw: Values, s: string, varname: string, k: nat, l: nat)
    requires k <= l && Substitute(raw, s, varname, k) != OutOfFuel
    ensures Substitute(raw, s, varname, l) == Substitute(raw, s, varname, k)
    decreases k, 2, |s|
  {
    if s != "" {
      var n := Reference(s);
      if n == 0 {
        MoreFuelSubstitute(raw, s[1..], varname, k, l);
      } else {
        var key := s[2..n-1];
        if !(varname != "" && key == varname) {
          MoreFuelGetVar(raw, key, k, l);
          var a := GetVar(raw, key, k);
          if a.Undefined? || a.Text? {
            MoreFuelSubstitute(raw, s[n..], varname, k, l);
          }
        }
      }
    }
  }

  lemma {:induction false} MoreFuelExpand(raw: Values, s: string, varname: string, k: nat, l: nat)
    requires k <= l && Expand(raw, s, varname, k) != OutOfFuel
    ensures Expand(raw, s, varname, l) == Expand(raw, s, varname, k)
    decreases k, 0
  {
    hide Substitute, HasPython, HasOpening;
    if HasOpening(s) {
      MoreFuelSubstitute(raw, s, varname, k - 1, l - 1);
      var t := Substitute(raw, s, varname, k - 1);
      if t.Text? && !HasPython(t.s) && t.s != s {
        MoreFuelExpand(raw, t.s, varname, k - 1, l - 1);
      }
    }
  }

  // --- answers independent of fuel ---

  ghost predicate Expands(raw: Values, s: string, varname: string, a: Answer) {
    a != OutOfFuel && exists k: nat :: Expand(raw, s, varname, k) == a
  }

  ghost predicate Substitutes(raw: Values, s: string, varname: string, a: Answer) {
    a != OutOfFuel && exists k: nat :: Substitute(raw, s, varname, k) == a
  }

  ghost predicate Gets(raw: Values, key: string, a: Answer) {
    a != OutOfFuel && exists k: nat :: GetVar(raw, key, k) == a
  }

  function Max(a: nat, b: nat): nat { if a < b then b else a }

  lemma ExpandsUnique(raw: Values, s: string, varname: string, a: Answer, b: Answer)
    requires Expands(raw, s, varname, a) && Expands(raw, s, varname, b)
    ensures a == b
  {
    var k: nat :| Expand(raw, s, varname, k) == a;
    var l: nat :| Expand(raw, s, varname, l) == b;
    MoreFuelExpand(raw, s, varname, k, Max(k, l));
    MoreFuelExpand(raw, s, varname, l, Max(k, l));
  }

  /** One more round in front. */
  lemma ExpandsRound(raw: Values, s: string, varname: string, t: string, a: Answer)
    requires HasOpening(s) && Substitutes(raw, s, varname, Text(t)) && !HasPython(t) && t != s
    requires Expands(raw, t, varname, a)
    ensures Expands(raw, s, varname, a)
  {
    var k: nat :| Substitute(raw, s, varname, k) == Text(t);
    var l: nat :| Expand(raw, t, varname, l) == a;
    var m := Max(k, l);
    MoreFuelSubstitute(raw, s, varname, k, m);
    MoreFuelExpand(raw, t, varname, l, m);
    assert Expand(raw, s, varname, m + 1) == a;
  }

  /** A last round. */
  lemma ExpandsLast(raw: Values, s: string, varname: string, t: Answer)
    requires HasOpening(s) && Substitutes(raw, s, varname, t)
    requires t.Text? ==> HasPython(t.s) || t.s == s
    ensures Expands(raw, s, varname, if t.Text? && HasPython(t.s) then NeedsPython else t)
  {
    var k: nat :| Substitute(raw, s, varname, k) == t;
    assert Expand(raw, s, varname, k + 1) == if t.Text? && HasPython(t.s) then NeedsPython else t;
  }

  lemma GetsExpansion(raw: Values, key: string, a: Answer)
    requires key in raw && raw[key] != ""
    ensures Gets(raw, key, a) <==> Expands(raw, raw[key], key, a)
  {
    if Gets(raw, key, a) {
      var k: nat :| GetVar(raw, key, k) == a;
      assert Expand(raw, raw[key], key, k) == a;
    }
    if Expands(raw, raw[key], key, a) {
      var k: nat :| Expand(raw, raw[key], key, k) == a;
      assert GetVar(raw, key, k) == a;
    }
  }

  lemma GetsAtOnce(raw: Values, key: string, fuel: nat)
    requires key in raw ==> raw[key] == ""
    ensures Gets(raw, key, GetVar(raw, key, fuel)) &&
      GetVar(raw, key, fuel) == if key in raw then Text("") else Undefined
  {
  }

  // --- a substitution in progress ---

  /** With `done` written and `rest` still to scan, every answer for rest gives the
      answer for s, and so does the scan with this fuel unless it runs out. */
  ghost predicate Scanned(raw: Values, s: string, varname: string, fuel: nat, done: string, rest: string) {
    && (forall b :: Substitutes(raw, rest, varname, b) ==> Substitutes(raw, s, varname, Prepend(done, b)))
    && (Substitute(raw, s, varname, fuel) != OutOfFuel ==>
          Substitute(raw, s, varname, fuel) == Prepend(done, Substitute(raw, rest, varname, fuel)))
  }

  lemma ScanStart(raw: Values, s: string, varname: string, fuel: nat)
    ensures Scanned(raw, s, varname, fuel, "", s)
  {
    forall b ensures Prepend("", b) == b {
      assert b.Text? ==> "" + b.s == b.s;
    }
  }

  lemma PrependTwice(p: string, q: string, b: Answer)
    ensures Prepend(p, Prepend(q, b)) == Prepend(p + q, b)
  {
    assert b.Text? ==> p + (q + b.s) == p + q + b.s;
  }

  lemma ScanCharacter(raw: Values, s: string, varname: string, fuel: nat, done: string, rest: string)
    requires Scanned(raw, s, varname, fuel, done, rest) && rest != "" && Reference(rest) == 0
    ensures Scanned(raw, s, varname, fuel, done + rest[..1], rest[1..])
  {
    forall b | Substitutes(raw, rest[1..], varname, b)
      ensures Substitutes(raw, s, varname, Prepend(done + rest[..1], b))
    {
      var k: nat :| Substitute(raw, rest[1..], varname, k) == b;
      assert Substitute(raw, rest, varname, k) == Prepend(rest[..1], b);
      PrependTwice(done, rest[..1], b);
    }
    PrependTwice(done, rest[..1], Substitute(raw, rest[1..], varname, fuel));
  }

  /** What a reference with this answer is replaced by. */
  function Replacement(reference: string, v: Answer): string
    requires v.Undefined? || v.Text?
  {
    if v.Text? then v.s else reference
  }

  lemma ScanReference(raw: Values, s: string, varname: string, fuel: nat, done: string, rest: string, v: Answer)
    requires Scanned(raw, s, varname, fuel, done, rest) && rest != "" && Reference(rest) > 0
    requires varname == "" || rest[2..Reference(rest)-1] != varname
    requires Gets(raw, rest[2..Reference(rest)-1], v) && (v.Undefined? || v.Text?)
    requires GetVar(raw, rest[2..Reference(rest)-1], fuel) in {OutOfFuel, v}
    ensures Scanned(raw, s, varname, fuel, done + Replacement(rest[..Reference(rest)], v), rest[Reference(rest)..])
  {
    var n := Reference(rest);
    var key, piece := rest[2..n-1], Replacement(rest[..n], v);
    forall b | Substitutes(raw, rest[n..], varname, b)
      ensures Substitutes(raw, s, varname, Prepend(done + piece, b))
    {
      var k: nat :| Substitute(raw, rest[n..], varname, k) == b;
      var l: nat :| GetVar(raw, key, l) == v;
      var m := Max(k, l);
      MoreFuelSubstitute(raw, rest[n..], varname, k, m);
      MoreFuelGetVar(raw, key, l, m);
      assert Substitute(raw, rest, varname, m) == Prepend(piece, b);
      PrependTwice(done, piece, b);
    }
    PrependTwice(done, piece, Substitute(raw, rest[n..], varname, fuel));
  }

  /** The scan ends here with an answer that is no text. */
  lemma ScanStops(raw: Values, s: string, varname: string, fuel: nat, done: string, rest: string, v: Answer)
    requires Scanned(raw, s, varname, fuel, done, rest) && rest != "" && Reference(rest) > 0
    requires !v.Undefined? && !v.Text?
    requires
      var key := rest[2..Reference(rest)-1];
      if varname != "" && key == varname then v == SelfReference
      else (v != OutOfFuel ==> Gets(raw, key, v)) && GetVar(raw, key, fuel) in {OutOfFuel, v}
    ensures v != OutOfFuel ==> Substitutes(raw, s, varname, v)
    ensures Substitute(raw, s, varname, fuel) in {OutOfFuel, v}
  {
    if v != OutOfFuel {
      var key := rest[2..Reference(rest)-1];
      if varname != "" && key == varname {
        assert Substitute(raw, rest, varname, fuel) == v;
      } else {
        var l: nat :| GetVar(raw, key, l) == v;
        assert Substitute(raw, rest, varname, l) == v;
      }
      assert Prepend(done, v) == v;
    }
  }

  lemma ScanEnds(raw: Values, s: string, varname: string, fuel: nat, done: string)
    requires Scanned(raw, s, varname, fuel, done, "")
    ensures Substitutes(raw, s, varname, Text(done))
    ensures Substitute(raw, s, varname, fuel) in {OutOfFuel, Text(done)}
  {
    assert Substitute(raw, "", varname, fuel) == Text("");
    assert Substitutes(raw, "", varname, Text(""));
    assert Prepend(done, Text("")) == Text(done);
  }

  // --- an expansion in progress ---

  /** After some rounds s has become now: every answer for now is the answer for s. */
  ghost predicate Rounds(raw: Values, s: string, varname: string, fuel: nat, now: string, left: nat) {
    && (forall b :: Expands(raw, now, varname, b) ==> Expands(raw, s, varname, b))
    && (Expand(raw, s, varname, fuel) != OutOfFuel ==>
          Expand(raw, s, varname, fuel) == Expand(raw, now, varname, left))
  }

  lemma NoRoundYet(raw: Values, s: string, varname: string, fuel: nat)
    ensures Rounds(raw, s, varname, fuel, s, fuel)
  {
  }

  lemma OutOfRounds(raw: Values, s: string, varname: string, fuel: nat, now: string)
    requires Rounds(raw, s, varname, fuel, now, 0) && HasOpening(now)
    ensures Expand(raw, s, varname, fuel) == OutOfFuel
  {
  }

  lemma NextRound(raw: Values, s: string, varname: string, fuel: nat, now: string, left: nat, t: string)
    requires Rounds(raw, s, varname, fuel, now, left) && HasOpening(now) && left > 0
    requires Substitutes(raw, now, varname, Text(t)) && !HasPython(t) && t != now
    requires Substitute(raw, now, varname, left - 1) in {OutOfFuel, Text(t)}
    ensures Rounds(raw, s, varname, fuel, t, left - 1)
  {
    assert Expand(raw, now, varname, left) ==
           Continue(raw, now, Substitute(raw, now, varname, left - 1), varname, left - 1);
    forall b | Expands(raw, t, varname, b) ensures Expands(raw, s, varname, b) {
      ExpandsRound(raw, now, varname, t, b);
    }
  }

  lemma LastRound(raw: Values, s: string, varname: string, fuel: nat, now: string, left: nat, t: Answer)
    requires Rounds(raw, s, varname, fuel, now, left) && HasOpening(now) && left > 0
    requires t != OutOfFuel ==> Substitutes(raw, now, varname, t)
    requires Substitute(raw, now, varname, left - 1) in {OutOfFuel, t}
    requires t.Text? ==> HasPython(t.s) || t.s == now
    ensures
      var a := if t.Text? && HasPython(t.s) then NeedsPython else t;
      (a != OutOfFuel ==> Expands(raw, s, varname, a)) && Expand(raw, s, varname, fuel) in {OutOfFuel, a}
  {
    assert Expand(raw, now, varname, left) ==
           Continue(raw, now, Substitute(raw, now, varname, left - 1), varname, left - 1);
    if t != OutOfFuel {
      ExpandsLast(raw, now, varname, t);
    }
  }

  lemma NoRound(raw: Values, s: string, varname: string, fuel: nat, now: string, left: nat)
    requires Rounds(raw, s, varname, fuel, now, left) && !HasOpening(now)
    ensures Expands(raw, s, varname, Text(now)) && Expand(raw, s, varname, fuel) in {OutOfFuel, Text(now)}
  {
    assert Expand(raw, now, varname, left) == Text(now);
  }

  /** The answer with any fuel is the one answer, or none. */
  lemma AnyFuel(raw: Values, s: string, varname: string, fuel: nat, a: Answer)
    requires Expands(raw, s, varname, a)
    ensures Expand(raw, s, varname, fuel) in {OutOfFuel, a}
  {
    if Expand(raw, s, varname, fuel) != OutOfFuel {
      ExpandsUnique(raw, s, varname, a, Expand(raw, s, varname, fuel));
    }
  }
}
