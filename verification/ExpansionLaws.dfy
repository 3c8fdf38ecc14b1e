/** What ${NAME} expansion does, said in terms of texts: what counts as a reference, as an
opening and as a Python expression, and what becomes of a reference. */
module ExpansionLaws {
  import opened Expansion
  import opened AcyclicStores

  /** A name: not empty, and without braces. */
  predicate IsName(key: string) {
    key != "" && forall i :: 0 <= i < |key| ==> key[i] != '{' && key[i] != '}'
  }

  /** s begins with ${key}. */
  predicate StartsWith(s: string, key: string) {
    IsName(key) && "${" + key + "}" <= s
  }

  /** A match at the start is exactly a name between ${ and }. */
  lemma ReferenceIsName(s: string, key: string)
    ensures StartsWith(s, key) ==> Reference(s) == |key| + 3
    ensures Reference(s) == 0 ==> !StartsWith(s, key)
    ensures Reference(s) > 0 ==> StartsWith(s, s[2..Reference(s)-1])
  {
    if StartsWith(s, key) {
      var t := "${" + key + "}";
      assert s[..|t|] == t && |t| == |key| + 3;
      assert forall i :: 0 <= i < |t| ==> s[i] == t[i];
      assert forall i :: 0 <= i < |key| ==> s[2..][i] == t[i+2] == key[i];
      assert s[2..][|key|] == t[|t|-1];
      NameLengthAt(s[2..], |key|);
    }
    if Reference(s) > 0 {
      var n := Reference(s);
      var name := s[2..n-1];
      assert forall i :: 0 <= i < |name| ==> name[i] == s[2..][i];
      assert "${" + name + "}" == s[..n];
    }
  }

  lemma {:induction false} OpeningMeans(s: string)
    ensures HasOpening(s) <==> exists i :: 0 <= i < |s| - 1 && s[i] == '$' && s[i+1] == '{'
  {
    if |s| >= 2 {
      OpeningMeans(s[1..]);
      if i :| 0 <= i < |s| - 1 && s[i] == '$' && s[i+1] == '{' {
        if i > 0 {
          assert s[1..][i-1] == '$' && s[1..][i-1+1] == '{';
        }
      }
      if HasOpening(s[1..]) {
        var i :| 0 <= i < |s[1..]| - 1 && s[1..][i] == '$' && s[1..][i+1] == '{';
        assert s[i+1] == '$' && s[i+1+1] == '{';
      }
    }
  }

  /** A Python expression ends at a } behind at least one other character, on the same line. */
  predicate PythonAt(s: string, i: nat, j: nat) {
    && i + 4 <= j < |s| && s[i] == '$' && s[i+1] == '{' && s[i+2] == '@' && s[j] == '}'
    && forall k :: i + 3 <= k < j ==> s[k] != '\n'
  }

  lemma {:induction false} ClosesMeans(s: string, first: bool)
    ensures ClosesLater(s, first) <==>
      exists j :: (if first then 1 else 0) <= j < |s| && s[j] == '}' && forall k :: 0 <= k < j ==> s[k] != '\n'
  {
    if s != "" {
      ClosesMeans(s[1..], false);
      if ClosesLater(s[1..], false) && s[0] != '\n' {
        var j :| 0 <= j < |s[1..]| && s[1..][j] == '}' && forall k :: 0 <= k < j ==> s[1..][k] != '\n';
        assert s[j+1] == '}' && forall k :: 0 < k < j + 1 ==> s[k] == s[1..][k-1];
      }
      if j :| (if first then 1 else 0) <= j < |s| && s[j] == '}' && forall k :: 0 <= k < j ==> s[k] != '\n' {
        if j > 0 {
          assert s[1..][j-1] == '}' && forall k :: 0 <= k < j - 1 ==> s[1..][k] == s[k+1];
        }
      }
    }
  }

  lemma {:induction false} PythonMeans(s: string)
    ensures HasPython(s) <==> exists i: nat, j: nat :: PythonAt(s, i, j)
  {
    if |s| >= 3 {
      PythonMeans(s[1..]);
      ClosesMeans(s[3..], true);
      hide ClosesLater;
      if HasPython(s[1..]) {
        var i: nat, j: nat :| PythonAt(s[1..], i, j);
        assert PythonAt(s, i + 1, j + 1);
      }
      if s[0] == '$' && s[1] == '{' && s[2] == '@' && ClosesLater(s[3..], true) {
        var j :| 1 <= j < |s[3..]| && s[3..][j] == '}' && forall k :: 0 <= k < j ==> s[3..][k] != '\n';
        assert forall k :: 3 <= k < j + 3 ==> s[k] == s[3..][k-3];
        assert PythonAt(s, 0, j + 3);
      }
      if i: nat, j: nat :| PythonAt(s, i, j) {
        if i > 0 {
          assert PythonAt(s[1..], i - 1, j - 1);
        } else {
          assert s[3..][j-3] == '}' && forall k :: 0 <= k < j - 3 ==> s[3..][k] == s[k+3];
        }
      }
    }
  }

  // --- one pass ---

  /** No reference starts in the first n characters of s. */
  ghost predicate NoneStarts(s: string, n: nat) {
    forall i, key :: 0 <= i < n && i <= |s| ==> !StartsWith(s[i..], key)
  }

  /** Text in front of the first reference is copied, and the reference gives way to what
      the variable expands to; an unknown one stays, and one to the variable itself is an
      error. */
  lemma PassReplaces(raw: Values, a: string, key: string, b: string, varname: string, fuel: nat)
    requires IsName(key) && NoneStarts(a + ("${" + key + "}" + b), |a|)
    ensures
      var reference, answer := "${" + key + "}", GetVar(raw, key, fuel);
      Substitute(raw, a + (reference + b), varname, fuel) ==
        if varname != "" && key == varname then SelfReference
        else if answer.Undefined? || answer.Text? then
          Prepend(a, Prepend(Replacement(reference, answer), Substitute(raw, b, varname, fuel)))
        else answer
  {
    var t := "${" + key + "}" + b;
    NoneStartsNoReference(a + t, |a|);
    PassCopies(raw, a, t, varname, fuel);
    assert "${" + key + "}" <= t;
    ReferenceIsName(t, key);
    assert t[..|key|+3] == "${" + key + "}" && t[|key|+3..] == b && t[2..|key|+2] == key;
    hide GetVar, Reference;
  }

  lemma NoneStartsNoReference(s: string, n: nat)
    requires n <= |s| && NoneStarts(s, n)
    ensures forall i :: 0 <= i < n ==> Reference(s[i..]) == 0
  {
    forall i | 0 <= i < n ensures Reference(s[i..]) == 0 {
      ReferenceIsName(s[i..], if Reference(s[i..]) > 0 then s[i..][2..Reference(s[i..])-1] else "");
    }
  }

  lemma NoDollarNoneStarts(a: string, t: string)
    requires '$' !in a
    ensures NoneStarts(a + t, |a|)
  {
    forall i, key | 0 <= i < |a| ensures !StartsWith((a + t)[i..], key) {
      assert (a + t)[i] == a[i];
      assert ("${" + key + "}")[0] == '$';
    }
  }

  // --- a whole expansion ---

  lemma PlainPass(raw: Values, b: string, varname: string, fuel: nat)
    requires '$' !in b
    ensures Substitute(raw, b, varname, fuel) == Text(b)
  {
    PassKeeps(raw, b, varname, fuel);
  }

  /** Without an opening nothing is Python. */
  lemma NoOpeningNoPython(s: string)
    requires !HasOpening(s)
    ensures !HasPython(s)
  {
    OpeningMeans(s);
    PythonMeans(s);
    forall i: nat, j: nat ensures !PythonAt(s, i, j) {
      assert !(i < |s| - 1 && s[i] == '$' && s[i+1] == '{');
    }
  }

  lemma OneReferenceOpens(a: string, key: string, b: string)
    ensures HasOpening(a + ("${" + key + "}" + b))
  {
    var s := a + ("${" + key + "}" + b);
    OpeningMeans(s);
    assert s[|a|] == '$' && s[|a|+1] == '{';
  }

  /** A value that one pass turns into text without openings. */
  lemma OneRound(raw: Values, v: string, t: string)
    requires v in raw && HasOpening(raw[v]) && Substitute(raw, raw[v], v, 0) == Text(t) && !HasOpening(t)
    ensures Gets(raw, v, Text(t))
  {
    NoOpeningNoPython(t);
    hide Substitute;
    assert Expand(raw, t, v, 0) == Text(t);
    assert GetVar(raw, v, 1) == Text(t);
  }

  /** The variable's value with the reference replaced. */
  lemma ReferenceIsReplaced(raw: Values, v: string, a: string, key: string, b: string)
    requires v in raw && raw[v] == a + ("${" + key + "}" + b) && '$' !in a && '$' !in b && IsName(key) && key != v
    requires key in raw && !HasOpening(raw[key]) && !HasOpening(a + raw[key] + b)
    ensures Gets(raw, v, Text(a + raw[key] + b))
  {
    var value := raw[key];
    hide HasPython, HasOpening, Substitute, GetVar, IsName;
    assert Substitute(raw, raw[v], v, 0) == Text(a + value + b) by {
      assert GetVar(raw, key, 0) == Text(value) by { PlainValue(raw, key); }
      NoDollarNoneStarts(a, "${" + key + "}" + b);
      PassReplaces(raw, a, key, b, v, 0);
      PlainPass(raw, b, v, 0);
      assert a + (value + b) == a + value + b;
    }
    OneReferenceOpens(a, key, b);
    OneRound(raw, v, a + value + b);
  }

  lemma PlainValue(raw: Values, key: string)
    requires key in raw && !HasOpening(raw[key])
    ensures GetVar(raw, key, 0) == Text(raw[key])
  {
  }

  /** When joined texts contain an opening, in texts of this form. */
  lemma NoOpeningAcross(a: string, t: string, b: string)
    requires '$' !in a && '$' !in b && !HasOpening(t)
    requires !(t != "" && b != "" && t[|t|-1] == '$' && b[0] == '{')
    ensures !HasOpening(a + t + b)
  {
    var s := a + t + b;
    OpeningMeans(s);
    OpeningMeans(t);
    forall i | 0 <= i < |s| - 1 ensures !(s[i] == '$' && s[i+1] == '{') {
      if i < |a| {
        assert s[i] == a[i];
      } else if i < |a| + |t| {
        assert s[i] == t[i-|a|];
        assert s[i+1] == if i + 1 < |a| + |t| then t[i+1-|a|] else b[0];
      } else {
        assert s[i] == b[i-|a|-|t|];
      }
    }
  }

  /** A reference to a variable without a value leaves the text as it is. */
  lemma UnknownReferenceStays(raw: Values, v: string, a: string, key: string, b: string)
    requires v in raw && raw[v] == a + ("${" + key + "}" + b) && '$' !in a && '$' !in b && IsName(key) && key != v
    requires key !in raw && key[0] != '@'
    ensures Gets(raw, v, Text(raw[v]))
  {
    var s := raw[v];
    NoDollarNoneStarts(a, "${" + key + "}" + b);
    PassReplaces(raw, a, key, b, v, 0);
    PlainPass(raw, b, v, 0);
    assert Prepend(a, Prepend("${" + key + "}", Text(b))) == Text(s);
    OneReferenceOpens(a, key, b);
    OnlyReferenceIsNoPython(a, key, b);
    hide HasOpening, HasPython, Substitute;
    assert Expand(raw, s, v, 1) == Text(s);
    assert GetVar(raw, v, 1) == Text(s);
  }

  lemma OnlyReferenceIsNoPython(a: string, key: string, b: string)
    requires '$' !in a && '$' !in b && IsName(key) && key[0] != '@'
    ensures !HasPython(a + ("${" + key + "}" + b))
  {
    var s := a + ("${" + key + "}" + b);
    PythonMeans(s);
    forall i: nat, j: nat ensures !PythonAt(s, i, j) {
      if i < |a| {
        assert s[i] == a[i];
      } else if |a| < i < |s| {
        assert s[|a|+2..|a|+2+|key|] == key && s[|a|+3+|key|..] == b;
        assert s[i] == if i == |a| + 1 then '{' else if i < |a| + 2 + |key| then key[i-|a|-2] else
          if i == |a| + 2 + |key| then '}' else b[i-|a|-|key|-3];
        assert |a| + 1 < i < |a| + 2 + |key| ==> s[i+1] != '{';
      } else if i == |a| {
        assert s[i+2] == key[0];
      }
    }
  }

  /** A variable whose value refers to itself is an error. */
  lemma SelfReferenceIsFound(raw: Values, v: string, a: string, b: string)
    requires v in raw && raw[v] == a + ("${" + v + "}" + b) && '$' !in a && IsName(v)
    ensures Gets(raw, v, SelfReference)
  {
    NoDollarNoneStarts(a, "${" + v + "}" + b);
    PassReplaces(raw, a, v, b, v, 0);
    OneReferenceOpens(a, v, b);
    hide Substitute, HasOpening;
    assert Expand(raw, raw[v], v, 1) == SelfReference;
    assert GetVar(raw, v, 1) == SelfReference;
  }

  /** A text in which no opening is followed by a name and a closing brace, and which is no
      Python either, stays as it is. */
  lemma NothingToReplace(raw: Values, s: string, varname: string)
    requires NoneStarts(s, |s|) && forall i: nat, j: nat :: !PythonAt(s, i, j)
    ensures Expands(raw, s, varname, Text(s))
  {
    assert s + "" == s;
    NoneStartsNoReference(s, |s|);
    PassCopies(raw, s, "", varname, 0);
    PythonMeans(s);
    hide HasOpening, HasPython, Substitute;
    assert Expand(raw, s, varname, 1) == Text(s);
  }
}
