/** Version comparison: explode_version, vercmp_part and vercmp. */
module Versions {
  import opened Wrappers

  /** A run of digits or a run of letters. */
  datatype Part = Number(n: nat) | Word(s: string)

  predicate IsDigit(c: char) { '0' <= c <= '9' }

  predicate IsLetter(c: char) { 'a' <= c <= 'z' || 'A' <= c <= 'Z' }

  /** The length of the run of digits at the start of s. */
  function DigitRun(s: string): (n: nat)
    ensures n <= |s| && (forall i :: 0 <= i < n ==> IsDigit(s[i])) && (n < |s| ==> !IsDigit(s[n]))
  {
    if s != "" && IsDigit(s[0]) then 1 + DigitRun(s[1..]) else 0
  }

  function LetterRun(s: string): (n: nat)
    ensures n <= |s| && (forall i :: 0 <= i < n ==> IsLetter(s[i])) && (n < |s| ==> !IsLetter(s[n]))
  {
    if s != "" && IsLetter(s[0]) then 1 + LetterRun(s[1..]) else 0
  }

  /** int(s) */
  function ToInt(s: string): nat
    requires forall i :: 0 <= i < |s| ==> IsDigit(s[i])
  {
    if s == "" then 0
    else
      assert IsDigit(s[|s|-1]);
      ToInt(s[..|s|-1]) * 10 + (s[|s|-1] as int - '0' as int)
  }

  /** The length of what one round takes off the front of s. */
  function Step(s: string): (n: nat)
    requires s != ""
    ensures 0 < n <= |s|
  {
    if IsDigit(s[0]) then DigitRun(s) else if IsLetter(s[0]) then LetterRun(s) else 1
  }

  /** What one round adds. */
  function Front(s: string): seq<Part>
    requires s != ""
  {
    if IsDigit(s[0]) then [Number(ToInt(s[..Step(s)]))]
    else if IsLetter(s[0]) then [Word(s[..Step(s)])]
    else []
  }

  /** The runs of digits and letters of s, in order; everything else separates. */
  function Explode(s: string): seq<Part> {
    if s == "" then [] else Front(s) + Explode(s[Step(s)..])
  }

  predicate IsSeparator(c: char) { !IsDigit(c) && !IsLetter(c) }

  lemma {:induction false} RunsStop(s: string, rest: string)
    requires rest != "" && IsSeparator(rest[0])
    ensures DigitRun(s + rest) == DigitRun(s) && LetterRun(s + rest) == LetterRun(s)
  {
    if s == "" {
      assert s + rest == rest;
    } else {
      assert (s + rest)[1..] == s[1..] + rest;
      RunsStop(s[1..], rest);
    }
  }

  /** Separators split a version: the parts on either side do not interfere. */
  lemma {:induction false} ExplodeSplits(a: string, c: char, b: string)
    requires IsSeparator(c)
    ensures Explode(a + [c] + b) == Explode(a) + Explode(b)
    decreases |a|
  {
    var rest := [c] + b;
    assert a + [c] + b == a + rest;
    if a == "" {
      assert a + rest == rest && rest[1..] == b;
    } else {
      FrontStops(a, rest);
      hide Front, Step;
      var n := Step(a);
      assert (a + rest)[n..] == a[n..] + [c] + b;
      ExplodeSplits(a[n..], c, b);
    }
  }

  lemma FrontStops(a: string, rest: string)
    requires a != "" && rest != "" && IsSeparator(rest[0])
    ensures Step(a + rest) == Step(a) && Front(a + rest) == Front(a)
  {
    RunsStop(a, rest);
    assert (a + rest)[..Step(a)] == a[..Step(a)];
  }

  // --- explode_version ---

  /** (.*)$ at the start of s: the dot matches no line end, and the dollar sign also
      matches before a line end at the very end. */
  function Rest(s: string): (r: Option<string>)
    ensures r.Some? ==> |r.value| <= |s|
  {
    if '\n' !in s then Some(s)
    else if s[|s|-1] == '\n' && '\n' !in s[..|s|-1] then Some(s[..|s|-1])
    else None
  }

  /** A line end behind the first digit or letter is the last character. */
  predicate Readable(s: string) {
    forall i, j :: 0 <= i < j < |s| && !IsSeparator(s[i]) && s[j] == '\n' ==> j == |s| - 1
  }

  lemma RestReads(s: string, n: nat)
    requires 0 < n <= |s| && !IsSeparator(s[0]) && '\n' !in s[..n]
    ensures Readable(s) <==> Rest(s[n..]).Some?
    ensures Rest(s[n..]).Some? ==> Readable(Rest(s[n..]).value) && Explode(Rest(s[n..]).value) == Explode(s[n..])
  {
    var u := s[n..];
    forall k | 0 <= k < n ensures s[k] != '\n' {
      assert s[k] == s[..n][k];
    }
    if Rest(u).None? {
      var k :| 0 <= k < |u| && u[k] == '\n' && k < |u| - 1;
      assert s[n + k] == '\n';
    } else if '\n' in u {
      var v := Rest(u).value;
      assert forall k :: 0 <= k < |v| ==> v[k] == u[k] == s[n + k] && v[k] != '\n';
      assert u == v + ['\n'] + "";
      ExplodeSplits(v, '\n', "");
      assert Explode(v) + [] == Explode(v);
    } else {
      assert forall k :: n <= k < |s| ==> s[k] == u[k - n];
    }
  }

  /** One round that starts with a digit or a letter. */
  lemma RunReads(s: string)
    requires s != "" && !IsSeparator(s[0])
    ensures
      var rest := Rest(s[Step(s)..]);
      && (Readable(s) <==> rest.Some?)
      && (rest.Some? ==> Readable(rest.value) && Explode(s) == Front(s) + Explode(rest.value))
  {
    var n := Step(s);
    assert forall k :: 0 <= k < n ==> IsDigit(s[k]) || IsLetter(s[k]);
    hide Front, Readable, Rest, Step;
    RestReads(s, n);
  }

  lemma SeparatorReads(s: string)
    requires s != "" && IsSeparator(s[0])
    ensures (Readable(s) <==> Readable(s[1..])) && Explode(s) == Explode(s[1..])
  {
    assert [] + Explode(s[1..]) == Explode(s[1..]);
    if Readable(s[1..]) {
      forall i, j | 0 <= i < j < |s| && !IsSeparator(s[i]) && s[j] == '\n' ensures j == |s| - 1 {
        assert s[1..][i-1] == s[i] && s[1..][j-1] == s[j];
      }
    }
  }

  lemma NothingToRead()
    ensures Readable("") && Explode("") == []
  {
  }

  /** explode_version; it raises when a pattern does not match. */
  method ExplodeVersion(version: string) returns (r: Option<seq<Part>>)
    ensures r == if Readable(version) then Some(Explode(version)) else None
  {
    hide Readable, Rest, Explode;
    var parts := [];
    var s := version;
    while s != ""
      invariant Explode(version) == parts + Explode(s)
      invariant Readable(version) <==> Readable(s)
      decreases |s|
    {
      if IsDigit(s[0]) {
        var n := DigitRun(s);
        var rest := Rest(s[n..]);
        RunReads(s);
        if rest.None? {
          return None;
        }
        parts := parts + [Number(ToInt(s[..n]))];
        s := rest.value;
      } else if IsLetter(s[0]) {
        var n := LetterRun(s);
        var rest := Rest(s[n..]);
        RunReads(s);
        if rest.None? {
          return None;
        }
        parts := parts + [Word(s[..n])];
        s := rest.value;
      } else {
        SeparatorReads(s);
        s := s[1..];
      }
    }
    NothingToRead();
    assert parts + [] == parts;
    r := Some(parts);
  }

  // --- the order ---

  function Sign(d: int): int { if d < 0 then -1 else if d > 0 then 1 else 0 }

  /** Strings compare character by character; a proper prefix comes first. */
  function CompareStrings(a: string, b: string): (r: int)
    ensures r in {-1, 0, 1}
    ensures r == 0 <==> a == b
  {
    if a == "" then (if b == "" then 0 else -1)
    else if b == "" then 1
    else if a[0] != b[0] then Sign(a[0] as int - b[0] as int)
    else
      assert a == [a[0]] + a[1..] && b == [b[0]] + b[1..];
      CompareStrings(a[1..], b[1..])
  }

  /** Every number is less than every word. */
  function ComparePart(a: Part, b: Part): (r: int)
    ensures r in {-1, 0, 1}
    ensures r == 0 <==> a == b
  {
    match (a, b)
    case (Number(m), Number(n)) => Sign(m - n)
    case (Word(s), Word(t)) => CompareStrings(s, t)
    case (Number(_), Word(_)) => -1
    case (Word(_), Number(_)) => 1
  }

  /** A missing part is less than every part. */
  function CompareOption(a: Option<Part>, b: Option<Part>): (r: int)
    ensures r in {-1, 0, 1}
    ensures r == 0 <==> a == b
  {
    match (a, b)
    case (None, None) => 0
    case (None, Some(_)) => -1
    case (Some(_), None) => 1
    case (Some(x), Some(y)) => ComparePart(x, y)
  }

  /** Lexicographic comparison of exploded versions. */
  function CompareParts(a: seq<Part>, b: seq<Part>): (r: int)
    ensures r in {-1, 0, 1}
    ensures r == 0 <==> a == b
    decreases |a| + |b|
  {
    if a == [] && b == [] then 0
    else if a == [] then -1
    else if b == [] then 1
    else if ComparePart(a[0], b[0]) != 0 then ComparePart(a[0], b[0])
    else
      assert a == [a[0]] + a[1..] && b == [b[0]] + b[1..];
      CompareParts(a[1..], b[1..])
  }

  lemma {:induction false} StringsTurn(a: string, b: string)
    ensures CompareStrings(b, a) == -CompareStrings(a, b)
  {
    if a != "" && b != "" && a[0] == b[0] {
      StringsTurn(a[1..], b[1..]);
    }
  }

  lemma {:induction false} StringsChain(a: string, b: string, c: string)
    requires CompareStrings(a, b) <= 0 && CompareStrings(b, c) <= 0
    ensures CompareStrings(a, c) <= 0
    ensures CompareStrings(a, b) < 0 || CompareStrings(b, c) < 0 ==> CompareStrings(a, c) < 0
  {
    if a != "" && b != "" && c != "" && a[0] == b[0] == c[0] {
      StringsChain(a[1..], b[1..], c[1..]);
    }
  }

  lemma PartsTurn(a: Part, b: Part)
    ensures ComparePart(b, a) == -ComparePart(a, b)
  {
    if a.Word? && b.Word? {
      StringsTurn(a.s, b.s);
    }
  }

  lemma PartsChain(a: Part, b: Part, c: Part)
    requires ComparePart(a, b) <= 0 && ComparePart(b, c) <= 0
    ensures ComparePart(a, c) <= 0
    ensures ComparePart(a, b) < 0 || ComparePart(b, c) < 0 ==> ComparePart(a, c) < 0
  {
    if a.Word? && b.Word? && c.Word? {
      StringsChain(a.s, b.s, c.s);
    }
  }

  lemma {:induction false} CompareTurns(a: seq<Part>, b: seq<Part>)
    ensures CompareParts(b, a) == -CompareParts(a, b)
    decreases |a| + |b|
  {
    if a != [] && b != [] {
      PartsTurn(a[0], b[0]);
      if a[0] == b[0] {
        CompareTurns(a[1..], b[1..]);
      }
    }
  }

  lemma {:induction false} CompareChains(a: seq<Part>, b: seq<Part>, c: seq<Part>)
    requires CompareParts(a, b) <= 0 && CompareParts(b, c) <= 0
    ensures CompareParts(a, c) <= 0
    ensures CompareParts(a, b) < 0 || CompareParts(b, c) < 0 ==> CompareParts(a, c) < 0
    decreases |a| + |b| + |c|
  {
    if a != [] && b != [] && c != [] {
      PartsChain(a[0], b[0], c[0]);
      if a[0] == b[0] == c[0] {
        CompareChains(a[1..], b[1..], c[1..]);
      }
    }
  }

  /** vercmp_part; it raises when a text cannot be taken apart. */
  method VercmpPart(a: string, b: string) returns (r: Option<int>)
    ensures r == if Readable(a) && Readable(b) then Some(CompareParts(Explode(a), Explode(b))) else None
  {
    var exploded := ExplodeVersion(a);
    if exploded.None? {
      return None;
    }
    var va := exploded.value;
    exploded := ExplodeVersion(b);
    if exploded.None? {
      return None;
    }
    var vb := exploded.value;
    while true
      invariant CompareParts(Explode(a), Explode(b)) == CompareParts(va, vb)
      decreases |va| + |vb|
    {
      var ca, cb := None, None;
      if va != [] {
        ca, va := Some(va[0]), va[1..];
      }
      if vb != [] {
        cb, vb := Some(vb[0]), vb[1..];
      }
      if ca == None && cb == None {
        return Some(0);
      }
      if CompareOption(ca, cb) > 0 {
        return Some(1);
      }
      if CompareOption(ca, cb) < 0 {
        return Some(-1);
      }
    }
  }

  // --- whole versions ---

  predicate AllDigits(s: string) { forall i :: 0 <= i < |s| ==> IsDigit(s[i]) }

  predicate IsBlank(c: char) { c == ' ' || '\t' <= c <= '\r' }

  function Trimmed(s: string): string
    decreases |s|
  {
    if s != "" && IsBlank(s[0]) then Trimmed(s[1..])
    else if s != "" && IsBlank(s[|s|-1]) then Trimmed(s[..|s|-1])
    else s
  }

  /** int(s): digits, perhaps with a sign and blanks around them; None where it raises. */
  function ParseInt(s: string): Option<int> {
    SignedInt(Trimmed(s))
  }

  function SignedInt(t: string): Option<int> {
    var digits := if t != "" && t[0] in "+-" then t[1..] else t;
    if digits == "" || !AllDigits(digits) then None
    else
      var n: int := ToInt(digits);
      Some(if t[0] == '-' then -n else n)
  }

  /** (pe, pv, pr), three texts */
  datatype Version = Version(epoch: string, version: string, revision: string) {
    /** The epoch as a number; meaningful where int() does not raise. */
    function Epoch(): int {
      match ParseInt(epoch)
      case Some(n) => n
      case None => 0
    }

    /** It can be compared with every other such version. */
    predicate Sound() {
      ParseInt(epoch).Some? && Readable(version) && Readable(revision)
    }
  }

  /** The sign of vercmp: epoch first, then version, then revision. */
  function Compare(a: Version, b: Version): (r: int)
    ensures r in {-1, 0, 1}
  {
    if a.Epoch() != b.Epoch() then Sign(a.Epoch() - b.Epoch())
    else if CompareParts(Explode(a.version), Explode(b.version)) != 0 then
      CompareParts(Explode(a.version), Explode(b.version))
    else CompareParts(Explode(a.revision), Explode(b.revision))
  }

  /** Each text that the comparison gets to can be read. */
  predicate Comparable(a: Version, b: Version) {
    && ParseInt(a.epoch).Some? && ParseInt(b.epoch).Some?
    && (a.Epoch() == b.Epoch() ==>
          && Readable(a.version) && Readable(b.version)
          && (Explode(a.version) == Explode(b.version) ==> Readable(a.revision) && Readable(b.revision)))
  }

  /** vercmp; it raises when a text that it gets to cannot be read. */
  method Vercmp(ta: Version, tb: Version) returns (r: Option<int>)
    ensures r.Some? <==> Comparable(ta, tb)
    ensures r.Some? ==> Sign(r.value) == Compare(ta, tb)
  {
    var ea, eb := ParseInt(ta.epoch), ParseInt(tb.epoch);
    if ea.None? || eb.None? {
      return None;
    }
    r := Some(ea.value - eb.value);
    if r == Some(0) {
      r := VercmpPart(ta.version, tb.version);
    }
    if r == Some(0) {
      r := VercmpPart(ta.revision, tb.revision);
    }
  }

  /** The order is total: turning the arguments turns the sign. */
  lemma VersionsTurn(a: Version, b: Version)
    ensures Compare(b, a) == -Compare(a, b)
  {
    CompareTurns(Explode(a.version), Explode(b.version));
    CompareTurns(Explode(a.revision), Explode(b.revision));
  }

  /** It is transitive, strictly so when one of the steps is strict. */
  lemma VersionsChain(a: Version, b: Version, c: Version)
    requires Compare(a, b) <= 0 && Compare(b, c) <= 0
    ensures Compare(a, c) <= 0
    ensures Compare(a, b) < 0 || Compare(b, c) < 0 ==> Compare(a, c) < 0
  {
    var u, v, w := Explode(a.version), Explode(b.version), Explode(c.version);
    var x, y, z := Explode(a.revision), Explode(b.revision), Explode(c.revision);
    if a.Epoch() == b.Epoch() == c.Epoch() {
      CompareChains(u, v, w);
      if CompareParts(u, v) == 0 && CompareParts(v, w) == 0 {
        CompareChains(x, y, z);
      }
    }
  }

  /** Two versions are equal to it exactly when epoch and exploded parts are. */
  lemma EqualVersions(a: Version, b: Version)
    ensures Compare(a, b) == 0 <==>
      a.Epoch() == b.Epoch() && Explode(a.version) == Explode(b.version) && Explode(a.revision) == Explode(b.revision)
  {
  }

  // --- what the order means for written versions ---

  /** The character classes, by their codes. */
  lemma CharacterClasses(c: char)
    ensures IsDigit(c) <==> 48 <= c as int <= 57
    ensures IsLetter(c) <==> 65 <= c as int <= 90 || 97 <= c as int <= 122
    ensures IsSeparator(c) <==> !IsDigit(c) && !IsLetter(c)
    ensures IsBlank(c) <==> c as int in {32, 9, 10, 11, 12, 13}
  {
  }

  /** n in decimal notation. */
  function Decimal(n: nat): (s: string)
    ensures s != "" && forall i :: 0 <= i < |s| ==> IsDigit(s[i])
  {
    var last := ["0123456789"[n % 10]];
    if n < 10 then last else Decimal(n / 10) + last
  }

  /** Reading a number inverts writing it. */
  lemma {:induction false} ToIntDecimal(n: nat)
    ensures ToInt(Decimal(n)) == n
  {
    var s, last := Decimal(n), "0123456789"[n % 10];
    assert last as int - '0' as int == n % 10;
    if n < 10 {
      assert s[..0] == "";
    } else {
      assert s[..|s|-1] == Decimal(n / 10) && s[|s|-1] == last;
      ToIntDecimal(n / 10);
    }
  }

  /** Leading zeros do not count. */
  lemma {:induction false} LeadingZero(s: string)
    requires forall i :: 0 <= i < |s| ==> IsDigit(s[i])
    ensures ToInt("0" + s) == ToInt(s)
  {
    var z := "0" + s;
    if s == "" {
      assert z[..|z|-1] == "" && z[|z|-1] == '0';
    } else {
      assert z[..|z|-1] == "0" + s[..|s|-1] && z[|z|-1] == s[|s|-1];
      LeadingZero(s[..|s|-1]);
    }
  }

  predicate AllLetters(s: string) { forall i :: 0 <= i < |s| ==> IsLetter(s[i]) }

  lemma DigitRunIs(s: string, rest: string)
    requires AllDigits(s) && (rest == "" || !IsDigit(rest[0]))
    ensures DigitRun(s + rest) == |s|
  {
    var n := DigitRun(s + rest);
    hide DigitRun;
    assert forall i :: 0 <= i < |s| ==> (s + rest)[i] == s[i];
    assert rest != "" ==> (s + rest)[|s|] == rest[0];
  }

  lemma LetterRunIs(s: string, rest: string)
    requires AllLetters(s) && (rest == "" || !IsLetter(rest[0]))
    ensures LetterRun(s + rest) == |s|
  {
    var n := LetterRun(s + rest);
    hide LetterRun;
    assert forall i :: 0 <= i < |s| ==> (s + rest)[i] == s[i];
    assert rest != "" ==> (s + rest)[|s|] == rest[0];
  }

  /** A run of digits is one number, up to what follows it. */
  lemma ExplodeDigits(s: string, rest: string)
    requires s != "" && AllDigits(s) && (rest == "" || !IsDigit(rest[0]))
    ensures Explode(s + rest) == [Number(ToInt(s))] + Explode(rest)
  {
    DigitRunIs(s, rest);
    var t := s + rest;
    assert t[0] == s[0] && t[..|s|] == s && t[|s|..] == rest;
    hide DigitRun, ToInt;
    assert Step(t) == |s|;
  }

  /** A run of letters is one word. */
  lemma ExplodeLetters(s: string, rest: string)
    requires s != "" && AllLetters(s) && (rest == "" || !IsLetter(rest[0]))
    ensures Explode(s + rest) == [Word(s)] + Explode(rest)
  {
    LetterRunIs(s, rest);
    var t := s + rest;
    assert t[0] == s[0] && t[..|s|] == s && t[|s|..] == rest;
    hide LetterRun;
    assert Step(t) == |s|;
  }

  lemma ExplodeNumber(n: nat)
    ensures Explode(Decimal(n)) == [Number(n)]
  {
    hide Explode, Decimal;
    ExplodeDigits(Decimal(n), "");
    ToIntDecimal(n);
    assert Decimal(n) + "" == Decimal(n);
    NothingToRead();
  }

  lemma ExplodeWord(w: string)
    requires w != "" && AllLetters(w)
    ensures Explode(w) == [Word(w)]
  {
    hide Explode;
    ExplodeLetters(w, "");
    assert w + "" == w;
    NothingToRead();
  }

  lemma {:induction false} CommonParts(x: seq<Part>, a: seq<Part>, b: seq<Part>)
    ensures CompareParts(x + a, x + b) == CompareParts(a, b)
  {
    if x == [] {
      assert x + a == a && x + b == b;
    } else {
      assert (x + a)[1..] == x[1..] + a && (x + b)[1..] == x[1..] + b;
      CommonParts(x[1..], a, b);
    }
  }

  lemma AfterDot(a: string, b: string)
    ensures Explode(a + "." + b) == Explode(a) + Explode(b)
  {
    ExplodeSplits(a, '.', b);
  }

  /** Numbers decide by their value: 1.10 is later than 1.9. */
  lemma NumbersDecide(a: string, m: nat, n: nat)
    ensures CompareParts(Explode(a + "." + Decimal(m)), Explode(a + "." + Decimal(n))) == Sign(m - n)
  {
    AfterDot(a, Decimal(m));
    AfterDot(a, Decimal(n));
    ExplodeNumber(m);
    ExplodeNumber(n);
    CommonParts(Explode(a), [Number(m)], [Number(n)]);
    hide Explode, Decimal;
    assert CompareParts([Number(m)], [Number(n)]) == Sign(m - n);
  }

  /** A longer version is later than its beginning. */
  lemma LongerIsLater(a: string, n: nat)
    ensures CompareParts(Explode(a), Explode(a + "." + Decimal(n))) == -1
  {
    AfterDot(a, Decimal(n));
    ExplodeNumber(n);
    CommonParts(Explode(a), [], [Number(n)]);
    hide Explode, Decimal;
    assert Explode(a) + [] == Explode(a);
  }

  /** Numbers come before words. */
  lemma NumberBeforeWord(a: string, n: nat, w: string)
    requires w != "" && AllLetters(w)
    ensures CompareParts(Explode(a + "." + Decimal(n)), Explode(a + "." + w)) == -1
  {
    AfterDot(a, Decimal(n));
    AfterDot(a, w);
    ExplodeNumber(n);
    ExplodeWord(w);
    CommonParts(Explode(a), [Number(n)], [Word(w)]);
  }

  lemma {:induction false} FirstDifference(p: string, c: char, x: string, d: char, y: string)
    requires c < d
    ensures CompareStrings(p + [c] + x, p + [d] + y) == -1 && CompareStrings(p, p + [c] + x) == -1
  {
    if p == "" {
      assert p + [c] + x == [c] + x && p + [d] + y == [d] + y;
    } else {
      assert (p + [c] + x)[1..] == p[1..] + [c] + x && (p + [d] + y)[1..] == p[1..] + [d] + y;
      FirstDifference(p[1..], c, x, d, y);
    }
  }

  /** Words decide by their first difference, and a word is later than its beginning. */
  lemma WordsDecide(a: string, p: string, c: char, x: string, d: char, y: string)
    requires AllLetters(p + [c] + x) && AllLetters(p + [d] + y) && c < d
    ensures CompareParts(Explode(a + "." + (p + [c] + x)), Explode(a + "." + (p + [d] + y))) == -1
    ensures p != "" ==> CompareParts(Explode(a + "." + p), Explode(a + "." + (p + [c] + x))) == -1
  {
    var u, v := p + [c] + x, p + [d] + y;
    FirstDifference(p, c, x, d, y);
    AfterDot(a, u);
    AfterDot(a, v);
    ExplodeWord(u);
    ExplodeWord(v);
    CommonParts(Explode(a), [Word(u)], [Word(v)]);
    if p != "" {
      assert forall i :: 0 <= i < |p| ==> p[i] == u[i];
      AfterDot(a, p);
      ExplodeWord(p);
      CommonParts(Explode(a), [Word(p)], [Word(u)]);
    }
  }

  /** int() reads decimal numbers, with a sign if there is one. */
  lemma IntsAreRead(n: nat)
    ensures
      var k: int := n;
      && ParseInt(Decimal(n)) == ParseInt("+" + Decimal(n)) == Some(k)
      && ParseInt("-" + Decimal(n)) == Some(-k)
  {
    var s := Decimal(n);
    hide Decimal;
    ToIntDecimal(n);
    assert !IsBlank(s[0]) && !IsBlank(s[|s|-1]);
    assert ("-" + s)[1..] == s == ("+" + s)[1..];
  }

  /** Blanks around it make no difference. */
  lemma BlanksAreSkipped(s: string, c: char)
    requires IsBlank(c)
    ensures ParseInt([c] + s) == ParseInt(s) && ParseInt(s + [c]) == ParseInt(s)
  {
    assert ([c] + s)[1..] == s;
    assert Trimmed([c] + s) == Trimmed(s);
    TrimmedAtEnd(s, c);
  }

  lemma {:induction false} TrimmedAtEnd(s: string, c: char)
    requires IsBlank(c)
    ensures Trimmed(s + [c]) == Trimmed(s)
    decreases |s|
  {
    var t := s + [c];
    assert t[..|s|] == s;
    if s == "" {
      assert t[1..] == "";
    } else if IsBlank(s[0]) {
      assert t[1..] == s[1..] + [c];
      TrimmedAtEnd(s[1..], c);
    }
  }

  /** Without blanks around it, exactly digits are read, with a sign or without. */
  lemma WhatIsRead(s: string)
    requires s != "" ==> !IsBlank(s[0]) && !IsBlank(s[|s|-1])
    ensures ParseInt(s).Some? <==>
      (s != "" && AllDigits(s)) || (|s| >= 2 && (s[0] == '+' || s[0] == '-') && AllDigits(s[1..]))
  {
    assert Trimmed(s) == s;
    hide Trimmed;
    if s != "" && s[0] in "+-" {
      assert s[0] == '+' || s[0] == '-';
      assert !IsDigit(s[0]);
    }
  }

  /** The epoch decides first, by its value; then the version; then the revision. */
  lemma EpochDecides(m: nat, n: nat, v: string, w: string, r: string, q: string)
    ensures m < n ==> Compare(Version(Decimal(m), v, r), Version(Decimal(n), w, q)) == -1
    ensures CompareParts(Explode(v), Explode(w)) != 0 ==>
      Compare(Version(Decimal(m), v, r), Version(Decimal(m), w, q)) == CompareParts(Explode(v), Explode(w))
    ensures Compare(Version(Decimal(m), v, r), Version(Decimal(m), v, q)) == CompareParts(Explode(r), Explode(q))
  {
    IntsAreRead(m);
    IntsAreRead(n);
  }
}
