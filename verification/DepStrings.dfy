/** Dependency strings: tokenize, flatten and dep_parenreduce. */
module DepStrings {
  import opened Wrappers

  /** An element of a nested list. */
  datatype Token = Atom(s: string) | List(items: seq<Token>)

  // --- lexical structure ---

  datatype Lexeme = Open | Close | Word(w: string)

  predicate IsSpace(c: char) {
    c in " \t\n\r" || c as int == 11 || c as int == 12
  }

  predicate IsPlain(c: char) { c != '(' && c != ')' && !IsSpace(c) }

  /** Space, tab, line feed, vertical tab, form feed and carriage return separate words. */
  lemma Separators(c: char)
    ensures IsSpace(c) <==> c as int in {32, 9, 10, 11, 12, 13}
    ensures IsPlain(c) <==> c as int !in {32, 9, 10, 11, 12, 13, 40, 41}
  {
    assert c in " \t\n\r" <==> c == ' ' || c == '\t' || c == '\n' || c == '\r';
  }

  function Flush(accum: string): seq<Lexeme> {
    if accum == "" then [] else [Word(accum)]
  }

  /** The lexemes of accum + s, where accum is a word begun. */
  function Lex(s: string, accum: string): seq<Lexeme> {
    if s == "" then Flush(accum)
    else if s[0] == '(' then Flush(accum) + [Open] + Lex(s[1..], "")
    else if s[0] == ')' then Flush(accum) + [Close] + Lex(s[1..], "")
    else if IsSpace(s[0]) then Flush(accum) + Lex(s[1..], "")
    else Lex(s[1..], accum + [s[0]])
  }

  // --- nesting ---

  /** Nesting the lexemes, with lists still open on the stack; None for a
      parenthesis without its partner. */
  function Nest(ls: seq<Lexeme>, cur: seq<Token>, stack: seq<seq<Token>>): Option<seq<Token>> {
    if ls == [] then (if stack == [] then Some(cur) else None)
    else
      match ls[0]
      case Open => Nest(ls[1..], [], stack + [cur])
      case Close =>
        if stack == [] then None
        else Nest(ls[1..], stack[|stack|-1] + [List(cur)], stack[..|stack|-1])
      case Word(w) => Nest(ls[1..], cur + [Atom(w)], stack)
  }

  /** The lexemes of a nested list. */
  function Spell(ts: seq<Token>): seq<Lexeme>
  {
    if ts == [] then []
    else
      (match ts[0]
       case Atom(s) => [Word(s)]
       case List(items) => [Open] + Spell(items) + [Close]) + Spell(ts[1..])
  }

  /** Do the parentheses match, with depth of them open before? */
  predicate Balanced(s: string, depth: nat) {
    if s == "" then depth == 0
    else if s[0] == '(' then Balanced(s[1..], depth + 1)
    else if s[0] == ')' then depth > 0 && Balanced(s[1..], depth - 1)
    else Balanced(s[1..], depth)
  }

  lemma {:induction false} NestWord(w: string, ls: seq<Lexeme>, cur: seq<Token>, stack: seq<seq<Token>>)
    ensures Nest(Flush(w) + ls, cur, stack) == Nest(ls, if w == "" then cur else cur + [Atom(w)], stack)
  {
    if w == "" {
      assert Flush(w) + ls == ls;
    } else {
      assert (Flush(w) + ls)[1..] == ls;
    }
  }

  /** tokenize answers None exactly for unbalanced parentheses. */
  lemma {:induction false} NestsIfBalanced(s: string, accum: string, cur: seq<Token>, stack: seq<seq<Token>>)
    ensures Nest(Lex(s, accum), cur, stack).Some? <==> Balanced(s, |stack|)
  {
    var grown := if accum == "" then cur else cur + [Atom(accum)];
    if s == "" {
      NestWord(accum, [], cur, stack);
      assert Flush(accum) + [] == Flush(accum);
    } else if s[0] == '(' {
      var rest := [Open] + Lex(s[1..], "");
      assert Flush(accum) + [Open] + Lex(s[1..], "") == Flush(accum) + rest && rest[1..] == Lex(s[1..], "");
      NestWord(accum, rest, cur, stack);
      NestsIfBalanced(s[1..], "", [], stack + [grown]);
    } else if s[0] == ')' {
      var rest := [Close] + Lex(s[1..], "");
      assert Flush(accum) + [Close] + Lex(s[1..], "") == Flush(accum) + rest && rest[1..] == Lex(s[1..], "");
      NestWord(accum, rest, cur, stack);
      if stack != [] {
        NestsIfBalanced(s[1..], "", stack[|stack|-1] + [List(grown)], stack[..|stack|-1]);
      }
    } else if IsSpace(s[0]) {
      NestWord(accum, Lex(s[1..], ""), cur, stack);
      NestsIfBalanced(s[1..], "", grown, stack);
    } else {
      NestsIfBalanced(s[1..], accum + [s[0]], cur, stack);
    }
  }

  lemma {:induction false} SpellAppend(a: seq<Token>, b: seq<Token>)
    ensures Spell(a + b) == Spell(a) + Spell(b)
  {
    if a == [] {
      assert a + b == b;
    } else {
      assert (a + b)[1..] == a[1..] + b;
      SpellAppend(a[1..], b);
    }
  }

  /** Nest, read from its first lexeme. */
  lemma NestFirst(l: Lexeme, ls: seq<Lexeme>, cur: seq<Token>, stack: seq<seq<Token>>)
    ensures l.Open? ==> Nest([l] + ls, cur, stack) == Nest(ls, [], stack + [cur])
    ensures l.Word? ==> Nest([l] + ls, cur, stack) == Nest(ls, cur + [Atom(l.w)], stack)
    ensures l.Close? ==> forall outer :: Nest([l] + ls, cur, stack + [outer]) == Nest(ls, outer + [List(cur)], stack)
  {
    assert ([l] + ls)[1..] == ls;
    assert forall outer: seq<Token> :: (stack + [outer])[..|stack|] == stack && (stack + [outer])[|stack|] == outer;
  }

  /** Spell, read from its first token. */
  lemma SpellUnfolds(ts: seq<Token>)
    requires ts != []
    ensures Spell(ts) ==
      (match ts[0] case Atom(s) => [Word(s)] case List(items) => [Open] + Spell(items) + [Close]) + Spell(ts[1..])
  {
  }

  lemma SpelledFirst(ts: seq<Token>, ls: seq<Lexeme>)
    requires ts != []
    ensures var rest := Spell(ts[1..]) + ls;
      Spell(ts) + ls ==
        match ts[0]
        case Atom(s) => [Word(s)] + rest
        case List(items) => [Open] + (Spell(items) + ([Close] + rest))
  {
    hide Spell;
    SpellUnfolds(ts);
    var more := Spell(ts[1..]);
    match ts[0]
    case Atom(s) =>
      assert [Word(s)] + more + ls == [Word(s)] + (more + ls);
    case List(items) =>
      var inner := Spell(items);
      assert [Open] + inner + [Close] + more + ls == [Open] + (inner + ([Close] + (more + ls)));
  }

  lemma {:induction false} NestSpelled(ts: seq<Token>, ls: seq<Lexeme>, cur: seq<Token>, stack: seq<seq<Token>>)
    ensures Nest(Spell(ts) + ls, cur, stack) == Nest(ls, cur + ts, stack)
    decreases ts
  {
    assert Spell([]) == [];
    hide Nest, Spell;
    if ts == [] {
      assert Spell(ts) + ls == ls && cur + ts == cur;
    } else {
      var rest := Spell(ts[1..]) + ls;
      assert cur + ts == cur + [ts[0]] + ts[1..];
      SpelledFirst(ts, ls);
      NestSpelled(ts[1..], ls, cur + [ts[0]], stack);
      match ts[0]
      case Atom(s) =>
        NestFirst(Word(s), rest, cur, stack);
      case List(items) =>
        NestFirst(Open, Spell(items) + ([Close] + rest), cur, stack);
        NestSpelled(items, [Close] + rest, [], stack + [cur]);
        assert [] + items == items;
        NestFirst(Close, rest, items, stack);
    }
  }

  /** What the open lists, outermost first, and the current one spell so far. */
  function SpellOpen(cur: seq<Token>, stack: seq<seq<Token>>): seq<Lexeme>
    decreases |stack|
  {
    if stack == [] then Spell(cur)
    else SpellOpen(stack[|stack|-1], stack[..|stack|-1]) + [Open] + Spell(cur)
  }

  lemma SpellOne(t: Token)
    ensures Spell([t]) == match t case Atom(s) => [Word(s)] case List(items) => [Open] + Spell(items) + [Close]
  {
    SpellUnfolds([t]);
    assert [t][1..] == [];
  }

  lemma SpellMore(cur: seq<Token>, t: Token, stack: seq<seq<Token>>)
    ensures SpellOpen(cur + [t], stack) == SpellOpen(cur, stack) + Spell([t])
  {
    SpellAppend(cur, [t]);
    if stack != [] {
      assert SpellOpen(stack[|stack|-1], stack[..|stack|-1]) + [Open] + (Spell(cur) + Spell([t])) ==
             SpellOpen(stack[|stack|-1], stack[..|stack|-1]) + [Open] + Spell(cur) + Spell([t]);
    }
  }

  lemma NestStep(ls: seq<Lexeme>, cur: seq<Token>, stack: seq<seq<Token>>)
    requires ls != []
    ensures match ls[0]
      case Open => Nest(ls, cur, stack) == Nest(ls[1..], [], stack + [cur])
      case Word(w) => Nest(ls, cur, stack) == Nest(ls[1..], cur + [Atom(w)], stack)
      case Close =>
        Nest(ls, cur, stack) ==
        if stack == [] then None else Nest(ls[1..], stack[|stack|-1] + [List(cur)], stack[..|stack|-1])
  {
  }

  lemma SpellWord(cur: seq<Token>, stack: seq<seq<Token>>, w: string)
    ensures SpellOpen(cur + [Atom(w)], stack) == SpellOpen(cur, stack) + [Word(w)]
  {
    hide SpellOpen, Spell;
    SpellMore(cur, Atom(w), stack);
    SpellOne(Atom(w));
  }

  lemma SpellOpening(cur: seq<Token>, stack: seq<seq<Token>>)
    ensures SpellOpen([], stack + [cur]) == SpellOpen(cur, stack) + [Open]
  {
    assert Spell([]) == [];
    hide Spell;
    assert (stack + [cur])[..|stack|] == stack;
  }

  lemma SpellClosing(outer: seq<Token>, rest: seq<seq<Token>>, cur: seq<Token>)
    ensures SpellOpen(outer + [List(cur)], rest) == SpellOpen(cur, rest + [outer]) + [Close]
  {
    hide Spell;
    SpellMore(outer, List(cur), rest);
    SpellOne(List(cur));
    assert (rest + [outer])[..|rest|] == rest;
    var a, b := SpellOpen(outer, rest), Spell(cur);
    assert SpellOpen(cur, rest + [outer]) == a + [Open] + b;
    hide SpellOpen;
    assert a + ([Open] + b + [Close]) == a + [Open] + b + [Close];
  }

  /** Nothing is lost: the result spells what was read. */
  lemma {:induction false} SpellNested(ls: seq<Lexeme>, cur: seq<Token>, stack: seq<seq<Token>>)
    requires Nest(ls, cur, stack).Some?
    ensures Spell(Nest(ls, cur, stack).value) == SpellOpen(cur, stack) + ls
  {
    if ls == [] {
      assert SpellOpen(cur, stack) + ls == SpellOpen(cur, stack);
    } else {
      hide Spell, SpellOpen, Nest;
      NestStep(ls, cur, stack);
      match ls[0] {
        case Open =>
          SpellNested(ls[1..], [], stack + [cur]);
          SpellOpening(cur, stack);
        case Close =>
          var outer, rest := stack[|stack|-1], stack[..|stack|-1];
          SpellNested(ls[1..], outer + [List(cur)], rest);
          SpellClosing(outer, rest, cur);
          assert rest + [outer] == stack;
        case Word(w) =>
          SpellNested(ls[1..], cur + [Atom(w)], stack);
          SpellWord(cur, stack, w);
      }
      assert SpellOpen(cur, stack) + [ls[0]] + ls[1..] == SpellOpen(cur, stack) + ls;
    }
  }

  // --- printing ---

  /** A word that a dependency string can hold. */
  predicate IsWord(s: string) {
    s != "" && forall i :: 0 <= i < |s| ==> IsPlain(s[i])
  }

  predicate Printable(ts: seq<Token>) {
    ts == [] ||
    ((match ts[0]
      case Atom(s) => IsWord(s)
      case List(items) => Printable(items)) && Printable(ts[1..]))
  }

  /** Elements separated by single spaces, lists in parentheses, then the rest. */
  function PrintThen(ts: seq<Token>, rest: string): string
    decreases ts, 1
  {
    if ts == [] then rest
    else
      match ts[0]
      case Atom(s) => s + PrintTail(ts, rest)
      case List(items) => "(" + PrintThen(items, ")" + PrintTail(ts, rest))
  }

  /** What follows the first element. */
  function PrintTail(ts: seq<Token>, rest: string): string
    requires ts != []
    decreases ts, 0
  {
    if |ts| == 1 then rest else " " + PrintThen(ts[1..], rest)
  }

  function Print(ts: seq<Token>): string {
    PrintThen(ts, "")
  }

  lemma {:induction false} LexWord(w: string, rest: string, accum: string)
    requires forall i :: 0 <= i < |w| ==> IsPlain(w[i])
    ensures Lex(w + rest, accum) == Lex(rest, accum + w)
  {
    if w == "" {
      assert w + rest == rest && accum + w == accum;
    } else {
      assert (w + rest)[1..] == w[1..] + rest && accum + [w[0]] + w[1..] == accum + w;
      LexWord(w[1..], rest, accum + [w[0]]);
    }
  }

  /** The end of a printed list: nothing, a space or a closing parenthesis follows. */
  predicate Ends(rest: string) {
    rest == "" || rest[0] == ')' || IsSpace(rest[0])
  }

  lemma LexEnds(rest: string, w: string)
    requires Ends(rest)
    ensures Lex(rest, w) == Flush(w) + Lex(rest, "")
  {
    if rest == "" {
      assert Flush(w) + [] == Flush(w);
    } else if rest[0] == ')' {
      assert [] + [Close] + Lex(rest[1..], "") == [Close] + Lex(rest[1..], "");
      assert Flush(w) + [Close] + Lex(rest[1..], "") == Flush(w) + ([Close] + Lex(rest[1..], ""));
    } else {
      assert [] + Lex(rest[1..], "") == Lex(rest[1..], "");
    }
  }

  lemma LexSpace(rest: string)
    ensures Lex(" " + rest, "") == Lex(rest, "")
  {
    assert (" " + rest)[1..] == rest;
    assert [] + Lex(rest, "") == Lex(rest, "");
  }

  lemma LexOpen(rest: string)
    ensures Lex("(" + rest, "") == [Open] + Lex(rest, "")
  {
    assert ("(" + rest)[1..] == rest;
    assert [] + [Open] + Lex(rest, "") == [Open] + Lex(rest, "");
  }

  lemma LexClose(rest: string)
    ensures Lex(")" + rest, "") == [Close] + Lex(rest, "")
  {
    assert (")" + rest)[1..] == rest;
    assert [] + [Close] + Lex(rest, "") == [Close] + Lex(rest, "");
  }

  lemma SpellFirst(ts: seq<Token>, ls: seq<Lexeme>)
    requires ts != []
    ensures ts[0].Atom? ==> Spell(ts) + ls == [Word(ts[0].s)] + (Spell(ts[1..]) + ls)
    ensures ts[0].List? ==> Spell(ts) + ls == [Open] + (Spell(ts[0].items) + ([Close] + (Spell(ts[1..]) + ls)))
  {
    var more := Spell(ts[1..]);
    match ts[0]
    case Atom(s) =>
      assert [Word(s)] + more + ls == [Word(s)] + (more + ls);
    case List(items) =>
      Regroup([Open], Spell(items), [Close], more, ls);
  }

  lemma Regroup<T>(a: seq<T>, b: seq<T>, c: seq<T>, d: seq<T>, e: seq<T>)
    ensures a + b + c + d + e == a + (b + (c + (d + e)))
  {
  }

  lemma {:induction false} LexPrinted(ts: seq<Token>, rest: string)
    requires Printable(ts) && Ends(rest)
    ensures Lex(PrintThen(ts, rest), "") == Spell(ts) + Lex(rest, "")
    decreases ts, 1
  {
    if ts != [] {
      SpellFirst(ts, Lex(rest, ""));
      LexTail(ts, rest);
      var tail := PrintTail(ts, rest);
      hide Lex, PrintTail, Spell;
      match ts[0]
      case Atom(s) =>
        LexWord(s, tail, "");
        assert "" + s == s;
        LexEnds(tail, s);
      case List(items) =>
        LexOpen(PrintThen(items, ")" + tail));
        LexPrinted(items, ")" + tail);
        LexClose(tail);
    }
  }

  lemma {:induction false} LexTail(ts: seq<Token>, rest: string)
    requires ts != [] && Printable(ts) && Ends(rest)
    ensures Ends(PrintTail(ts, rest)) && Lex(PrintTail(ts, rest), "") == Spell(ts[1..]) + Lex(rest, "")
    decreases ts, 0
  {
    if |ts| == 1 {
      assert Spell(ts[1..]) == [] && [] + Lex(rest, "") == Lex(rest, "");
    } else {
      LexSpace(PrintThen(ts[1..], rest));
      LexPrinted(ts[1..], rest);
    }
  }

  /** tokenize inverts printing. */
  lemma TokenizePrinted(ts: seq<Token>)
    requires Printable(ts)
    ensures Nest(Lex(Print(ts), ""), [], []) == Some(ts)
  {
    LexPrinted(ts, "");
    assert Lex("", "") == [] && Spell(ts) + [] == Spell(ts);
    NestSpelled(ts, [], [], []);
    assert [] + ts == ts;
  }

  /** tokenize: None exactly for unbalanced parentheses; otherwise the nested
      list that spells the lexemes of the string. */
  method Tokenize(mystring: string) returns (r: Option<seq<Token>>)
    ensures r.Some? <==> Balanced(mystring, 0)
    ensures r.Some? ==> Spell(r.value) == Lex(mystring, "")
    ensures r == Nest(Lex(mystring, ""), [], [])
  {
    ghost var meant := Nest(Lex(mystring, ""), [], []);
    NestsIfBalanced(mystring, "", [], []);
    if meant.Some? {
      SpellNested(Lex(mystring, ""), [], []);
      assert [] + Lex(mystring, "") == Lex(mystring, "");
    }
    var curlist: seq<Token> := [];
    var prevlists: seq<seq<Token>> := [];
    var level := 0;
    var accum := "";
    for i := 0 to |mystring|
      invariant level == |prevlists|
      invariant Nest(Lex(mystring[i..], accum), curlist, prevlists) == meant
    {
      var x := mystring[i];
      NextCharacter(mystring[i..], accum, curlist, prevlists);
      assert mystring[i..][1..] == mystring[i+1..];
      if x == '(' {
        if accum != "" {
          curlist := curlist + [Atom(accum)];
          accum := "";
        }
        prevlists := prevlists + [curlist];
        curlist := [];
        level := level + 1;
      } else if x == ')' {
        if accum != "" {
          curlist := curlist + [Atom(accum)];
          accum := "";
        }
        if level == 0 {
          return None;
        }
        var newlist := curlist;
        curlist := prevlists[|prevlists|-1];
        prevlists := prevlists[..|prevlists|-1];
        curlist := curlist + [List(newlist)];
        level := level - 1;
      } else if IsSpace(x) {
        if accum != "" {
          curlist := curlist + [Atom(accum)];
          accum := "";
        }
      } else {
        accum := accum + [x];
      }
    }
    NestWord(accum, [], curlist, prevlists);
    assert Flush(accum) + [] == Flush(accum);
    if accum != "" {
      curlist := curlist + [Atom(accum)];
    }
    if level != 0 {
      return None;
    }
    return Some(curlist);
  }

  /** The effect of one character on what is still to be nested. */
  lemma NextCharacter(s: string, accum: string, cur: seq<Token>, stack: seq<seq<Token>>)
    requires s != ""
    ensures
      var grown := if accum == "" then cur else cur + [Atom(accum)];
      Nest(Lex(s, accum), cur, stack) ==
        if s[0] == '(' then Nest(Lex(s[1..], ""), [], stack + [grown])
        else if s[0] == ')' then
          if stack == [] then None
          else Nest(Lex(s[1..], ""), stack[|stack|-1] + [List(grown)], stack[..|stack|-1])
        else if IsSpace(s[0]) then Nest(Lex(s[1..], ""), grown, stack)
        else Nest(Lex(s[1..], accum + [s[0]]), cur, stack)
  {
    if s[0] == '(' {
      var rest := [Open] + Lex(s[1..], "");
      assert Flush(accum) + [Open] + Lex(s[1..], "") == Flush(accum) + rest && rest[1..] == Lex(s[1..], "");
      NestWord(accum, rest, cur, stack);
    } else if s[0] == ')' {
      var rest := [Close] + Lex(s[1..], "");
      assert Flush(accum) + [Close] + Lex(s[1..], "") == Flush(accum) + rest && rest[1..] == Lex(s[1..], "");
      NestWord(accum, rest, cur, stack);
    } else if IsSpace(s[0]) {
      NestWord(accum, Lex(s[1..], ""), cur, stack);
    }
  }

  // --- flatten ---

  /** The words among the lexemes. */
  function Words(ls: seq<Lexeme>): seq<string> {
    if ls == [] then [] else (if ls[0].Word? then [ls[0].w] else []) + Words(ls[1..])
  }

  lemma {:induction false} WordsAppend(a: seq<Lexeme>, b: seq<Lexeme>)
    ensures Words(a + b) == Words(a) + Words(b)
  {
    if a == [] {
      assert a + b == b;
    } else {
      assert (a + b)[1..] == a[1..] + b;
      WordsAppend(a[1..], b);
    }
  }

  /** flatten: the words in the order in which they are written. */
  method Flatten(mytokens: seq<Token>) returns (newlist: seq<string>)
    ensures newlist == Words(Spell(mytokens))
    decreases mytokens
  {
    newlist := [];
    for i := 0 to |mytokens|
      invariant newlist == Words(Spell(mytokens[..i]))
    {
      assert mytokens[..i+1] == mytokens[..i] + [mytokens[i]];
      SpellAppend(mytokens[..i], [mytokens[i]]);
      WordsAppend(Spell(mytokens[..i]), Spell([mytokens[i]]));
      match mytokens[i]
      case List(items) =>
        var inner := Flatten(items);
        newlist := newlist + inner;
        WordsInside(items);
      case Atom(s) =>
        newlist := newlist + [s];
    }
    assert mytokens[..|mytokens|] == mytokens;
  }

  lemma WordsInside(items: seq<Token>)
    ensures Words(Spell([List(items)])) == Words(Spell(items))
  {
    assert Spell([List(items)]) == [Open] + (Spell(items) + [Close]);
    WordsAppend([Open], Spell(items) + [Close]);
    WordsAppend(Spell(items), [Close]);
  }

  /** The words of a string are those of its nested list. */
  lemma FlattenTokenized(s: string, ts: seq<Token>)
    requires Nest(Lex(s, ""), [], []) == Some(ts)
    ensures Words(Spell(ts)) == Words(Lex(s, ""))
  {
    SpellNested(Lex(s, ""), [], []);
    assert [] + Lex(s, "") == Lex(s, "");
  }
}
