/** dep_parenreduce: turning parenthesised stretches of a list into sub-lists. */
module ParenReduce {
  import opened DepStrings

  const OPEN := Atom("(")
  const CLOSE := Atom(")")

  /** Lists still open at the end keep their parenthesis as an element. */
  function Unwind(stack: seq<seq<Token>>, cur: seq<Token>): seq<Token>
    decreases |stack|
  {
    if stack == [] then cur else Unwind(stack[..|stack|-1], stack[|stack|-1] + [OPEN] + cur)
  }

  /** What the list becomes when every parenthesis that has a partner is matched
      with it; those without stay where they are. */
  function Match(ts: seq<Token>, cur: seq<Token>, stack: seq<seq<Token>>): seq<Token> {
    if ts == [] then Unwind(stack, cur)
    else if ts[0] == OPEN then Match(ts[1..], [], stack + [cur])
    else if ts[0] == CLOSE then
      if stack == [] then Match(ts[1..], cur + [CLOSE], [])
      else Match(ts[1..], stack[|stack|-1] + [List(cur)], stack[..|stack|-1])
    else Match(ts[1..], cur + [ts[0]], stack)
  }

  /** Lexemes as list elements. */
  function Elements(ls: seq<Lexeme>): seq<Token> {
    if ls == [] then []
    else [match ls[0] { case Open => OPEN case Close => CLOSE case Word(w) => Atom(w) }] + Elements(ls[1..])
  }

  /** On the balanced flat list of a string's lexemes the result is the nested list
      that tokenize makes of the string. */
  lemma {:induction false} MatchIsNest(ls: seq<Lexeme>, cur: seq<Token>, stack: seq<seq<Token>>)
    requires Nest(ls, cur, stack).Some?
    requires forall i :: 0 <= i < |ls| && ls[i].Word? ==> ls[i].w != "(" && ls[i].w != ")"
    ensures Match(Elements(ls), cur, stack) == Nest(ls, cur, stack).value
  {
    if ls != [] {
      match ls[0]
      case Open => MatchIsNest(ls[1..], [], stack + [cur]);
      case Close => MatchIsNest(ls[1..], stack[|stack|-1] + [List(cur)], stack[..|stack|-1]);
      case Word(w) => MatchIsNest(ls[1..], cur + [Atom(w)], stack);
    }
  }

  // --- the structure of a list ---

  datatype Item = Leaf(t: Token) | Group(items: seq<Item>) | StrayClose | StrayOpen

  /** No stray parentheses, at any depth. */
  predicate Matched(items: seq<Item>) {
    items == [] ||
    ((match items[0]
      case Leaf(t) => t != OPEN && t != CLOSE
      case Group(g) => Matched(g)
      case _ => false) && Matched(items[1..]))
  }

  /** No closing parenthesis without a partner. */
  predicate Opening(items: seq<Item>) {
    items == [] ||
    ((items[0].StrayOpen? || Matched([items[0]])) && Opening(items[1..]))
  }

  /** The general case: parentheses without a partner, the closing ones first. */
  predicate Ordered(items: seq<Item>) {
    items == [] ||
    (if items[0].StrayOpen? then Opening(items[1..])
     else (items[0].StrayClose? || Matched([items[0]])) && Ordered(items[1..]))
  }

  /** The list with this structure. */
  function Source(items: seq<Item>): seq<Token> {
    if items == [] then []
    else
      (match items[0]
       case Leaf(t) => [t]
       case Group(g) => [OPEN] + Source(g) + [CLOSE]
       case StrayClose => [CLOSE]
       case StrayOpen => [OPEN]) + Source(items[1..])
  }

  /** The list it is to become, element by element. */
  function Value(items: seq<Item>): (ts: seq<Token>)
    ensures |ts| == |items|
  {
    if items == [] then []
    else
      [match items[0]
       case Leaf(t) => t
       case Group(g) => List(Value(g))
       case StrayClose => CLOSE
       case StrayOpen => OPEN] + Value(items[1..])
  }

  /** The same structure with every group already a sub-list. */
  function Settle(items: seq<Item>): (r: seq<Item>)
    ensures |r| == |items| && Settled(r)
  {
    if items == [] then []
    else [if items[0].Group? then Leaf(List(Value(items[0].items))) else items[0]] + Settle(items[1..])
  }

  predicate Settled(items: seq<Item>) {
    forall i :: 0 <= i < |items| ==> !items[i].Group?
  }

  lemma {:induction false} SourceAppend(a: seq<Item>, b: seq<Item>)
    ensures Source(a + b) == Source(a) + Source(b)
  {
    if a == [] {
      assert a + b == b;
    } else {
      assert (a + b)[1..] == a[1..] + b;
      SourceAppend(a[1..], b);
    }
  }

  lemma {:induction false} ValueAppend(a: seq<Item>, b: seq<Item>)
    ensures Value(a + b) == Value(a) + Value(b)
  {
    if a == [] {
      assert a + b == b;
    } else {
      assert (a + b)[1..] == a[1..] + b;
      ValueAppend(a[1..], b);
    }
  }

  lemma {:induction false} SettledSource(items: seq<Item>)
    requires Settled(items)
    ensures Source(items) == Value(items)
  {
    if items != [] {
      SettledSource(items[1..]);
    }
  }

  lemma {:induction false} SettleKeeps(items: seq<Item>)
    ensures Value(Settle(items)) == Value(items) && Source(Settle(items)) == Value(items)
    ensures Matched(items) ==> Matched(Settle(items))
    ensures Opening(items) ==> Opening(Settle(items))
    ensures Ordered(items) ==> Ordered(Settle(items))
  {
    if items != [] {
      SettleKeeps(items[1..]);
      var first := Settle(items)[0];
      assert Matched([]);
      assert Settle(items)[1..] == Settle(items[1..]);
      assert Matched([items[0]]) ==> Matched([first]);
    }
    SettledSource(Settle(items));
  }

  lemma {:induction false} MatchedAppend(a: seq<Item>, b: seq<Item>)
    ensures Matched(a + b) <==> Matched(a) && Matched(b)
  {
    if a == [] {
      assert a + b == b;
    } else {
      assert (a + b)[1..] == a[1..] + b;
      MatchedAppend(a[1..], b);
    }
  }

  lemma {:induction false} OpeningAppend(a: seq<Item>, b: seq<Item>)
    ensures Opening(a + b) <==> Opening(a) && Opening(b)
  {
    if a == [] {
      assert a + b == b;
    } else {
      assert (a + b)[1..] == a[1..] + b;
      OpeningAppend(a[1..], b);
    }
  }

  // --- matching meets the structure ---

  lemma SourceFirst(items: seq<Item>, rest: seq<Token>)
    requires items != []
    ensures items[0].Leaf? ==> Source(items) + rest == [items[0].t] + (Source(items[1..]) + rest)
    ensures items[0].Group? ==>
      Source(items) + rest == [OPEN] + (Source(items[0].items) + ([CLOSE] + (Source(items[1..]) + rest)))
  {
    if items[0].Group? {
      Regroup([OPEN], Source(items[0].items), [CLOSE], Source(items[1..]), rest);
    }
  }

  lemma {:induction false} MatchMatched(items: seq<Item>, rest: seq<Token>, cur: seq<Token>, stack: seq<seq<Token>>)
    requires Matched(items)
    ensures Match(Source(items) + rest, cur, stack) == Match(rest, cur + Value(items), stack)
    decreases items
  {
    if items == [] {
      assert Source(items) + rest == rest && cur + Value(items) == cur;
    } else {
      SourceFirst(items, rest);
      ValueFirst(items, cur);
      var more := Source(items[1..]) + rest;
      match items[0]
      case Leaf(t) =>
        assert ([t] + more)[1..] == more;
        MatchMatched(items[1..], rest, cur + [t], stack);
      case Group(g) =>
        var value := Value(g);
        assert Value(items)[0] == List(value);
        MatchMatched(g, [CLOSE] + more, [], stack + [cur]);
        MatchMatched(items[1..], rest, cur + [List(value)], stack);
        hide Source, Value;
        MatchGroup(Source(g) + ([CLOSE] + more), more, value, cur, stack);
    }
  }

  lemma MatchGroup(inner: seq<Token>, more: seq<Token>, value: seq<Token>, cur: seq<Token>, stack: seq<seq<Token>>)
    requires Match(inner, [], stack + [cur]) == Match([CLOSE] + more, [] + value, stack + [cur])
    ensures Match([OPEN] + inner, cur, stack) == Match(more, cur + [List(value)], stack)
  {
    assert ([OPEN] + inner)[1..] == inner && ([CLOSE] + more)[1..] == more && [] + value == value;
    assert (stack + [cur])[..|stack|] == stack;
  }

  /** The effect of the first item. */
  lemma MatchFirst(items: seq<Item>, cur: seq<Token>, stack: seq<seq<Token>>)
    requires items != []
    ensures items[0].StrayOpen? ==> Match(Source(items), cur, stack) == Match(Source(items[1..]), [], stack + [cur])
    ensures items[0].StrayClose? && stack == [] ==>
      Match(Source(items), cur, stack) == Match(Source(items[1..]), cur + [CLOSE], [])
    ensures Matched([items[0]]) ==>
      Match(Source(items), cur, stack) == Match(Source(items[1..]), cur + [Value(items)[0]], stack)
  {
    if items[0].StrayOpen? || items[0].StrayClose? {
      assert Source(items)[1..] == Source(items[1..]);
    }
    if Matched([items[0]]) {
      assert items == [items[0]] + items[1..];
      SourceAppend([items[0]], items[1..]);
      ValueAppend([items[0]], items[1..]);
      MatchMatched([items[0]], Source(items[1..]), cur, stack);
      assert Value([items[0]]) == [Value(items)[0]];
    }
  }

  lemma ValueFirst(items: seq<Item>, cur: seq<Token>)
    requires items != []
    ensures cur + Value(items) == cur + [Value(items)[0]] + Value(items[1..])
    ensures items[0].StrayOpen? ==> Value(items)[0] == OPEN
    ensures items[0].StrayClose? ==> Value(items)[0] == CLOSE
  {
  }

  lemma MatchNothing(cur: seq<Token>, stack: seq<seq<Token>>)
    ensures Match(Source([]), cur, stack) == Unwind(stack, cur + Value([]))
  {
    assert cur + [] == cur;
  }

  lemma UnwindOpen(stack: seq<seq<Token>>, cur: seq<Token>, more: seq<Token>)
    ensures Unwind(stack + [cur], [] + more) == Unwind(stack, cur + [OPEN] + more)
  {
    assert [] + more == more && (stack + [cur])[..|stack|] == stack;
  }

  lemma {:induction false} MatchOpening(items: seq<Item>, cur: seq<Token>, stack: seq<seq<Token>>)
    requires Opening(items)
    ensures Match(Source(items), cur, stack) == Unwind(stack, cur + Value(items))
  {
    if items == [] {
      MatchNothing(cur, stack);
    } else {
      MatchFirst(items, cur, stack);
      ValueFirst(items, cur);
      hide Match, Source, Value, Unwind, Matched;
      if items[0].StrayOpen? {
        MatchOpening(items[1..], [], stack + [cur]);
        UnwindOpen(stack, cur, Value(items[1..]));
      } else {
        MatchOpening(items[1..], cur + [Value(items)[0]], stack);
      }
    }
  }

  /** Matching a list gives the value of its structure. */
  lemma {:induction false} MatchOrdered(items: seq<Item>, cur: seq<Token>)
    requires Ordered(items)
    ensures Match(Source(items), cur, []) == cur + Value(items)
  {
    if items == [] {
      MatchNothing(cur, []);
    } else if items[0].StrayOpen? {
      MatchOpening(items, cur, []);
    } else {
      MatchFirst(items, cur, []);
      ValueFirst(items, cur);
      hide Match, Source, Value, Matched;
      MatchOrdered(items[1..], cur + [Value(items)[0]]);
    }
  }

  // --- every list has such a structure ---

  /** The structure of a list, built as Match builds its result. */
  function Structure(ts: seq<Token>, cur: seq<Item>, stack: seq<seq<Item>>): seq<Item> {
    if ts == [] then Wind(stack, cur)
    else if ts[0] == OPEN then Structure(ts[1..], [], stack + [cur])
    else if ts[0] == CLOSE then
      if stack == [] then Structure(ts[1..], cur + [StrayClose], [])
      else Structure(ts[1..], stack[|stack|-1] + [Group(cur)], stack[..|stack|-1])
    else Structure(ts[1..], cur + [Leaf(ts[0])], stack)
  }

  function Wind(stack: seq<seq<Item>>, cur: seq<Item>): seq<Item>
    decreases |stack|
  {
    if stack == [] then cur else Wind(stack[..|stack|-1], stack[|stack|-1] + [StrayOpen] + cur)
  }

  function SourceOpen(stack: seq<seq<Item>>, cur: seq<Item>): seq<Token>
    decreases |stack|
  {
    if stack == [] then Source(cur) else SourceOpen(stack[..|stack|-1], stack[|stack|-1]) + [OPEN] + Source(cur)
  }

  lemma SourceMore(stack: seq<seq<Item>>, cur: seq<Item>, more: seq<Item>)
    ensures SourceOpen(stack, cur + more) == SourceOpen(stack, cur) + Source(more)
  {
    SourceAppend(cur, more);
    if stack != [] {
      var outer := SourceOpen(stack[..|stack|-1], stack[|stack|-1]);
      hide SourceOpen, Source;
      assert outer + [OPEN] + (Source(cur) + Source(more)) == outer + [OPEN] + Source(cur) + Source(more);
    }
  }

  lemma {:induction false} WindSource(stack: seq<seq<Item>>, cur: seq<Item>)
    ensures Source(Wind(stack, cur)) == SourceOpen(stack, cur)
    decreases |stack|
  {
    if stack != [] {
      var rest, last := stack[..|stack|-1], stack[|stack|-1];
      WindSource(rest, last + [StrayOpen] + cur);
      SourceMore(rest, last + [StrayOpen], cur);
      SourceMore(rest, last, [StrayOpen]);
      assert Source([StrayOpen]) == [OPEN];
    }
  }

  lemma SourcePush(stack: seq<seq<Item>>, cur: seq<Item>)
    ensures SourceOpen(stack + [cur], []) == SourceOpen(stack, cur) + [OPEN]
  {
    assert (stack + [cur])[..|stack|] == stack && Source([]) == [];
    assert SourceOpen(stack, cur) + [OPEN] + [] == SourceOpen(stack, cur) + [OPEN];
  }

  lemma SourceGroup(g: seq<Item>)
    ensures Source([Group(g)]) == [OPEN] + Source(g) + [CLOSE]
  {
    assert [Group(g)][1..] == [];
  }

  lemma SourcePop(stack: seq<seq<Item>>, cur: seq<Item>)
    requires stack != []
    ensures SourceOpen(stack[..|stack|-1], stack[|stack|-1] + [Group(cur)]) == SourceOpen(stack, cur) + [CLOSE]
  {
    var rest, last := stack[..|stack|-1], stack[|stack|-1];
    hide Source;
    SourceMore(rest, last, [Group(cur)]);
    SourceGroup(cur);
    var a, b := SourceOpen(rest, last), Source(cur);
    assert SourceOpen(stack, cur) == a + [OPEN] + b;
    hide SourceOpen;
    assert a + ([OPEN] + b + [CLOSE]) == a + [OPEN] + b + [CLOSE];
  }

  lemma SourceOne(stack: seq<seq<Item>>, cur: seq<Item>, t: Token)
    ensures t == CLOSE ==> SourceOpen(stack, cur + [StrayClose]) == SourceOpen(stack, cur) + [t]
    ensures SourceOpen(stack, cur + [Leaf(t)]) == SourceOpen(stack, cur) + [t]
  {
    SourceMore(stack, cur, [StrayClose]);
    SourceMore(stack, cur, [Leaf(t)]);
    assert Source([Leaf(t)]) == [t] && Source([StrayClose]) == [CLOSE];
  }

  /** The list can be had back from its structure. */
  lemma {:induction false} StructureSource(ts: seq<Token>, cur: seq<Item>, stack: seq<seq<Item>>)
    ensures Source(Structure(ts, cur, stack)) == SourceOpen(stack, cur) + ts
  {
    if ts == [] {
      WindSource(stack, cur);
    } else {
      var t := ts[0];
      assert forall x: seq<Token> :: x + [t] + ts[1..] == x + ts;
      hide Source, SourceOpen;
      if t == OPEN {
        SourcePush(stack, cur);
        StructureSource(ts[1..], [], stack + [cur]);
      } else if t == CLOSE && stack != [] {
        SourcePop(stack, cur);
        StructureSource(ts[1..], stack[|stack|-1] + [Group(cur)], stack[..|stack|-1]);
      } else {
        SourceOne(stack, cur, t);
        StructureSource(ts[1..], cur + [if t == CLOSE then StrayClose else Leaf(t)], stack);
      }
    }
  }

  /** The lists on the stack have no stray parentheses, but for closing ones outermost. */
  predicate Sound(stack: seq<seq<Item>>, cur: seq<Item>) {
    if stack == [] then Closing(cur) else Matched(cur) && Sound(stack[..|stack|-1], stack[|stack|-1])
  }

  /** No opening parenthesis without a partner. */
  predicate Closing(items: seq<Item>) {
    items == [] || ((items[0].StrayClose? || Matched([items[0]])) && Closing(items[1..]))
  }

  lemma {:induction false} MatchedIsOpening(items: seq<Item>)
    requires Matched(items)
    ensures Opening(items)
  {
    if items != [] {
      assert [items[0]][1..] == [];
      MatchedIsOpening(items[1..]);
    }
  }

  lemma {:induction false} OpeningIsOrdered(items: seq<Item>)
    requires Opening(items)
    ensures Ordered(items)
  {
    if items != [] {
      OpeningIsOrdered(items[1..]);
    }
  }

  lemma {:induction false} ClosingThenOrdered(a: seq<Item>, b: seq<Item>)
    requires Closing(a) && Ordered(b)
    ensures Ordered(a + b)
  {
    if a == [] {
      assert a + b == b;
    } else {
      assert (a + b)[1..] == a[1..] + b;
      ClosingThenOrdered(a[1..], b);
    }
  }

  lemma {:induction false} ClosingMore(a: seq<Item>, item: Item)
    requires Closing(a) && (item.StrayClose? || Matched([item]))
    ensures Closing(a + [item])
  {
    if a == [] {
      assert a + [item] == [item];
    } else {
      assert (a + [item])[1..] == a[1..] + [item];
      ClosingMore(a[1..], item);
    }
  }

  lemma {:induction false} WindOrdered(stack: seq<seq<Item>>, cur: seq<Item>)
    requires if stack == [] then Ordered(cur) else Opening(cur) && Sound(stack[..|stack|-1], stack[|stack|-1])
    ensures Ordered(Wind(stack, cur))
    decreases |stack|
  {
    if stack != [] {
      var rest, last := stack[..|stack|-1], stack[|stack|-1];
      var more := [StrayOpen] + cur;
      assert more[1..] == cur && last + [StrayOpen] + cur == last + more;
      if rest == [] {
        ClosingThenOrdered(last, more);
      } else {
        MatchedIsOpening(last);
        OpeningAppend(last, more);
      }
      WindOrdered(rest, last + more);
    }
  }

  lemma {:induction false} StructureOrdered(ts: seq<Token>, cur: seq<Item>, stack: seq<seq<Item>>)
    requires Sound(stack, cur)
    ensures Ordered(Structure(ts, cur, stack))
  {
    if ts == [] {
      if stack == [] {
        ClosingThenOrdered(cur, []);
        assert cur + [] == cur;
      } else {
        MatchedIsOpening(cur);
      }
      WindOrdered(stack, cur);
    } else if ts[0] == OPEN {
      assert (stack + [cur])[..|stack|] == stack;
      StructureOrdered(ts[1..], [], stack + [cur]);
    } else if ts[0] == CLOSE && stack != [] {
      var rest, last := stack[..|stack|-1], stack[|stack|-1];
      SoundMore(rest, last, Group(cur));
      StructureOrdered(ts[1..], last + [Group(cur)], rest);
    } else {
      SoundMore(stack, cur, if ts[0] == CLOSE then StrayClose else Leaf(ts[0]));
      StructureOrdered(ts[1..], cur + [if ts[0] == CLOSE then StrayClose else Leaf(ts[0])], stack);
    }
  }

  lemma SoundMore(stack: seq<seq<Item>>, cur: seq<Item>, item: Item)
    requires Sound(stack, cur) && (Matched([item]) || (item.StrayClose? && stack == []))
    ensures Sound(stack, cur + [item])
  {
    if stack == [] {
      ClosingMore(cur, item);
    } else {
      MatchedAppend(cur, [item]);
    }
  }

  /** Every list has a structure, and matching it gives the structure's value. */
  lemma Structured(ts: seq<Token>) returns (items: seq<Item>)
    ensures Ordered(items) && Source(items) == ts && Value(items) == Match(ts, [], [])
  {
    items := Structure(ts, [], []);
    StructureOrdered(ts, [], []);
    StructureSource(ts, [], []);
    assert [] + ts == ts && [] + Value(items) == Value(items);
    MatchOrdered(items, []);
  }

  // --- dep_parenreduce ---

  lemma {:induction false} SourceLength(items: seq<Item>)
    ensures |Source(items)| >= |items|
  {
    if items != [] {
      SourceLength(items[1..]);
    }
  }

  /** The element of an item at which a scan arrives. */
  function Face(item: Item): Token {
    match item
    case Leaf(t) => t
    case StrayClose => CLOSE
    case _ => OPEN
  }

  /** Behind settled items the position in the list is the number of items. */
  lemma SourceStarts(items: seq<Item>)
    requires items != []
    ensures Source(items) != [] && Source(items)[0] == Face(items[0])
  {
  }

  lemma Arrives(items: seq<Item>, k: nat)
    requires k <= |items| && Settled(items[..k])
    ensures |Source(items)| >= |items|
    ensures Source(items)[..k] == Value(items[..k]) && Source(items)[k..] == Source(items[k..])
    ensures k < |items| ==> k < |Source(items)| && Source(items)[k] == Face(items[k])
    ensures k == |items| ==> |Source(items)| == k && Source(items) == Value(items)
  {
    assert Source([]) == [];
    hide Source, Value, Settled, Face;
    SourceLength(items);
    SettledSource(items[..k]);
    SourceAppend(items[..k], items[k..]);
    assert items == items[..k] + items[k..];
    var a, b := Source(items[..k]), Source(items[k..]);
    assert (a + b)[..k] == a && (a + b)[k..] == b;
    if k < |items| {
      SourceStarts(items[k..]);
      assert (a + b)[k] == b[0];
    } else {
      assert items[..k] == items && items[k..] == [];
    }
  }

  lemma {:induction false} MatchedFaces(items: seq<Item>, k: nat)
    requires k < |items| && Opening(items)
    ensures Face(items[k]) != CLOSE
    ensures Face(items[k]) == OPEN <==> items[k].Group? || items[k].StrayOpen?
    ensures Matched(items) ==> !items[k].StrayOpen?
  {
    if k > 0 {
      MatchedFaces(items[1..], k - 1);
    }
  }

  /** The inside of a parenthesis, and what follows its partner if it has one. */
  datatype Inside = Inside(items: seq<Item>, closed: bool, rest: seq<Item>) {
    predicate Valid() {
      if closed then Matched(items) && Ordered(rest) else Opening(items) && rest == []
    }

    function All(): seq<Item> {
      items + if closed then [StrayClose] + rest else []
    }

    /** From the j-th item on everything is settled. */
    function SettledFrom(j: nat): Inside
      requires j <= |items|
    {
      Inside(items[..j] + Settle(items[j..]), closed, Settle(rest))
    }

    /** The item that the parenthesis and its inside make, and those after it. */
    function After(): seq<Item> {
      if closed then [Leaf(List(Value(items)))] + rest else [StrayOpen] + items
    }
  }

  function InsideOf(items: seq<Item>): Inside
    requires items != []
  {
    if items[0].Group? then Inside(items[0].items, true, items[1..]) else Inside(items[1..], false, [])
  }

  lemma GroupSource(g: seq<Item>, rest: seq<Item>)
    ensures Source([Group(g)] + rest) == [OPEN] + Source(g + ([StrayClose] + rest))
  {
    SourceAppend(g, [StrayClose] + rest);
    assert ([StrayClose] + rest)[1..] == rest && ([Group(g)] + rest)[1..] == rest;
    hide Matched, Settled;
    Regroup4([OPEN], Source(g), [CLOSE], Source(rest));
  }

  lemma Regroup4<T>(a: seq<T>, b: seq<T>, c: seq<T>, d: seq<T>)
    ensures a + b + c + d == a + (b + (c + d))
  {
  }

  lemma GroupValue(g: seq<Item>, rest: seq<Item>)
    ensures Value([Leaf(List(Value(g)))] + rest) == Value([Group(g)] + rest)
  {
    ValueAppend([Group(g)], rest);
    ValueAppend([Leaf(List(Value(g)))], rest);
    assert Value([Group(g)]) == [List(Value(g))] == Value([Leaf(List(Value(g)))]);
  }

  lemma InsideIs(items: seq<Item>)
    requires items != [] && Ordered(items) && (items[0].Group? || items[0].StrayOpen?)
    ensures InsideOf(items).Valid() && Source(items) == [OPEN] + Source(InsideOf(items).All())
    ensures Value(InsideOf(items).After()) == Value(items) && Ordered(InsideOf(items).After())
  {
    assert items == [items[0]] + items[1..];
    if items[0].Group? {
      GroupSource(items[0].items, items[1..]);
      GroupValue(items[0].items, items[1..]);
      OrderedAfter(InsideOf(items));
    } else {
      assert items[1..] + [] == items[1..];
    }
  }

  lemma OrderedAfter(i: Inside)
    requires i.Valid()
    ensures Ordered(i.After())
  {
    assert i.After()[1..] == if i.closed then i.rest else i.items;
    if i.closed {
      assert Matched([Leaf(List(Value(i.items)))]);
    }
  }

  /** What is left of the list from the j-th item of the inside on. */
  lemma OrderedSuffix(i: Inside, j: nat)
    requires i.Valid() && j <= |i.items|
    ensures Ordered(i.All()[j..])
  {
    assert i.items == i.items[..j] + i.items[j..];
    if i.closed {
      MatchedAppend(i.items[..j], i.items[j..]);
      MatchedIsClosing(i.items[j..]);
      assert ([StrayClose] + i.rest)[1..] == i.rest;
      ClosingThenOrdered(i.items[j..], [StrayClose] + i.rest);
      assert i.All()[j..] == i.items[j..] + ([StrayClose] + i.rest);
    } else {
      OpeningAppend(i.items[..j], i.items[j..]);
      OpeningIsOrdered(i.items[j..]);
      assert i.All()[j..] == i.items[j..];
    }
  }

  lemma {:induction false} MatchedIsClosing(items: seq<Item>)
    requires Matched(items)
    ensures Closing(items)
  {
    if items != [] {
      MatchedIsClosing(items[1..]);
    }
  }

  lemma {:induction false} SettleAppend(a: seq<Item>, b: seq<Item>)
    ensures Settle(a + b) == Settle(a) + Settle(b)
  {
    if a == [] {
      assert a + b == b;
    } else {
      assert (a + b)[1..] == a[1..] + b;
      SettleAppend(a[1..], b);
    }
  }

  /** Settling from the j-th item of the inside on keeps all values. */
  lemma SettlesFrom(i: Inside, j: nat)
    requires i.Valid() && j <= |i.items| && Settled(i.items[..j])
    ensures
      var n := i.SettledFrom(j);
      && n.Valid() && Settled(n.items) && |n.items| == |i.items| && Value(n.items) == Value(i.items)
      && Value(n.rest) == Value(i.rest)
  {
    hide Matched, Opening, Ordered, Value, Settle, Source;
    assert i.items == i.items[..j] + i.items[j..];
    SettleKeeps(i.items[j..]);
    SettleKeeps(i.rest);
    ValueAppend(i.items[..j], i.items[j..]);
    ValueAppend(i.items[..j], Settle(i.items[j..]));
    MatchedAppend(i.items[..j], i.items[j..]);
    MatchedAppend(i.items[..j], Settle(i.items[j..]));
    OpeningAppend(i.items[..j], i.items[j..]);
    OpeningAppend(i.items[..j], Settle(i.items[j..]));
    SettleNothing();
  }

  lemma SettleNothing()
    ensures Settle([]) == []
  {
  }

  lemma SettleStray(rest: seq<Item>)
    ensures Settle([StrayClose] + rest) == [StrayClose] + Settle(rest)
  {
    assert ([StrayClose] + rest)[1..] == rest;
  }

  lemma SettledAll(i: Inside, j: nat)
    requires j <= |i.items|
    ensures i.All()[..j] == i.items[..j]
    ensures i.SettledFrom(j).All() == i.All()[..j] + Settle(i.All()[j..])
  {
    var all := i.All();
    SettleStray(i.rest);
    hide Settle;
    if i.closed {
      var tail := [StrayClose] + i.rest;
      assert all[..j] == i.items[..j] && all[j..] == i.items[j..] + tail;
      SettleAppend(i.items[j..], tail);
    } else {
      assert i.items + [] == i.items;
    }
  }

  /** The list after everything from the j-th item on has been reduced. */
  lemma SettledList(i: Inside, j: nat)
    requires j <= |i.items| && Settled(i.items[..j])
    ensures j <= |Source(i.All())|
    ensures Source(i.All())[..j] + Value(i.All()[j..]) == Source(i.SettledFrom(j).All())
  {
    hide Source, Value, Settle;
    SettledAll(i, j);
    Arrives(i.All(), j);
    SettledSource(i.All()[..j]);
    SettleKeeps(i.All()[j..]);
    SourceAppend(i.All()[..j], Settle(i.All()[j..]));
  }

  lemma {:induction false} OrderedDrop(items: seq<Item>, k: nat)
    requires k <= |items|
    ensures Ordered(items) ==> Ordered(items[k..])
    ensures Opening(items) ==> Opening(items[k..])
  {
    if k > 0 {
      OrderedDrop(items[1..], k - 1);
      assert items[1..][k-1..] == items[k..];
      if Opening(items[1..]) {
        OpeningIsOrdered(items[k..]);
      }
    } else {
      assert items[0..] == items;
    }
  }

  /** Before the loop of dep_parenreduce looks at an item: those before it are
      settled, and an unmatched opening parenthesis ends the loop. */
  ghost predicate Scanned(items: seq<Item>, done: nat, goal: seq<Token>) {
    && done <= |items| && Settled(items[..done]) && Ordered(items) && Value(items) == goal
    && (done < |items| ==> Closing(items[..done]))
  }

  lemma ScanStarts(items: seq<Item>)
    requires Ordered(items)
    ensures Scanned(items, 0, Value(items))
  {
  }

  lemma ScanSkips(items: seq<Item>, done: nat, goal: seq<Token>)
    requires Scanned(items, done, goal) && done < |items| && Face(items[done]) != OPEN
    ensures Scanned(items, done + 1, goal)
  {
    assert items[..done+1] == items[..done] + [items[done]];
    OrderedDrop(items, done);
    ClosingMore(items[..done], items[done]);
  }

  lemma ScanReplaces(items: seq<Item>, done: nat, goal: seq<Token>, after: seq<Item>)
    requires Scanned(items, done, goal) && done < |items|
    requires Ordered(after) && Value(after) == Value(items[done..]) && after != [] && !after[0].Group?
    requires after[0].StrayOpen? ==> Settled(after)
    ensures |after| == |items| - done
    ensures Scanned(items[..done] + after, if after[0].StrayOpen? then |items| else done + 1, goal)
  {
    ReplacesValue(items, done, after);
    hide Value, Ordered, Matched, Settled;
    ClosingThenOrdered(items[..done], after);
    ReplacesSettled(items[..done], after);
    if !after[0].StrayOpen? {
      OrderedFirst(after);
      ClosingMore(items[..done], after[0]);
    }
  }

  lemma ReplacesValue(items: seq<Item>, done: nat, after: seq<Item>)
    requires done <= |items| && Value(after) == Value(items[done..])
    ensures |after| == |items| - done && Value(items[..done] + after) == Value(items)
  {
    assert |Value(after)| == |Value(items[done..])|;
    ValueAppend(items[..done], items[done..]);
    ValueAppend(items[..done], after);
    assert items == items[..done] + items[done..];
  }

  lemma ReplacesSettled(a: seq<Item>, after: seq<Item>)
    requires Settled(a) && after != [] && !after[0].Group?
    ensures (a + after)[..|a|+1] == a + [after[0]] && Settled(a + [after[0]])
    ensures (a + after)[..|a + after|] == a + after && (Settled(after) ==> Settled(a + after))
  {
  }

  lemma OrderedFirst(items: seq<Item>)
    requires items != [] && Ordered(items) && !items[0].StrayOpen?
    ensures items[0].StrayClose? || Matched([items[0]])
  {
  }

  /** The inner loop, j items behind an opening parenthesis. */
  ghost predicate Within(i: Inside, j: nat, goal: seq<Token>) {
    j <= |i.items| && Settled(i.items[..j]) && i.Valid() && Value(i.After()) == goal
  }

  /** What the element at the j-th item says. */
  lemma WithinSees(i: Inside, j: nat, goal: seq<Token>)
    requires Within(i, j, goal) && j < |Source(i.All())|
    ensures j <= |i.items|
    ensures var t := Source(i.All())[j];
      if j == |i.items| then t == CLOSE && i.closed
      else t != CLOSE && (t == OPEN <==> i.items[j].Group? || i.items[j].StrayOpen?)
    ensures j < |i.items| && Source(i.All())[j] != OPEN ==> Within(i, j + 1, goal)
  {
    var all := i.All();
    AllAt(i, j);
    hide Source, Value, Matched, Opening, Ordered, Inside.All, Inside.After;
    Arrives(all, j);
    if j < |i.items| {
      if i.closed {
        MatchedIsOpening(i.items);
      }
      MatchedFaces(i.items, j);
      if !i.items[j].Group? {
        SettledNext(i.items, j);
      }
    }
  }

  lemma AllAt(i: Inside, j: nat)
    requires j <= |i.items|
    ensures |i.All()| >= |i.items| && i.All()[..j] == i.items[..j]
    ensures j < |i.items| ==> i.All()[j] == i.items[j]
    ensures j == |i.items| ==> if i.closed then j < |i.All()| && i.All()[j] == StrayClose else |i.All()| == j
  {
  }

  lemma SettledNext(items: seq<Item>, j: nat)
    requires j < |items| && Settled(items[..j]) && !items[j].Group?
    ensures Settled(items[..j+1])
  {
  }

  lemma WithinEnds(i: Inside, j: nat, goal: seq<Token>)
    requires Within(i, j, goal) && j >= |Source(i.All())|
    ensures !i.closed && j == |i.items| && Source(i.After()) == [OPEN] + Source(i.All())
    ensures Settled(i.After()) && Ordered(i.After())
  {
    var all := i.All();
    assert all[..j] == i.items[..j];
    Arrives(all, j);
    OrderedAfter(i);
    assert i.items + [] == i.items && i.After()[1..] == i.items;
  }

  /** The recursive call settles everything from the j-th item on. */
  lemma WithinRecurses(i: Inside, j: nat, goal: seq<Token>)
    requires Within(i, j, goal) && j < |i.items|
    ensures Within(i.SettledFrom(j), j + 1, goal) && i.SettledFrom(j).closed == i.closed
    ensures j <= |Source(i.All())|
    ensures Source(i.All())[..j] + Match(Source(i.All())[j..], [], []) == Source(i.SettledFrom(j).All())
  {
    hide Source, Value, Match, Matched, Opening, Ordered, Settle;
    SettlesFrom(i, j);
    SettledList(i, j);
    SettledAll(i, j);
    Arrives(i.All(), j);
    OrderedSuffix(i, j);
    MatchOrdered(i.All()[j..], []);
    assert [] + Value(i.All()[j..]) == Value(i.All()[j..]);
    AfterValue(i);
    AfterValue(i.SettledFrom(j));
  }

  lemma AfterValue(i: Inside)
    ensures Value(i.After()) == if i.closed then [List(Value(i.items))] + Value(i.rest) else [OPEN] + Value(i.items)
  {
    assert i.After()[1..] == if i.closed then i.rest else i.items;
  }

  /** At the partner the stretch in between becomes a sub-list. */
  lemma WithinCloses(i: Inside, goal: seq<Token>)
    requires Within(i, |i.items|, goal) && i.closed
    ensures var m, s := |i.items|, Source(i.All());
      m < |s| && [List(s[..m])] + s[m+1..] == Source(i.After())
    ensures Ordered(i.After())
  {
    var m := |i.items|;
    var all := i.All();
    assert all[..m] == i.items && i.items[..m] == i.items && all[m..] == [StrayClose] + i.rest;
    Arrives(all, m);
    assert ([StrayClose] + i.rest)[1..] == i.rest && i.After()[1..] == i.rest;
    assert Source(all)[m..] == [CLOSE] + Source(i.rest);
    assert Source(all)[m+1..] == Source(all)[m..][1..];
    OrderedAfter(i);
  }

  /** dep_parenreduce, on values: the list from mypos on is matched. */
  method DepParenreduce(list: seq<Token>, start: nat) returns (mysplit: seq<Token>)
    requires start <= |list|
    ensures mysplit == list[..start] + Match(list[start..], [], [])
    ensures |mysplit| <= |list|
    decreases |list| - start, 1
  {
    hide Match, Source, Scanned, Ordered, Value;
    ghost var items := Structured(list[start..]);
    ghost var done: nat, goal, pre := 0, Value(items), list[..start];
    mysplit := list;
    var mypos := start;
    ScanStarts(items);
    while mypos < |mysplit|
      invariant Scanned(items, done, goal)
      invariant mysplit == pre + Source(items) && |mysplit| <= |list|
      invariant mypos == start + done || (done == |items| && mypos >= |mysplit|)
      decreases |mysplit| - mypos
    {
      ScannedArrives(items, done, goal);
      assert mysplit[mypos] == Source(items)[done] && mysplit[mypos..] == Source(items)[done..];
      if mysplit[mypos] == OPEN {
        ghost var after;
        assert mysplit[..mypos] == pre + Source(items[..done]);
        mysplit, mypos, after := CloseParenthesis(mysplit, mypos, items[done..]);
        ScanReplaces(items, done, goal, after);
        SourceAppend(items[..done], after);
        assert mysplit == pre + Source(items[..done] + after);
        done, items := if after[0].StrayOpen? then |items| else done + 1, items[..done] + after;
      } else {
        ScanSkips(items, done, goal);
        done := done + 1;
      }
      mypos := mypos + 1;
    }
    ScannedArrives(items, done, goal);
  }

  lemma ScannedArrives(items: seq<Item>, done: nat, goal: seq<Token>)
    requires Scanned(items, done, goal)
    ensures done <= |items| <= |Source(items)|
    ensures Source(items)[..done] == Source(items[..done]) && Source(items)[done..] == Source(items[done..])
    ensures done < |items| ==>
      && Source(items)[done] == Face(items[done]) && Ordered(items[done..])
      && (Face(items[done]) == OPEN ==> items[done].Group? || items[done].StrayOpen?)
    ensures done == |items| ==> Source(items) == goal && |Source(items)| == |items|
  {
    Arrives(items, done);
    SettledSource(items[..done]);
    OrderedDrop(items, done);
  }

  /** mysplit[firstpos:mypos+1] = [mysplit[firstpos+1:mypos]] */
  function Splice(mysplit: seq<Token>, firstpos: nat, mypos: nat): (r: seq<Token>)
    requires firstpos < mypos < |mysplit|
    ensures |r| <= |mysplit|
  {
    mysplit[..firstpos] + [List(mysplit[firstpos+1..mypos])] + mysplit[mypos+1..]
  }

  /** What both kinds of step do to the list, behind pre and the parenthesis. */
  lemma StepBehind(pre: seq<Token>, s: seq<Token>, j: nat)
    requires j < |s|
    ensures var l, p, q := pre + [OPEN] + s, |pre|, |pre| + 1 + j;
      && l[q] == s[j]
      && Splice(l, p, q) == pre + ([List(s[..j])] + s[j+1..])
      && l[..q] + Match(l[q..], [], []) == pre + [OPEN] + (s[..j] + Match(s[j..], [], []))
  {
    hide Match;
    var l, p, q := pre + [OPEN] + s, |pre|, |pre| + 1 + j;
    assert l[..p] == pre && l[p+1..q] == s[..j] && l[q+1..] == s[j+1..];
    assert l[..q] == pre + [OPEN] + s[..j] && l[q..] == s[j..];
  }

  lemma LastBehind(pre: seq<Token>, s: seq<Token>, after: seq<Token>)
    requires after == [OPEN] + s
    ensures pre + [OPEN] + s == pre + after
  {
  }

  /** The inner loop, from an opening parenthesis on: up to its partner, whose
      stretch becomes a sub-list, or to the end if there is none. */
  method CloseParenthesis(list: seq<Token>, firstpos: nat, ghost items: seq<Item>)
      returns (mysplit: seq<Token>, mypos: nat, ghost after: seq<Item>)
    requires firstpos < |list| && list[firstpos..] == Source(items) && Ordered(items)
    requires items != [] && (items[0].Group? || items[0].StrayOpen?)
    ensures |mysplit| <= |list| && mysplit == list[..firstpos] + Source(after)
    ensures Ordered(after) && Value(after) == Value(items) && after != []
    ensures items[0].Group? ==> mypos == firstpos && !after[0].Group? && !after[0].StrayOpen?
    ensures items[0].StrayOpen? ==> mypos >= |mysplit| && after[0].StrayOpen? && Settled(after)
    decreases |list| - firstpos, 0
  {
    hide Match, Source, Ordered, Value, Within, Settled, Splice, Inside.SettledFrom, Inside.All, Inside.After;
    mysplit := list;
    mypos := firstpos + 1;
    ghost var inside, j: nat, pre := InsideOf(items), 0, list[..firstpos];
    InsideIs(items);
    WithinStarts(inside);
    ghost var s := Source(inside.All());
    LastBehind(pre, s, list[firstpos..]);
    assert list == pre + list[firstpos..];
    while mypos < |mysplit|
      invariant Within(inside, j, Value(items)) && inside.closed == items[0].Group?
      invariant s == Source(inside.All())
      invariant mysplit == pre + [OPEN] + s && |mysplit| <= |list|
      invariant mypos == |pre| + 1 + j
      decreases |mysplit| - mypos
    {
      WithinSees(inside, j, Value(items));
      StepBehind(pre, s, j);
      if mysplit[mypos] == CLOSE {
        WithinCloses(inside, Value(items));
        after := inside.After();
        AfterIs(inside, j, Value(items));
        mysplit := Splice(mysplit, firstpos, mypos);
        mypos := firstpos;
        return;
      } else if mysplit[mypos] == OPEN {
        WithinRecurses(inside, j, Value(items));
        mysplit := DepParenreduce(mysplit, mypos);
        inside := inside.SettledFrom(j);
        s := Source(inside.All());
      }
      mypos := mypos + 1;
      j := j + 1;
    }
    WithinEnds(inside, j, Value(items));
    AfterIs(inside, j, Value(items));
    after := inside.After();
    LastBehind(pre, s, Source(after));
  }

  lemma WithinStarts(i: Inside)
    requires i.Valid()
    ensures Within(i, 0, Value(i.After()))
  {
  }

  lemma AfterIs(i: Inside, j: nat, goal: seq<Token>)
    requires Within(i, j, goal)
    ensures Value(i.After()) == goal && i.After() != [] && !i.After()[0].Group? && i.After()[0].StrayOpen? == !i.closed
  {
  }
}
