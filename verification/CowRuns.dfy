/** Whole runs of a copy-on-write dictionary: any sequence of operations on one layer. */
module CowRuns {
  import opened Cows
  import opened Wrappers

  datatype Op =
    | SetPlain(key: string, p: Plain)
    | SetSet(key: string, elements: set<string>)
    | Add(key: string, element: string)
    | Delete(key: string)
    | Revert(key: string)
    | Read(key: string, readonly: bool)
    | HasKey(key: string)

  /** What an operation answers: nothing, a value (None for a KeyError) or whether there is one. */
  datatype Reply = Done | Value(shape: Option<Shape>) | Has(has: bool)

  /** What one operation does to the stack of views. */
  function Step(views: seq<LayerView>, op: Op): (r: seq<LayerView>)
    requires views != []
    ensures r != [] && r[1..] == views[1..]
  {
    match op
    case SetPlain(key, p) => PutPlain(views, key, p)
    case SetSet(key, elements) => PutSet(views, key, elements)
    case Add(key, element) =>
      if PlainAt(views, key).None? && MutableAt(views, key).Some? then
        PutSet(views, key, MutableAt(views, key).value + {element})
      else views
    case Delete(key) => PutPlain(views, key, EmptyTuple)
    case Revert(key) => if key in views[0].plain || key in views[0].mutables then Reverted(views, key) else views
    case Read(key, readonly) => if readonly || PlainAt(views, key).Some? then views else Privately(views, key)
    case HasKey(_) => views
  }

  /** What a sequence of operations does. */
  function After(views: seq<LayerView>, ops: seq<Op>): (r: seq<LayerView>)
    requires views != []
    ensures r != [] && r[1..] == views[1..]
  {
    if ops == [] then views else Step(After(views, ops[..|ops|-1]), ops[|ops|-1])
  }

  lemma AfterNone(views: seq<LayerView>)
    requires views != []
    ensures After(views, []) == views
  {
  }

  lemma AfterOneMore(views: seq<LayerView>, ops: seq<Op>, i: nat)
    requires views != [] && i < |ops|
    ensures After(views, ops[..i+1]) == Step(After(views, ops[..i]), ops[i])
  {
    assert ops[..i+1][..i] == ops[..i];
  }

  /** Adding an element shows in the set of the key, when one is shown, and nowhere else. */
  lemma AddLaws(views: seq<LayerView>, key: string, element: string, k: string)
    requires views != []
    ensures
      var was, now := Shown(views, k), Shown(Step(views, Add(key, element)), k);
      now == match was
        case Some(SetShape(e)) => if k == key then Some(SetShape(e + {element})) else was
        case _ => was
  {
    if PlainAt(views, key).None? && MutableAt(views, key).Some? {
      PutSetLaws(views, key, MutableAt(views, key).value + {element}, k);
    }
  }

  predicate IsRead(op: Op) { op.Read? || op.HasKey? }

  /** Reads have no influence on what any sequence of operations shows. */
  lemma {:induction false} ReadsDoNotMatter(views: seq<LayerView>, ops: seq<Op>, key: string)
    requires views != [] && forall op :: op in ops ==> IsRead(op)
    ensures Shown(After(views, ops), key) == Shown(views, key)
  {
    if ops != [] {
      var op := ops[|ops|-1];
      assert op in ops;
      ReadsDoNotMatter(views, ops[..|ops|-1], key);
      if op.Read? {
        PrivatelyShowsTheSame(After(views, ops[..|ops|-1]), op.key, key);
      }
    }
  }

  /** Reads answer what the layers show. */
  function Answer(views: seq<LayerView>, op: Op): Reply {
    match op
    case Read(key, _) => Value(Shown(views, key))
    case HasKey(key) => Has(Shown(views, key).Some?)
    case _ => Done
  }

  /** One operation. */
  method Do(c: Cow, op: Op) returns (answer: Reply)
    requires Linked(c) && c.Owned()
    modifies c, Sets(c)
    ensures c.Owned() && c.AllViews() == Step(old(c.AllViews()), op)
    ensures fresh(Sets(c) - old(Sets(c)))
    ensures answer == Answer(old(c.AllViews()), op)
  {
    hide Views, Chain;
    answer := Done;
    match op
    case SetPlain(key, p) => c.SetItem(key, Immutable(p));
    case SetSet(key, elements) =>
      assert allocated(Chain(c));
      var m := new StringSet(elements);
      c.StillShown();
      c.SetItem(key, Mutable(m));
    case Add(key, element) =>
      var ok := c.AddElement(key, element);
    case Delete(key) => c.DelItem(key);
    case Revert(key) =>
      var ok := c.RevertItem(key);
    case Read(key, readonly) =>
      var value := c.GetItem(key, readonly);
      match value {
        case None => answer := Value(None);
        case Some(Immutable(p)) => answer := Value(Some(PlainShape(p)));
        case Some(Mutable(m)) => answer := Value(Some(SetShape(m.elements)));
      }
    case HasKey(key) =>
      var has := c.HasKey(key);
      answer := Has(has);
  }

  /** After any sequence of operations the layer shows what they prescribe, the
      layers below are as before, and every read answered what was shown at its time. */
  method Run(c: Cow, ops: seq<Op>) returns (answers: seq<Reply>)
    requires Linked(c) && c.Owned()
    modifies c, Sets(c)
    ensures c.Owned() && c.AllViews() == After(old(c.AllViews()), ops)
    ensures c.AllViews()[1..] == old(c.AllViews())[1..]
    ensures |answers| == |ops|
    ensures forall i :: 0 <= i < |ops| ==> answers[i] == Answer(After(old(c.AllViews()), ops[..i]), ops[i])
  {
    hide Views, Chain, Step, After, Answer;
    answers := [];
    ghost var views := c.AllViews();
    assert ops[..0] == [];
    AfterNone(views);
    for i := 0 to |ops|
      invariant c.Owned() && c.AllViews() == After(views, ops[..i])
      invariant fresh(Sets(c) - old(Sets(c)))
      invariant |answers| == i
      invariant forall k :: 0 <= k < i ==> answers[k] == Answer(After(views, ops[..k]), ops[k])
    {
      AfterOneMore(views, ops, i);
      var a := Do(c, ops[i]);
      answers := answers + [a];
    }
    assert ops[..|ops|] == ops;
  }
}
