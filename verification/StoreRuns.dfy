/** Whole runs of a variable store: any sequence of operations on it. */
module StoreRuns {
  import opened DataSmarts
  import opened Expansion

  datatype Op =
    | SetVar(v: string, value: string)
    | DelVar(v: string)
    | RenameVar(key: string, newkey: string)
    | SetVarFlag(v: string, flag: string, value: string)
    | GetVar(v: string, fuel: nat)

  /** A text is neither content nor the list of a keyword. */
  predicate Allowed(op: Op) {
    op.SetVarFlag? ==> op.flag != "content" && !IsKeyword(op.flag)
  }

  /** What one operation does to the stack of views. */
  function Step(views: seq<LayerView>, op: Op): (r: seq<LayerView>)
    requires views != []
    ensures r != [] && r[1..] == views[1..]
  {
    match op
    case SetVar(v, value) => WithValue(views, v, value)
    case DelVar(v) => WithoutVar(views, v)
    case RenameVar(key, newkey) => Renamed(views, key, newkey)
    case SetVarFlag(v, flag, value) => WithFlag(views, v, flag, StrView(value))
    case GetVar(_, _) => views
  }

  /** What a sequence of operations does. */
  function After(views: seq<LayerView>, ops: seq<Op>): (r: seq<LayerView>)
    requires views != []
    ensures r != [] && r[1..] == views[1..]
  {
    if ops == [] then views else Step(After(views, ops[..|ops|-1]), ops[|ops|-1])
  }

  lemma AfterNone(views: seq<LayerView>)
    requires views != []
    ensures After(views, []) == views
  {
  }

  lemma AfterOneMore(views: seq<LayerView>, ops: seq<Op>, i: nat)
    requires views != [] && i < |ops|
    ensures After(views, ops[..i+1]) == Step(After(views, ops[..i]), ops[i])
  {
    assert ops[..i+1][..i] == ops[..i];
  }

  /** The answer of a read is the one of uncached expansion over these views. */
  ghost predicate Answered(views: seq<LayerView>, op: Op, a: Answer) {
    op.GetVar? ==>
      && (a != OutOfFuel ==> Gets(RawValues(views), op.v, a))
      && (Expansion.GetVar(RawValues(views), op.v, op.fuel) != OutOfFuel ==>
            a == Expansion.GetVar(RawValues(views), op.v, op.fuel))
  }

  /** One operation. */
  method Do(d: DataSmart, op: Op) returns (a: Answer)
    requires Linked(d.dict) && d.Valid() && Allowed(op)
    modifies d, d.dict, VarDicts(d.dict)
    ensures d.Valid() && d.AllViews() == Step(old(d.AllViews()), op)
    ensures fresh(VarDicts(d.dict) - old(VarDicts(d.dict)))
    ensures Answered(old(d.AllViews()), op, a)
  {
    hide Find, View, ViewVar, Views, Chain, WithValue, WithoutVar, Renamed, RawValues;
    a := Undefined;
    match op
    case SetVar(v, value) => d.SetVar(v, value);
    case DelVar(v) => d.DelVar(v);
    case RenameVar(key, newkey) => d.RenameVar(key, newkey);
    case SetVarFlag(v, flag, value) => d.SetVarFlag(v, flag, Str(value));
    case GetVar(v, fuel) => a := d.GetVar(v, fuel);
  }

  /** After any sequence of operations the store shows what they prescribe, the
      layers below are as before, and every read gave the uncached answer over
      what the store showed at its time. */
  method Run(d: DataSmart, ops: seq<Op>) returns (answers: seq<Answer>)
    requires Linked(d.dict) && d.Valid() && forall op :: op in ops ==> Allowed(op)
    modifies d, d.dict, VarDicts(d.dict)
    ensures d.Valid() && d.AllViews() == After(old(d.AllViews()), ops)
    ensures d.AllViews()[1..] == old(d.AllViews())[1..]
    ensures |answers| == |ops|
    ensures forall i :: 0 <= i < |ops| ==> Answered(After(old(d.AllViews()), ops[..i]), ops[i], answers[i])
  {
    hide Find, View, ViewVar, Views, Chain, Step, After, Answered, KeywordsHoldLists, CacheSound;
    answers := [];
    ghost var views := d.AllViews();
    assert ops[..0] == [];
    AfterNone(views);
    for i := 0 to |ops|
      invariant d.Valid() && d.AllViews() == After(views, ops[..i])
      invariant fresh(VarDicts(d.dict) - old(VarDicts(d.dict)))
      invariant |answers| == i
      invariant forall k :: 0 <= k < i ==> Answered(After(views, ops[..k]), ops[k], answers[k])
    {
      assert ops[i] in ops;
      AfterOneMore(views, ops, i);
      var a := Do(d, ops[i]);
      answers := answers + [a];
    }
    assert ops[..|ops|] == ops;
  }
}
