/** COWDictMeta: dictionaries layered by inheritance, copied on write.

A layer keeps immutable values under their key and mutable ones apart; reading
a mutable value through a layer that has none gives that layer a copy. */
module Cows {
  import opened Wrappers

  /** EmptyTuple is also the marker of a deleted key. */
  datatype Plain = Text(s: string) | EmptyTuple

  /** A mutable value: a set of strings that its owners may change in place. */
  class StringSet {
    var elements: set<string>

    constructor (elements: set<string>)
      ensures this.elements == elements
    {
      this.elements := elements;
    }
  }

  datatype Value = Immutable(p: Plain) | Mutable(m: StringSet)

  // --- what the layers show ---

  datatype LayerView = LayerView(plain: map<string, Plain>, mutables: map<string, set<string>>)

  datatype Shape = PlainShape(p: Plain) | SetShape(elements: set<string>)

  /** getattr(cls, key) */
  function PlainAt(views: seq<LayerView>, key: string): Option<Plain> {
    if views == [] then None
    else if key in views[0].plain then Some(views[0].plain[key])
    else PlainAt(views[1..], key)
  }

  /** getattr(cls, key + MUTABLE) */
  function MutableAt(views: seq<LayerView>, key: string): Option<set<string>> {
    if views == [] then None
    else if key in views[0].mutables then Some(views[0].mutables[key])
    else MutableAt(views[1..], key)
  }

  /** What __getitem__ answers, None for a KeyError. */
  function Shown(views: seq<LayerView>, key: string): Option<Shape> {
    match PlainAt(views, key)
    case Some(EmptyTuple) => None
    case Some(p) => Some(PlainShape(p))
    case None =>
      match MutableAt(views, key)
      case Some(e) => Some(SetShape(e))
      case None => None
  }

  /** What the nearest layer that has the key at all says about it. */
  function Nearest(views: seq<LayerView>, key: string): Option<Shape> {
    if views == [] then None
    else if key in views[0].plain then
      if views[0].plain[key] == EmptyTuple then None else Some(PlainShape(views[0].plain[key]))
    else if key in views[0].mutables then Some(SetShape(views[0].mutables[key]))
    else Nearest(views[1..], key)
  }

  /** A mutable value of the key comes before an immutable one, or a deletion, of a deeper layer. */
  predicate Switches(views: seq<LayerView>, key: string) {
    views != [] && key !in views[0].plain &&
    if key in views[0].mutables then PlainAt(views[1..], key).Some? else Switches(views[1..], key)
  }

  /** Reads give the nearest layer's value exactly for the keys that do not change kind. */
  lemma {:induction false} NearestIsShown(views: seq<LayerView>, key: string)
    ensures Shown(views, key) == Nearest(views, key) <==> !Switches(views, key)
  {
    if views != [] && key !in views[0].plain && key !in views[0].mutables {
      NearestIsShown(views[1..], key);
    }
  }

  // --- what the operations do ---

  function PutPlain(views: seq<LayerView>, key: string, p: Plain): seq<LayerView>
    requires views != []
  {
    [views[0].(plain := views[0].plain[key := p])] + views[1..]
  }

  function PutSet(views: seq<LayerView>, key: string, e: set<string>): seq<LayerView>
    requires views != []
  {
    [views[0].(mutables := views[0].mutables[key := e])] + views[1..]
  }

  /** The copy that a read through the top layer leaves there. */
  function Privately(views: seq<LayerView>, key: string): seq<LayerView>
    requires views != []
  {
    match MutableAt(views, key)
    case None => views
    case Some(e) => if key in views[0].mutables then views else PutSet(views, key, e)
  }

  /** __revertitem__, for a key the top layer has. */
  function Reverted(views: seq<LayerView>, key: string): seq<LayerView>
    requires views != []
  {
    if key in views[0].plain then [views[0].(plain := views[0].plain - {key})] + views[1..]
    else [views[0].(mutables := views[0].mutables - {key})] + views[1..]
  }

  lemma PrivatelyThenPut(views: seq<LayerView>, key: string, e: set<string>)
    requires views != []
    ensures PutSet(Privately(views, key), key, e) == PutSet(views, key, e)
  {
    var r := Privately(views, key);
    assert r[0].mutables[key := e] == views[0].mutables[key := e];
    assert r[1..] == views[1..];
  }

  /** A read never changes what any read shows. */
  lemma PrivatelyShowsTheSame(views: seq<LayerView>, key: string, k: string)
    requires views != []
    ensures Shown(Privately(views, key), k) == Shown(views, k)
  {
    assert Privately(views, key)[1..] == views[1..];
  }

  /** An immutable value is read back, unless it is the empty tuple. */
  lemma PutPlainLaws(views: seq<LayerView>, key: string, p: Plain, k: string)
    requires views != []
    ensures Shown(PutPlain(views, key, p), k) ==
      if k != key then Shown(views, k) else if p == EmptyTuple then None else Some(PlainShape(p))
  {
    assert PutPlain(views, key, p)[1..] == views[1..];
  }

  /** A mutable value is read back exactly when no layer holds an immutable
      value or a deletion of the key: setting it does not undo a deletion. */
  lemma PutSetLaws(views: seq<LayerView>, key: string, e: set<string>, k: string)
    requires views != []
    ensures k != key ==> Shown(PutSet(views, key, e), k) == Shown(views, k)
    ensures Shown(PutSet(views, key, e), key) == Some(SetShape(e)) <==> PlainAt(views, key).None?
    ensures Shown(PutSet(PutPlain(views, key, EmptyTuple), key, e), key) == None
  {
    assert PutSet(views, key, e)[1..] == views[1..];
    assert PutSet(PutPlain(views, key, EmptyTuple), key, e)[0].plain[key] == EmptyTuple;
  }

  /** Reverting a key the top layer has of one kind shows the layers below again. */
  lemma RevertedLaws(views: seq<LayerView>, key: string, k: string)
    requires views != [] && (key in views[0].plain || key in views[0].mutables)
    ensures k != key ==> Shown(Reverted(views, key), k) == Shown(views, k)
    ensures !(key in views[0].plain && key in views[0].mutables) ==>
      Shown(Reverted(views, key), key) == Shown(views[1..], key)
  {
    assert Reverted(views, key)[1..] == views[1..];
  }

  // --- the layers ---

  ghost predicate Linked(c: Cow)
    decreases c.count
  {
    c.base == null || (c.base.count < c.count && Linked(c.base))
  }

  /** The layer and those it inherits from. */
  ghost function Chain(c: Cow): (cs: seq<Cow>)
    requires Linked(c)
    ensures cs != [] && cs[0] == c
    ensures forall i :: 0 < i < |cs| ==> cs[i].count < c.count
    decreases c.count
  {
    if c.base == null then [c] else [c] + Chain(c.base)
  }

  ghost function Sets(c: Cow): set<StringSet>
    reads c
  {
    set k | k in c.mutables :: c.mutables[k]
  }

  ghost function View(c: Cow): LayerView
    reads c, Sets(c)
  {
    LayerView(c.plain, map k | k in c.mutables :: c.mutables[k].elements)
  }

  ghost function Views(cs: seq<Cow>): (views: seq<LayerView>)
    reads cs, set c, m | c in cs && m in Sets(c) :: m
    ensures |views| == |cs|
    ensures forall i :: 0 <= i < |cs| ==> views[i] == View(cs[i])
  {
    if cs == [] then [] else [View(cs[0])] + Views(cs[1..])
  }

  ghost function ShapeOf(value: Value): Shape
    reads if value.Mutable? then {value.m} else {}
  {
    match value
    case Immutable(p) => PlainShape(p)
    case Mutable(m) => SetShape(m.elements)
  }

  /** A layer shows the same when it and its sets are unchanged. */
  twostate lemma LayerStillShown(c: Cow)
    requires old(allocated(c)) && unchanged(c) && forall m :: m in old(Sets(c)) ==> unchanged(m)
    ensures View(c) == old(View(c)) && Sets(c) == old(Sets(c))
  {
    assert forall k :: k in c.mutables ==> c.mutables[k] in old(Sets(c)) && unchanged(c.mutables[k]);
  }

  class Cow {
    const base: Cow?
    const count: nat
    var plain: map<string, Plain>
    var mutables: map<string, StringSet>

    ghost function Below(): seq<Cow>
      requires Linked(this)
    {
      Chain(this)[1..]
    }

    ghost function AllViews(): (views: seq<LayerView>)
      requires Linked(this)
      reads Chain(this), set c, m | c in Chain(this) && m in Sets(c) :: m
      ensures views != [] && views[0] == View(this)
    {
      Views(Chain(this))
    }

    /** The mutable values of this layer are its own. */
    ghost predicate Owned()
      requires Linked(this)
      reads Chain(this)
    {
      && (forall k, l :: k in mutables && l in mutables && mutables[k] == mutables[l] ==> k == l)
      && (forall c :: c in Below() ==> Sets(c) !! Sets(this))
    }

    /** No layer holds this set. */
    ghost predicate Unused(m: StringSet)
      requires Linked(this)
      reads Chain(this)
    {
      forall c :: c in Chain(this) ==> m !in Sets(c)
    }

    constructor ()
      ensures Linked(this) && Owned() && AllViews() == [LayerView(map[], map[])]
    {
      base := null;
      count := 0;
      plain := map[];
      mutables := map[];
    }

    /** cls.cow() is new Cow.On(cls) */
    constructor On(cls: Cow)
      requires Linked(cls)
      ensures Linked(this) && Owned() && base == cls
      ensures AllViews() == [LayerView(map[], map[])] + cls.AllViews()
    {
      base := cls;
      count := cls.count + 1;
      plain := map[];
      mutables := map[];
      new;
      assert Chain(this) == [this] + Chain(cls);
    }

    lemma ViewsSplit()
      requires Linked(this)
      ensures Chain(this) == [this] + Below() && this !in Below()
      ensures AllViews() == [View(this)] + Views(Below())
    {
      assert Chain(this)[1..] == Below();
    }

    /** What the layers show does not change when no layer and no set does. */
    twostate lemma StillShown()
      requires Linked(this) && old(allocated(Chain(this)))
      requires forall c :: c in Chain(this) ==> unchanged(c)
      requires forall c, m :: c in Chain(this) && m in old(Sets(c)) ==> unchanged(m)
      ensures AllViews() == old(AllViews()) && Owned() == old(Owned())
    {
      hide View, Sets, Chain, Linked;
      forall c | c in Chain(this) ensures View(c) == old(View(c)) && Sets(c) == old(Sets(c)) {
        LayerStillShown(c);
      }
      ghost var now, was := AllViews(), old(AllViews());
      assert forall i :: 0 <= i < |Chain(this)| ==> now[i] == was[i];
      assert now == was;
    }

    /** getattr(cls, key) */
    function Attribute(key: string): (r: Option<Plain>)
      requires Linked(this)
      reads Chain(this), set c, m | c in Chain(this) && m in Sets(c) :: m
      ensures r == PlainAt(AllViews(), key)
      decreases count
    {
      if key in plain then Some(plain[key])
      else if base == null then None
      else
        assert AllViews()[1..] == base.AllViews();
        base.Attribute(key)
    }

    /** getattr(cls, key + MUTABLE) */
    function MutableAttribute(key: string): (r: Option<StringSet>)
      requires Linked(this)
      reads Chain(this), set c, m | c in Chain(this) && m in Sets(c) :: m
      ensures r.None? == MutableAt(AllViews(), key).None?
      ensures r.Some? ==> MutableAt(AllViews(), key) == Some(r.value.elements)
      ensures key in mutables ==> r == Some(mutables[key])
      decreases count
    {
      if key in mutables then Some(mutables[key])
      else if base == null then None
      else
        assert AllViews()[1..] == base.AllViews();
        base.MutableAttribute(key)
    }

    /** setattr(cls, key + MUTABLE, m) */
    method PutMutable(key: string, m: StringSet)
      requires Linked(this)
      modifies this`mutables
      ensures AllViews() == PutSet(old(AllViews()), key, m.elements)
      ensures mutables == old(mutables)[key := m]
      ensures old(Owned() && Unused(m)) ==> Owned()
    {
      ViewsSplit();
      ghost var below, top := Views(Below()), View(this);
      ghost var was := Sets(this);
      mutables := mutables[key := m];
      assert Views(Below()) == below;
      assert View(this).mutables == top.mutables[key := m.elements];
      assert Sets(this) <= was + {m};
      assert forall c :: c in Below() ==> Sets(c) == old(Sets(c)) && c in Chain(this);
      assert forall k :: k in old(mutables) ==> old(mutables)[k] in was;
      ViewsSplit();
    }

    /** __setitem__ */
    method SetItem(key: string, value: Value)
      requires Linked(this)
      modifies this`plain, this`mutables
      ensures AllViews() ==
        match value {
          case Immutable(p) => PutPlain(old(AllViews()), key, p)
          case Mutable(m) => PutSet(old(AllViews()), key, m.elements)
        }
      ensures AllViews()[1..] == old(AllViews())[1..]
      ensures Sets(this) <= old(Sets(this)) + if value.Mutable? then {value.m} else {}
      ensures old(Owned() && (value.Mutable? ==> Unused(value.m))) ==> Owned()
    {
      match value
      case Immutable(p) =>
        ViewsSplit();
        ghost var below := Views(Below());
        ghost var top := View(this);
        plain := plain[key := p];
        assert Views(Below()) == below;
        assert View(this) == top.(plain := top.plain[key := p]);
        ViewsSplit();
      case Mutable(m) =>
        PutMutable(key, m);
    }

    /** __getmutable__ */
    method GetMutable(key: string, readonly: bool) returns (r: Option<StringSet>)
      requires Linked(this)
      modifies this`mutables
      ensures r.None? <==> MutableAt(old(AllViews()), key).None?
      ensures r.Some? ==> MutableAt(old(AllViews()), key) == Some(r.value.elements)
      ensures AllViews() == if readonly then old(AllViews()) else Privately(old(AllViews()), key)
      ensures r.Some? && !readonly ==> key in mutables && mutables == old(mutables)[key := r.value]
      ensures r.Some? && !readonly && key !in old(mutables) ==> fresh(r.value)
      ensures key in old(mutables) ==> mutables == old(mutables)
      ensures old(Owned()) ==> Owned()
      ensures fresh(Sets(this) - old(Sets(this)))
      ensures readonly ==> mutables == old(mutables)
    {
      if key in mutables {
        return Some(mutables[key]);
      }
      var value := MutableAttribute(key);
      if value.None? || readonly {
        return value;
      }
      assert allocated(Chain(this));
      var copy := new StringSet(value.value.elements);
      StillShown();
      PutMutable(key, copy);
      return Some(copy);
    }

    /** __getitem__, None for a KeyError */
    method GetItem(key: string, readonly: bool) returns (r: Option<Value>)
      requires Linked(this)
      modifies this`mutables
      ensures r.None? <==> Shown(old(AllViews()), key).None?
      ensures r.Some? ==> Shown(old(AllViews()), key) == Some(ShapeOf(r.value))
      ensures AllViews() ==
        if readonly || PlainAt(old(AllViews()), key).Some? then old(AllViews()) else Privately(old(AllViews()), key)
      ensures AllViews()[1..] == old(AllViews())[1..]
      ensures r.Some? && r.value.Mutable? && !readonly ==>
        key in mutables && mutables[key] == r.value.m && (r.value.m in old(Sets(this)) || fresh(r.value.m))
      ensures old(Owned()) ==> Owned()
      ensures fresh(Sets(this) - old(Sets(this)))
      ensures readonly ==> mutables == old(mutables)
    {
      var value := Attribute(key);
      match value
      case Some(EmptyTuple) => r := None;
      case Some(p) => r := Some(Immutable(p));
      case None =>
        var m := GetMutable(key, readonly);
        r := if m.Some? then Some(Mutable(m.value)) else None;
    }

    /** __delitem__ */
    method DelItem(key: string)
      requires Linked(this)
      modifies this`plain, this`mutables
      ensures AllViews() == PutPlain(old(AllViews()), key, EmptyTuple)
      ensures AllViews()[1..] == old(AllViews())[1..]
      ensures old(Owned()) ==> Owned()
      ensures fresh(Sets(this) - old(Sets(this)))
    {
      SetItem(key, Immutable(EmptyTuple));
    }

    /** __revertitem__; false where the source raises */
    method RevertItem(key: string) returns (ok: bool)
      requires Linked(this)
      modifies this`plain, this`mutables
      ensures ok <==> key in old(plain) || key in old(mutables)
      ensures AllViews() == if ok then Reverted(old(AllViews()), key) else old(AllViews())
      ensures AllViews()[1..] == old(AllViews())[1..]
      ensures old(Owned()) ==> Owned()
      ensures fresh(Sets(this) - old(Sets(this)))
    {
      hide Views, Chain;
      ViewsSplit();
      ghost var below, top := Views(Below()), View(this);
      if key in plain {
        plain := plain - {key};
      } else if key in mutables {
        mutables := mutables - {key};
      } else {
        return false;
      }
      assert Views(Below()) == below;
      if key in old(plain) {
        assert View(this) == top.(plain := top.plain - {key});
      } else {
        assert View(this).mutables == top.mutables - {key};
        assert View(this) == top.(mutables := top.mutables - {key});
      }
      assert forall c :: c in Below() ==> Sets(c) == old(Sets(c));
      assert Sets(this) <= old(Sets(this));
      ViewsSplit();
      return true;
    }

    /** has_key */
    method HasKey(key: string) returns (r: bool)
      requires Linked(this)
      modifies this`mutables
      ensures r <==> Shown(old(AllViews()), key).Some?
      ensures AllViews() == old(AllViews()) && (old(Owned()) ==> Owned())
      ensures mutables == old(mutables)
    {
      var value := GetItem(key, true);
      r := value.Some?;
    }

    /** element joins the set this layer holds for the key. */
    method Insert(key: string, element: string)
      requires Linked(this) && Owned() && key in mutables
      modifies mutables[key]
      ensures Owned()
      ensures AllViews() == PutSet(old(AllViews()), key, old(mutables[key].elements) + {element})
    {
      ViewsSplit();
      ghost var below, top := Views(Below()), View(this);
      var m := mutables[key];
      assert m in Sets(this);
      m.elements := m.elements + {element};
      assert Views(Below()) == below;
      assert View(this).mutables == top.mutables[key := m.elements];
      ViewsSplit();
    }

    /** self[key].add(element): the write goes to this layer's copy, and no
        layer below shows it. */
    method AddElement(key: string, element: string) returns (ok: bool)
      requires Linked(this) && Owned()
      modifies this`mutables, Sets(this)
      ensures Owned()
      ensures ok <==> PlainAt(old(AllViews()), key).None? && MutableAt(old(AllViews()), key).Some?
      ensures AllViews() ==
        if ok then PutSet(old(AllViews()), key, MutableAt(old(AllViews()), key).value + {element}) else old(AllViews())
      ensures AllViews()[1..] == old(AllViews())[1..]
      ensures fresh(Sets(this) - old(Sets(this)))
    {
      hide View, Views, Chain;
      ghost var views := AllViews();
      var value := GetItem(key, false);
      match value
      case Some(Mutable(m)) =>
        ok := true;
        Insert(key, element);
        PrivatelyThenPut(views, key, MutableAt(views, key).value + {element});
      case _ =>
        ok := false;
    }
  }
}
