/** DataSmart: variable stores that shadow one another, with an expansion cache.

Layers, per-variable dictionaries and flag lists are objects, because the
source shares them between stores until the first write. */
module DataSmarts {
  import opened Expansion
  import opened Texts
  import opened Wrappers

  type Item = (string, Option<string>)

  /** A Python list held in a flag; it may be shared between layers. */
  class ItemList {
    var items: seq<Item>

    constructor (items: seq<Item>)
      ensures this.items == items
    {
      this.items := items;
    }
  }

  datatype Flag = Str(s: string) | Items(l: ItemList)

  /** self.dict[var]: the flags of one variable, among them "content". */
  class VarDict {
    var flags: map<string, Flag>

    constructor (flags: map<string, Flag>)
      ensures this.flags == flags
    {
      this.flags := flags;
    }
  }

  /** self.dict: the variables of one store, and "_data", the dictionary it shadows. */
  class Layer {
    var vars: map<string, VarDict>
    const data: Layer?
    const depth: nat

    constructor (data: Layer?)
      ensures vars == map[] && this.data == data
      ensures depth == if data == null then 0 else data.depth + 1
    {
      vars := map[];
      this.data := data;
      depth := if data == null then 0 else data.depth + 1;
    }
  }

  // --- what a store shows ---

  datatype FlagView = StrView(s: string) | ItemsView(items: seq<Item>)

  type VarView = map<string, FlagView>

  type LayerView = map<string, VarView>

  ghost function Lists(d: VarDict): set<ItemList>
    reads d
  {
    set k | k in d.flags && d.flags[k].Items? :: d.flags[k].l
  }

  ghost function ViewFlag(f: Flag): FlagView
    reads if f.Items? then {f.l} else {}
  {
    match f
    case Str(s) => StrView(s)
    case Items(l) => ItemsView(l.items)
  }

  ghost function ViewVar(d: VarDict): VarView
    reads d, Lists(d)
  {
    map k | k in d.flags :: ViewFlag(d.flags[k])
  }

  ghost function VarDicts(l: Layer): set<VarDict>
    reads l
  {
    set v | v in l.vars :: l.vars[v]
  }

  ghost function LayerLists(l: Layer): set<ItemList>
    reads l, VarDicts(l)
  {
    set v, x | v in l.vars && x in Lists(l.vars[v]) :: x
  }

  ghost function View(l: Layer): LayerView
    reads l, VarDicts(l), LayerLists(l)
  {
    map v | v in l.vars :: ViewVar(l.vars[v])
  }

  lemma ViewAt(l: Layer)
    ensures View(l).Keys == l.vars.Keys
    ensures forall v :: v in l.vars ==> View(l)[v] == ViewVar(l.vars[v])
  {
  }

  /** Following "_data" always comes to an end. */
  ghost predicate Linked(l: Layer)
    decreases l.depth
  {
    l.data == null || (l.data.depth < l.depth && Linked(l.data))
  }

  /** The layers from l down to the root. */
  ghost function Chain(l: Layer): (ls: seq<Layer>)
    requires Linked(l)
    ensures ls != [] && ls[0] == l
    ensures forall i :: 0 < i < |ls| ==> ls[i].depth < l.depth
    ensures forall i, j :: 0 <= i < j < |ls| ==> ls[i] != ls[j]
    decreases l.depth
  {
    if l.data == null then [l] else [l] + Chain(l.data)
  }

  /** The nearest layer that has the variable decides. */
  function Find(views: seq<LayerView>, v: string): VarView {
    if views == [] then map[]
    else if v in views[0] then views[0][v]
    else Find(views[1..], v)
  }

  ghost function Views(ls: seq<Layer>): (views: seq<LayerView>)
    reads ls, set l, d | l in ls && d in VarDicts(l) :: d
    reads set l, x | l in ls && x in LayerLists(l) :: x
    ensures |views| == |ls|
    ensures forall i :: 0 <= i < |ls| ==> views[i] == View(ls[i])
  {
    if ls == [] then [] else [View(ls[0])] + Views(ls[1..])
  }

  /** The unexpanded value of a variable. */
  function Content(d: VarView): Option<string> {
    if "content" in d && d["content"].StrView? then Some(d["content"].s) else None
  }

  function Known(views: seq<LayerView>): set<string> {
    if views == [] then {} else views[0].Keys + Known(views[1..])
  }

  /** The unexpanded value of every variable that has one. */
  function RawValues(views: seq<LayerView>): Values {
    map v | v in Known(views) && Content(Find(views, v)).Some? :: Content(Find(views, v)).value
  }

  lemma {:induction false} UnknownIsEmpty(views: seq<LayerView>, v: string)
    requires v !in Known(views)
    ensures Find(views, v) == map[]
  {
    if views != [] {
      UnknownIsEmpty(views[1..], v);
    }
  }

  lemma RawIsContent(views: seq<LayerView>, v: string)
    ensures v in RawValues(views) <==> Content(Find(views, v)).Some?
    ensures v in RawValues(views) ==> Some(RawValues(views)[v]) == Content(Find(views, v))
  {
    if v !in Known(views) {
      UnknownIsEmpty(views, v);
    }
  }

  lemma SameContentSameRaw(a: seq<LayerView>, b: seq<LayerView>)
    requires forall v :: Content(Find(a, v)) == Content(Find(b, v))
    ensures RawValues(a) == RawValues(b)
  {
    forall v ensures v in RawValues(a) <==> v in RawValues(b) {
      RawIsContent(a, v);
      RawIsContent(b, v);
    }
    forall v | v in RawValues(a) ensures RawValues(a)[v] == RawValues(b)[v] {
      RawIsContent(a, v);
      RawIsContent(b, v);
    }
  }

  /** Every cached text is the expansion of the variable's present value. */
  ghost predicate CacheSound(raw: Values, cache: map<string, string>) {
    forall v :: v in cache ==> CachedRight(raw, v, cache[v])
  }

  /** s is expanded for no variable, or is the value of the named one. */
  predicate OwnValue(raw: Values, s: string, varname: string) {
    varname != "" ==> varname in raw && raw[varname] == s && s != ""
  }

  ghost predicate CachedRight(raw: Values, v: string, t: string) {
    v in raw && raw[v] != "" && Expands(raw, raw[v], v, Text(t))
  }

  lemma {:induction false} FindSkips(views: seq<LayerView>, v: string, i: nat)
    requires i <= |views| && forall k :: 0 <= k < i ==> v !in views[k]
    ensures Find(views, v) == Find(views[i..], v)
  {
    if i > 0 {
      FindSkips(views[1..], v, i - 1);
      assert views[1..][i-1..] == views[i..];
    } else {
      assert views[0..] == views;
    }
  }

  lemma ChainStep(chain: seq<Layer>, i: nat, dest: Layer)
    requires i <= |chain| && Linked(dest) && chain[i..] == Chain(dest)
    ensures i < |chain| && chain[i] == dest
    ensures dest.data == null ==> i + 1 == |chain|
    ensures dest.data != null ==> Linked(dest.data) && chain[i+1..] == Chain(dest.data)
  {
    assert chain[i] == chain[i..][0];
    assert chain[i+1..] == chain[i..][1..];
    assert |chain| - i == |Chain(dest)|;
    assert dest.data != null ==> Chain(dest)[1..] == Chain(dest.data);
  }

  lemma FindInChain(chain: seq<Layer>, v: string, i: nat, dest: Layer?)
    requires i <= |chain| && forall k :: 0 <= k < i ==> v !in chain[k].vars
    requires dest == null ==> i == |chain|
    requires dest != null ==> Linked(dest) && chain[i..] == Chain(dest) && v in dest.vars
    ensures dest == null ==> Find(Views(chain), v) == map[]
    ensures dest != null ==> dest in chain && Find(Views(chain), v) == ViewVar(dest.vars[v])
  {
    FindSkips(Views(chain), v, i);
    if dest != null {
      ChainStep(chain, i, dest);
      assert Views(chain)[i..][0] == View(dest);
    }
  }

  /** Writing a variable in the top layer decides it and no other variable. */
  lemma FindTop(views: seq<LayerView>, v: string, x: VarView, w: string)
    requires views != []
    ensures Find([views[0][v := x]] + views[1..], w) == if w == v then x else Find(views, w)
  {
  }

  // --- what the operations do to a stack of views ---

  /** _makeShadowCopy: the variable gets a copy of its own in the top layer. */
  function Shadow(views: seq<LayerView>, v: string): seq<LayerView>
    requires views != []
  {
    if v in views[0] then views else [views[0][v := Find(views, v)]] + views[1..]
  }

  /** setVarFlag */
  function WithFlag(views: seq<LayerView>, v: string, flag: string, f: FlagView): (r: seq<LayerView>)
    requires views != []
    ensures r != [] && r[1..] == views[1..]
  {
    [views[0][v := Find(views, v)[flag := f]]] + views[1..]
  }

  lemma ShadowThenFlag(views: seq<LayerView>, v: string, flag: string, f: FlagView)
    requires views != []
    ensures Shadow(views, v) != [] && v in Shadow(views, v)[0]
    ensures Shadow(views, v)[0][v] == Find(views, v) && Shadow(views, v)[1..] == views[1..]
    ensures WithFlag(views, v, flag, f) == WithFlag(Shadow(views, v), v, flag, f)
  {
    if v !in views[0] {
      var top := views[0][v := Find(views, v)];
      assert top[v := Find(views, v)[flag := f]] == views[0][v := Find(views, v)[flag := f]];
    }
  }

  /** delVar */
  function WithoutVar(views: seq<LayerView>, v: string): (r: seq<LayerView>)
    requires views != []
    ensures r != [] && r[1..] == views[1..]
  {
    [views[0][v := map[]]] + views[1..]
  }

  /** The items of a list flag, [] when there is none. */
  function ItemsOf(d: VarView, flag: string): seq<Item> {
    if flag in d && d[flag].ItemsView? then d[flag].items else []
  }

  datatype Keyword = Keyword(base: string, keyword: string, add: Option<string>)

  /** (?P<base>.*?)(?P<keyword>_append|_prepend)(_(?P<add>.*))? at the start of v */
  function SplitKeyword(v: string, base: string): Option<Keyword>
    decreases |v|
  {
    if "_append" <= v then Some(Keyword(base, "_append", Override(v[7..])))
    else if "_prepend" <= v then Some(Keyword(base, "_prepend", Override(v[8..])))
    else if v == "" || v[0] == '\n' then None
    else SplitKeyword(v[1..], base + [v[0]])
  }

  function Override(rest: string): Option<string> {
    if rest != "" && rest[0] == '_' then Some(Line(rest[1..])) else None
  }

  /** A keyword stands at i, on the first line. */
  predicate KeywordAt(v: string, i: nat, keyword: string) {
    IsKeyword(keyword) && i <= |v| && keyword <= v[i..] && '\n' !in v[..i]
  }

  /** No keyword stands in front of n. */
  ghost predicate NoneBefore(v: string, n: nat) {
    forall i: nat, keyword :: i < n ==> !KeywordAt(v, i, keyword)
  }

  lemma NoneBeforeStep(v: string, n: nat)
    requires v != "" && !("_append" <= v) && !("_prepend" <= v) && (v[0] != '\n' ==> NoneBefore(v[1..], n))
    ensures NoneBefore(v, n + 1)
  {
    forall i: nat, keyword | i < n + 1 ensures !KeywordAt(v, i, keyword) {
      if i == 0 {
        assert v[0..] == v;
      } else if i <= |v| {
        assert v[..i][0] == v[0];
        assert v[1..][i-1..] == v[i..] && v[..i] == [v[0]] + v[1..][..i-1];
        assert v[0] != '\n' ==> !KeywordAt(v[1..], i - 1, keyword);
      }
    }
  }

  /** k is the first keyword of v's first line. */
  ghost predicate FirstKeyword(v: string, k: Keyword) {
    && KeywordAt(v, |k.base|, k.keyword) && k.base <= v && NoneBefore(v, |k.base|)
    && k.add == Override(v[|k.base|+|k.keyword|..])
  }

  lemma KeywordAtStep(v: string, n: nat, keyword: string)
    requires v != "" && v[0] != '\n' && KeywordAt(v[1..], n, keyword)
    ensures KeywordAt(v, n + 1, keyword) && v[n+1+|keyword|..] == v[1..][n+|keyword|..]
  {
    var t := v[1..];
    assert t[n..] == v[n+1..];
    assert v[..n+1] == [v[0]] + t[..n];
  }

  lemma FirstKeywordStep(v: string, k: Keyword)
    requires v != "" && v[0] != '\n' && !("_append" <= v) && !("_prepend" <= v) && FirstKeyword(v[1..], k)
    ensures FirstKeyword(v, k.(base := [v[0]] + k.base))
  {
    hide NoneBefore, KeywordAt, Override;
    NoneBeforeStep(v, |k.base|);
    KeywordAtStep(v, |k.base|, k.keyword);
    PrefixStep(v, k.base);
    assert |[v[0]] + k.base| == |k.base| + 1;
  }

  lemma PrefixStep(v: string, base: string)
    requires v != "" && base <= v[1..]
    ensures [v[0]] + base <= v
  {
  }

  lemma {:induction false} KeywordIsFirst(v: string, base: string)
    ensures match SplitKeyword(v, base)
      case None => NoneBefore(v, |v| + 1)
      case Some(_) =>
        var k := SplitKeyword(v, base).value;
        base <= k.base && FirstKeyword(v, k.(base := k.base[|base|..]))
    decreases |v|
  {
    assert v[0..] == v && base[|base|..] == "";
    hide FirstKeyword, NoneBefore;
    if "_append" <= v || "_prepend" <= v {
      StartIsFirst(v, SplitKeyword(v, base).value.(base := ""));
    } else if v == "" || v[0] == '\n' {
      NothingHere(v);
    } else {
      var longer := base + [v[0]];
      KeywordIsFirst(v[1..], longer);
      if SplitKeyword(v, base).None? {
        NoneBeforeStep(v, |v|);
      } else {
        var k := SplitKeyword(v, base).value;
        FirstKeywordStep(v, k.(base := k.base[|longer|..]));
        assert k.base[|base|..] == [v[0]] + k.base[|longer|..];
      }
    }
  }

  lemma StartIsFirst(v: string, k: Keyword)
    requires k.base == "" && IsKeyword(k.keyword) && k.keyword <= v && k.add == Override(v[|k.keyword|..])
    ensures FirstKeyword(v, k)
  {
    assert v[0..] == v;
  }

  lemma NothingHere(v: string)
    requires v == "" || v[0] == '\n'
    ensures NoneBefore(v, |v| + 1)
  {
    forall i: nat, keyword | i <= |v| ensures !KeywordAt(v, i, keyword) {
      assert i == 0 ==> v[i..] == v;
      assert i > 0 ==> v[..i][0] == v[0];
    }
  }

  /** What follows the keyword: an underscore and a text up to the line end, or neither. */
  predicate OverrideOf(rest: string, add: Option<string>) {
    match add
    case None => rest == "" || rest[0] != '_'
    case Some(t) => "_" + t <= rest && '\n' !in t && (|t| + 1 < |rest| ==> rest[|t|+1] == '\n')
  }

  lemma OverrideMeans(rest: string)
    ensures OverrideOf(rest, Override(rest))
  {
    if rest != "" && rest[0] == '_' {
      var t := Line(rest[1..]);
      assert rest == "_" + rest[1..] && rest[1..][..|t|] == t;
    }
  }

  /** The name of a keyword variable is base, the first keyword of its first line, and
      the override, if there is one; all other names are plain. */
  lemma KeywordMeans(v: string)
    ensures SplitKeyword(v, "").None? <==> forall i: nat, keyword :: !KeywordAt(v, i, keyword)
    ensures SplitKeyword(v, "").Some? ==>
      var k := SplitKeyword(v, "").value;
      && KeywordAt(v, |k.base|, k.keyword) && k.base <= v
      && (forall i: nat, keyword :: i < |k.base| ==> !KeywordAt(v, i, keyword))
      && OverrideOf(v[|k.base|+|k.keyword|..], k.add)
  {
    KeywordIsFirst(v, "");
    if SplitKeyword(v, "").Some? {
      var k := SplitKeyword(v, "").value;
      assert k.base[0..] == k.base;
      OverrideMeans(v[|k.base|+|k.keyword|..]);
      hide SplitKeyword, Override;
    }
  }

  /** setVar */
  function WithValue(views: seq<LayerView>, v: string, value: string): (r: seq<LayerView>)
    requires views != []
    ensures r != [] && r[1..] == views[1..]
  {
    match SplitKeyword(v, "")
    case None => WithFlag(views, v, "content", StrView(value))
    case Some(k) =>
      WithFlag(views, k.base, k.keyword, ItemsView(ItemsOf(Find(views, k.base), k.keyword) + [(value, k.add)]))
  }

  /** Can an item be appended to this flag? */
  predicate HoldsList(d: VarView, flag: string) {
    flag in d ==> d[flag].ItemsView? || d[flag].s == ""
  }

  /** __setvar_keyword__ */
  predicate IsKeyword(flag: string) {
    flag in {"_append", "_prepend"}
  }

  ghost predicate KeywordsHoldLists(views: seq<LayerView>) {
    forall v :: HoldsList(Find(views, v), "_append") && HoldsList(Find(views, v), "_prepend")
  }

  lemma WithFlagHoldsLists(views: seq<LayerView>, v: string, flag: string, f: FlagView)
    requires views != [] && KeywordsHoldLists(views)
    requires IsKeyword(flag) ==> f.ItemsView?
    ensures KeywordsHoldLists(WithFlag(views, v, flag, f))
  {
    forall w
      ensures HoldsList(Find(WithFlag(views, v, flag, f), w), "_append")
      ensures HoldsList(Find(WithFlag(views, v, flag, f), w), "_prepend")
    {
      FlagDecides(views, v, flag, f, w);
    }
  }

  lemma FlagDecides(views: seq<LayerView>, v: string, flag: string, f: FlagView, w: string)
    requires views != []
    ensures Find(WithFlag(views, v, flag, f), w) == if w == v then Find(views, v)[flag := f] else Find(views, w)
  {
    FindTop(views, v, Find(views, v)[flag := f], w);
  }

  /** Flags other than "content" have no influence on any value. */
  lemma FlagKeepsValues(views: seq<LayerView>, v: string, flag: string, f: FlagView)
    requires views != [] && flag != "content"
    ensures RawValues(WithFlag(views, v, flag, f)) == RawValues(views)
  {
    forall w ensures Content(Find(WithFlag(views, v, flag, f), w)) == Content(Find(views, w)) {
      FlagDecides(views, v, flag, f, w);
    }
    SameContentSameRaw(WithFlag(views, v, flag, f), views);
  }

  lemma {:induction false} KeywordNames(v: string, base: string)
    ensures SplitKeyword(v, base).Some? ==> SplitKeyword(v, base).value.keyword in {"_append", "_prepend"}
    decreases |v|
  {
    if !("_append" <= v || "_prepend" <= v || v == "" || v[0] == '\n') {
      KeywordNames(v[1..], base + [v[0]]);
    }
  }

  /** After setVar of a plain variable that variable has the value and all
      others keep theirs; a keyword variable adds to its base's list and
      changes no value at all. */
  lemma SetVarLaws(views: seq<LayerView>, v: string, value: string, w: string)
    requires views != []
    ensures SplitKeyword(v, "").None? ==>
      Content(Find(WithValue(views, v, value), w)) == if w == v then Some(value) else Content(Find(views, w))
    ensures SplitKeyword(v, "").Some? ==>
      Content(Find(WithValue(views, v, value), w)) == Content(Find(views, w))
    ensures SplitKeyword(v, "").Some? ==>
      var k := SplitKeyword(v, "").value;
      ItemsOf(Find(WithValue(views, v, value), w), k.keyword) ==
      ItemsOf(Find(views, w), k.keyword) + if w == k.base then [(value, k.add)] else []
  {
    KeywordNames(v, "");
    match SplitKeyword(v, "")
    case None => FlagDecides(views, v, "content", StrView(value), w);
    case Some(k) =>
      FlagDecides(views, k.base, k.keyword, ItemsView(ItemsOf(Find(views, k.base), k.keyword) + [(value, k.add)]), w);
  }

  lemma WithValueHoldsLists(views: seq<LayerView>, v: string, value: string)
    requires views != [] && KeywordsHoldLists(views)
    ensures KeywordsHoldLists(WithValue(views, v, value))
  {
    match SplitKeyword(v, "")
    case None => WithFlagHoldsLists(views, v, "content", StrView(value));
    case Some(k) =>
      WithFlagHoldsLists(views, k.base, k.keyword,
        ItemsView(ItemsOf(Find(views, k.base), k.keyword) + [(value, k.add)]));
  }

  /** One round of renameVar's loop: newkey's list is extended by key's. */
  function Extended(views: seq<LayerView>, key: string, newkey: string, flag: string): (r: seq<LayerView>)
    requires views != []
    ensures r != [] && r[1..] == views[1..]
  {
    WithFlag(views, newkey, flag, ItemsView(ItemsOf(Find(views, newkey), flag) + ItemsOf(Find(views, key), flag)))
  }

  /** renameVar */
  function Renamed(views: seq<LayerView>, key: string, newkey: string): (r: seq<LayerView>)
    requires views != []
    ensures r != [] && r[1..] == views[1..]
  {
    match Content(Find(views, key))
    case None => views
    case Some(value) =>
      var lists := Extended(WithValue(views, newkey, value), key, newkey, "_append");
      WithoutVar(Extended(lists, key, newkey, "_prepend"), key)
  }

  lemma ExtendedLaws(views: seq<LayerView>, key: string, newkey: string, flag: string, w: string)
    requires views != [] && flag in {"_append", "_prepend"}
    ensures w != newkey ==> Find(Extended(views, key, newkey, flag), w) == Find(views, w)
    ensures
      var d := Find(Extended(views, key, newkey, flag), newkey);
      && Content(d) == Content(Find(views, newkey))
      && forall g :: g in {"_append", "_prepend"} ==>
           ItemsOf(d, g) == ItemsOf(Find(views, newkey), g) + if g == flag then ItemsOf(Find(views, key), flag) else []
  {
    var f := ItemsView(ItemsOf(Find(views, newkey), flag) + ItemsOf(Find(views, key), flag));
    FlagDecides(views, newkey, flag, f, w);
    FlagDecides(views, newkey, flag, f, newkey);
  }

  /** Renaming to a plain name moves the value and the keyword lists, removes
      the old name and leaves every other variable alone. */
  lemma RenameLaws(views: seq<LayerView>, key: string, newkey: string, w: string)
    requires views != [] && key != newkey && SplitKeyword(newkey, "").None?
    requires Content(Find(views, key)).Some?
    ensures Find(Renamed(views, key, newkey), key) == map[]
    ensures Content(Find(Renamed(views, key, newkey), newkey)) == Content(Find(views, key))
    ensures forall g :: g in {"_append", "_prepend"} ==>
      ItemsOf(Find(Renamed(views, key, newkey), newkey), g) ==
        ItemsOf(Find(views, newkey), g) + ItemsOf(Find(views, key), g)
    ensures w != key && w != newkey ==> Find(Renamed(views, key, newkey), w) == Find(views, w)
  {
    hide Find, Renamed, Content, ItemsOf, WithValue, Extended, WithoutVar, SplitKeyword;
    RenamedKey(views, key, newkey);
    RenamedNewKey(views, key, newkey);
    if w != key && w != newkey {
      RenamedOther(views, key, newkey, w);
    }
  }

  lemma RenamedKey(views: seq<LayerView>, key: string, newkey: string)
    requires views != [] && SplitKeyword(newkey, "").None? && Content(Find(views, key)).Some?
    ensures Find(Renamed(views, key, newkey), key) == map[]
  {
    hide Find;
    RenameSteps(views, key, newkey, key);
  }

  lemma RenamedOther(views: seq<LayerView>, key: string, newkey: string, w: string)
    requires views != [] && SplitKeyword(newkey, "").None? && Content(Find(views, key)).Some?
    requires w != key && w != newkey
    ensures Find(Renamed(views, key, newkey), w) == Find(views, w)
  {
    hide Find, Renamed, Content, ItemsOf, WithValue, Extended, WithoutVar;
    RenameSteps(views, key, newkey, w);
  }

  lemma RenamedNewKey(views: seq<LayerView>, key: string, newkey: string)
    requires views != [] && SplitKeyword(newkey, "").None? && Content(Find(views, key)).Some? && key != newkey
    ensures Content(Find(Renamed(views, key, newkey), newkey)) == Content(Find(views, key))
    ensures forall g :: g in {"_append", "_prepend"} ==>
      ItemsOf(Find(Renamed(views, key, newkey), newkey), g) ==
        ItemsOf(Find(views, newkey), g) + ItemsOf(Find(views, key), g)
  {
    hide Find, Renamed, WithValue, Extended, WithoutVar;
    RenameSteps(views, key, newkey, newkey);
    RenameSteps(views, key, newkey, key);
  }

  lemma RenameSteps(views: seq<LayerView>, key: string, newkey: string, x: string)
    requires views != [] && SplitKeyword(newkey, "").None? && Content(Find(views, key)).Some?
    ensures
      var value := Content(Find(views, key)).value;
      var a := WithValue(views, newkey, value);
      var b := Extended(a, key, newkey, "_append");
      var c := Extended(b, key, newkey, "_prepend");
      && Renamed(views, key, newkey) == WithoutVar(c, key)
      && Find(a, x) == (if x == newkey then Find(views, x)["content" := StrView(value)] else Find(views, x))
      && (x != newkey ==> Find(b, x) == Find(a, x) && Find(c, x) == Find(b, x))
      && Find(WithoutVar(c, key), x) == (if x == key then map[] else Find(c, x))
      && Content(Find(c, newkey)) == Content(Find(b, newkey)) == Content(Find(a, newkey))
      && (forall g :: g in {"_append", "_prepend"} ==>
           && ItemsOf(Find(b, newkey), g) ==
              ItemsOf(Find(a, newkey), g) + (if g == "_append" then ItemsOf(Find(a, key), g) else [])
           && ItemsOf(Find(c, newkey), g) ==
              ItemsOf(Find(b, newkey), g) + (if g == "_prepend" then ItemsOf(Find(b, key), g) else []))
  {
    hide Find;
    var value := Content(Find(views, key)).value;
    var a := WithValue(views, newkey, value);
    var b := Extended(a, key, newkey, "_append");
    FlagDecides(views, newkey, "content", StrView(value), x);
    ExtendedLaws(a, key, newkey, "_append", x);
    ExtendedLaws(b, key, newkey, "_prepend", x);
    DelVarLaws(Extended(b, key, newkey, "_prepend"), key, x);
  }

  /** A deleted variable has no value, whatever the layers below say. */
  lemma DelVarLaws(views: seq<LayerView>, v: string, w: string)
    requires views != []
    ensures Find(WithoutVar(views, v), w) == if w == v then map[] else Find(views, w)
  {
    FindTop(views, v, map[], w);
  }

  lemma WithoutVarHoldsLists(views: seq<LayerView>, v: string)
    requires views != [] && KeywordsHoldLists(views)
    ensures KeywordsHoldLists(WithoutVar(views, v))
  {
    forall w
      ensures HoldsList(Find(WithoutVar(views, v), w), "_append")
      ensures HoldsList(Find(WithoutVar(views, v), w), "_prepend")
    {
      DelVarLaws(views, v, w);
    }
  }

  /** An empty layer on top changes nothing. */
  lemma EmptyOnTop(views: seq<LayerView>)
    ensures RawValues([map[]] + views) == RawValues(views)
    ensures KeywordsHoldLists([map[]] + views) <==> KeywordsHoldLists(views)
  {
    forall v ensures Find([map[]] + views, v) == Find(views, v) {
    }
    assert forall v :: Find([map[]] + views, v) == Find(views, v);
    SameContentSameRaw([map[]] + views, views);
  }

  twostate lemma VarStillShown(d: VarDict)
    requires old(allocated(d)) && unchanged(d) && forall x :: x in old(Lists(d)) ==> unchanged(x)
    ensures ViewVar(d) == old(ViewVar(d)) && Lists(d) == old(Lists(d))
  {
    forall k | k in d.flags ensures ViewFlag(d.flags[k]) == old(ViewFlag(d.flags[k])) {
      assert d.flags[k].Items? ==> d.flags[k].l in old(Lists(d));
    }
  }

  /** A layer shows the same when it, its dictionaries and their lists are unchanged. */
  twostate lemma LayerStillShown(l: Layer)
    requires old(allocated(l)) && unchanged(l)
    requires forall d :: d in old(VarDicts(l)) ==> unchanged(d)
    requires forall x :: x in old(LayerLists(l)) ==> unchanged(x)
    ensures View(l) == old(View(l)) && VarDicts(l) == old(VarDicts(l)) && LayerLists(l) == old(LayerLists(l))
  {
    forall v | v in l.vars
      ensures ViewVar(l.vars[v]) == old(ViewVar(l.vars[v])) && Lists(l.vars[v]) == old(Lists(l.vars[v]))
    {
      assert l.vars[v] in old(VarDicts(l));
      assert forall x :: x in old(Lists(l.vars[v])) ==> x in old(LayerLists(l));
      VarStillShown(l.vars[v]);
    }
  }

  class DataSmart {
    const dict: Layer
    var expand_cache: map<string, string>

    /** The layers this store shadows, nearest first. */
    ghost function Below(): seq<Layer>
      requires Linked(dict)
    {
      Chain(dict)[1..]
    }

    ghost function AllViews(): seq<LayerView>
      requires Linked(dict)
      reads Chain(dict), set l, d | l in Chain(dict) && d in VarDicts(l) :: d
      reads set l, x | l in Chain(dict) && x in LayerLists(l) :: x
    {
      Views(Chain(dict))
    }

    /** The dictionaries of this layer are its own: no other variable and no
        layer below uses them. */
    ghost predicate Owned()
      requires Linked(dict)
      reads Chain(dict)
    {
      && (forall v, w :: v in dict.vars && w in dict.vars && dict.vars[v] == dict.vars[w] ==> v == w)
      && (forall l :: l in Below() ==> VarDicts(l) !! VarDicts(dict))
    }

    ghost predicate Valid()
      requires Linked(dict)
      reads this, Chain(dict), set l, d | l in Chain(dict) && d in VarDicts(l) :: d
      reads set l, x | l in Chain(dict) && x in LayerLists(l) :: x
    {
      Owned() && KeywordsHoldLists(AllViews()) && CacheSound(RawValues(AllViews()), expand_cache)
    }

    constructor ()
      ensures Linked(dict) && Valid() && fresh(dict) && dict.data == null && View(dict) == map[] &&
        expand_cache == map[]
    {
      dict := new Layer(null);
      expand_cache := map[];
    }

    /** createCopy: a new store whose empty layer shadows this one. */
    constructor CreateCopy(d: DataSmart)
      requires Linked(d.dict) && d.Valid()
      ensures Linked(dict) && Valid() && fresh(dict) && dict.data == d.dict && View(dict) == map[] &&
        expand_cache == map[]
      ensures AllViews() == [map[]] + d.AllViews()
    {
      hide Find, View, Views, KeywordsHoldLists, RawValues, CachedRight;
      dict := new Layer(d.dict);
      expand_cache := map[];
      new;
      d.StillShown();
      ViewAt(dict);
      assert Chain(dict) == [dict] + Chain(d.dict);
      ViewsSplit();
      EmptyOnTop(d.AllViews());
    }

    /** The stack of views is this layer's view on top of those below. */
    lemma ViewsSplit()
      requires Linked(dict)
      ensures Chain(dict) == [dict] + Below() && dict !in Below()
      ensures AllViews() == [View(dict)] + Views(Below())
    {
      assert Chain(dict)[1..] == Below();
    }

    /** What lies below the top view is what the shadowed store shows. */
    lemma ParentViews(parent: DataSmart)
      requires Linked(dict) && dict.data == parent.dict
      ensures Linked(parent.dict) && parent.AllViews() == AllViews()[1..]
    {
      assert Chain(dict)[1..] == Chain(parent.dict);
    }

    lemma TopHas(v: string)
      requires Linked(dict)
      ensures AllViews() != [] && AllViews()[0] == View(dict)
      ensures v in AllViews()[0] <==> v in dict.vars
      ensures v in dict.vars ==> AllViews()[0][v] == ViewVar(dict.vars[v]) == Find(AllViews(), v)
    {
      ViewsSplit();
    }

    /** What the layers show does not change when no layer, dictionary or list does. */
    twostate lemma StillShown()
      requires Linked(dict) && old(allocated(Chain(dict)))
      requires forall l :: l in Chain(dict) ==> unchanged(l)
      requires forall l, d :: l in Chain(dict) && d in old(VarDicts(l)) ==> unchanged(d)
      requires forall l, x :: l in Chain(dict) && x in old(LayerLists(l)) ==> unchanged(x)
      ensures AllViews() == old(AllViews()) && View(dict) == old(View(dict))
      ensures Owned() == old(Owned())
    {
      hide View, VarDicts, LayerLists, Chain, Linked;
      forall l | l in Chain(dict)
        ensures View(l) == old(View(l)) && VarDicts(l) == old(VarDicts(l))
      {
        LayerStillShown(l);
      }
      ghost var now, was := AllViews(), old(AllViews());
      assert forall i :: 0 <= i < |Chain(dict)| ==> now[i] == was[i];
      assert now == was;
    }

    /** _findVar */
    method FindVar(v: string) returns (d: VarDict?)
      requires Linked(dict)
      ensures d == null ==> Find(AllViews(), v) == map[] && v !in dict.vars
      ensures d != null ==> ViewVar(d) == Find(AllViews(), v) && exists l :: l in Chain(dict) && d in VarDicts(l)
      ensures d != null && v in dict.vars ==> d == dict.vars[v]
    {
      hide Find, View, ViewVar;
      var dest: Layer? := dict;
      ghost var i := 0;
      ghost var chain := Chain(dict);
      while dest != null && v !in dest.vars
        invariant 0 <= i <= |chain|
        invariant dest == null ==> i == |chain|
        invariant dest != null ==> Linked(dest) && chain[i..] == Chain(dest)
        invariant forall k :: 0 <= k < i ==> v !in chain[k].vars
        decreases if dest == null then 0 else dest.depth + 1
      {
        ChainStep(chain, i, dest);
        dest := dest.data;
        i := i + 1;
      }
      FindInChain(chain, v, i, dest);
      if dest != null {
        d := dest.vars[v];
        assert dest in chain && d in VarDicts(dest);
      } else {
        d := null;
      }
    }

    /** The layers below show the same when they, their dictionaries and lists are unchanged. */
    twostate lemma BelowStillShown()
      requires Linked(dict) && old(allocated(Chain(dict)))
      requires forall l :: l in Below() ==> unchanged(l)
      requires forall l, d :: l in Below() && d in old(VarDicts(l)) ==> unchanged(d)
      requires forall l, x :: l in Below() && x in old(LayerLists(l)) ==> unchanged(x)
      ensures Views(Below()) == old(Views(Below()))
      ensures forall l :: l in Below() ==> VarDicts(l) == old(VarDicts(l))
    {
      hide View, VarDicts, LayerLists, Chain, Linked;
      forall l | l in Below()
        ensures View(l) == old(View(l)) && VarDicts(l) == old(VarDicts(l))
      {
        assert l in Chain(dict);
        LayerStillShown(l);
      }
      ghost var now, was := Views(Below()), old(Views(Below()));
      assert forall i :: 0 <= i < |Below()| ==> now[i] == was[i];
      assert now == was;
    }

    /** The top layer after one variable was given another dictionary, or its own was changed. */
    twostate lemma TopShowsOneChange(v: string)
      requires Linked(dict) && old(allocated(Chain(dict))) && v in dict.vars
      requires dict.vars == old(dict.vars)[v := dict.vars[v]]
      requires forall w :: w in old(dict.vars) && w != v ==> unchanged(dict.vars[w])
      requires forall x :: x in old(LayerLists(dict)) ==> unchanged(x)
      ensures View(dict) == old(View(dict))[v := ViewVar(dict.vars[v])]
    {
      hide ViewVar;
      forall w | w in dict.vars && w != v
        ensures ViewVar(dict.vars[w]) == old(ViewVar(dict.vars[w]))
      {
        assert dict.vars[w] == old(dict.vars[w]);
        assert forall x :: x in old(Lists(dict.vars[w])) ==> x in old(LayerLists(dict));
        VarStillShown(dict.vars[w]);
      }
    }

    /** self.dict[v] = d, for a dictionary that no layer uses yet. */
    method PutVar(v: string, d: VarDict)
      requires Linked(dict) && Owned()
      requires forall l :: l in Chain(dict) ==> d !in VarDicts(l)
      modifies dict
      ensures Owned() && dict.vars == old(dict.vars)[v := d]
      ensures AllViews() == [old(View(dict))[v := old(ViewVar(d))]] + old(AllViews())[1..]
    {
      hide Find, View, Views, Chain, LayerLists;
      ViewsSplit();
      assert allocated(Chain(dict));
      ghost var was, x := dict.vars, ViewVar(d);
      forall w | w in was ensures was[w] != d {
        assert dict in Chain(dict) && was[w] in VarDicts(dict);
      }
      dict.vars := dict.vars[v := d];
      assert ViewVar(d) == x;
      BelowStillShown();
      TopShowsOneChange(v);
      assert VarDicts(dict) <= old(VarDicts(dict)) + {d};
      assert forall l :: l in Below() ==> l in Chain(dict);
      ViewsSplit();
    }

    /** self.dict[v][flag] = f */
    method PutFlag(v: string, flag: string, f: Flag)
      requires Linked(dict) && Owned() && v in dict.vars
      modifies dict.vars[v]
      ensures Owned() && VarDicts(dict) == old(VarDicts(dict))
      ensures AllViews() ==
        [old(View(dict))[v := old(ViewVar(dict.vars[v]))[flag := ViewFlag(f)]]] + old(AllViews())[1..]
    {
      hide Find, View, Views, Chain, LayerLists;
      ViewsSplit();
      assert allocated(Chain(dict));
      ghost var d := dict.vars[v];
      ghost var shown := ViewVar(d);
      assert d in VarDicts(dict);
      dict.vars[v].flags := dict.vars[v].flags[flag := f];
      assert ViewVar(d) == shown[flag := ViewFlag(f)];
      BelowStillShown();
      TopShowsOneChange(v);
      ViewsSplit();
    }

    /** A new dictionary with the flags the variable shows. */
    method CopyOfVar(v: string) returns (d: VarDict)
      requires Linked(dict)
      modifies `expand_cache
      ensures fresh(d) && ViewVar(d) == Find(old(AllViews()), v)
      ensures expand_cache == old(expand_cache) || expand_cache == map[]
    {
      hide Find, View, Views, Chain;
      assert allocated(Chain(dict));
      var local_var := FindVar(v);
      StillShown();
      if local_var != null && |local_var.flags| > 0 {
        d := new VarDict(local_var.flags);
        assert ViewVar(d) == ViewVar(local_var);
      } else {
        assert Find(AllViews(), v) == map[];
        expand_cache := map[];
        d := new VarDict(map[]);
      }
      StillShown();
    }

    /** _makeShadowCopy */
    method MakeShadowCopy(v: string)
      requires Linked(dict) && Owned()
      modifies dict, `expand_cache
      ensures Owned() && v in dict.vars && AllViews() == Shadow(old(AllViews()), v)
      ensures dict.vars == old(dict.vars)[v := dict.vars[v]]
      ensures if v in old(dict.vars) then dict.vars == old(dict.vars) else fresh(dict.vars[v])
      ensures expand_cache == old(expand_cache) || expand_cache == map[]
    {
      hide Find, View, ViewVar, Views, Chain;
      assert allocated(Chain(dict));
      TopHas(v);
      ViewsSplit();
      if v in dict.vars {
        return;
      }
      var d := CopyOfVar(v);
      StillShown();
      PutVar(v, d);
    }

    /** getVarFlag: lists are copied before they are handed out. */
    method GetVarFlag(v: string, flag: string) returns (r: Option<Flag>)
      requires Linked(dict)
      ensures r.Some? <==> flag in Find(old(AllViews()), v)
      ensures r.Some? ==> ViewFlag(r.value) == Find(old(AllViews()), v)[flag]
      ensures r.Some? && r.value.Items? ==> fresh(r.value.l)
    {
      hide Find, View, Views, Chain;
      assert allocated(Chain(dict));
      var local_var := FindVar(v);
      StillShown();
      r := None;
      if local_var != null && flag in local_var.flags {
        match local_var.flags[flag]
        case Str(s) => r := Some(Str(s));
        case Items(l) =>
          var copy := new ItemList(l.items);
          r := Some(Items(copy));
      }
    }

    /** setVarFlag */
    method SetVarFlag(v: string, flag: string, f: Flag)
      requires Linked(dict) && Owned()
      modifies dict, `expand_cache, if v in dict.vars then {dict.vars[v]} else {}
      ensures Owned() && AllViews() == WithFlag(old(AllViews()), v, flag, old(ViewFlag(f)))
      ensures expand_cache == old(expand_cache) || expand_cache == map[]
      ensures fresh(VarDicts(dict) - old(VarDicts(dict)))
      ensures AllViews()[1..] == old(AllViews())[1..]
      ensures flag != "content" && (IsKeyword(flag) ==> f.Items?) && old(Valid()) ==> Valid()
    {
      hide Find, View, ViewVar, Views, Chain;
      ghost var views, x := AllViews(), ViewFlag(f);
      TopHas(v);
      MakeShadowCopy(v);
      assert ViewFlag(f) == x;
      TopHas(v);
      assert VarDicts(dict) <= old(VarDicts(dict)) + {dict.vars[v]};
      PutFlag(v, flag, f);
      ShadowThenFlag(views, v, flag, x);
      if flag != "content" {
        FlagKeepsValues(views, v, flag, x);
      }
      if KeywordsHoldLists(views) && (IsKeyword(flag) ==> f.Items?) {
        WithFlagHoldsLists(views, v, flag, x);
      }
    }

    /** getVarFlag(v, flag) or [] */
    method ListFlag(v: string, flag: string) returns (l: ItemList)
      requires Linked(dict) && HoldsList(Find(AllViews(), v), flag)
      ensures fresh(l) && l.items == ItemsOf(Find(old(AllViews()), v), flag)
    {
      hide Find, View, Views, Chain;
      var r := GetVarFlag(v, flag);
      if r.Some? && r.value.Items? && |r.value.l.items| > 0 {
        l := r.value.l;
      } else {
        l := new ItemList([]);
      }
    }

    /** setVar */
    method SetVar(v: string, value: string)
      requires Linked(dict) && Owned() && KeywordsHoldLists(AllViews())
      modifies dict, `expand_cache, VarDicts(dict)
      ensures Valid() && AllViews() == WithValue(old(AllViews()), v, value)
      ensures AllViews()[1..] == old(AllViews())[1..]
      ensures fresh(VarDicts(dict) - old(VarDicts(dict))) && expand_cache == map[]
    {
      hide Find, View, ViewVar, Views, Chain;
      assert allocated(Chain(dict));
      expand_cache := map[];
      StillShown();
      match SplitKeyword(v, "")
      case Some(k) =>
        KeywordNames(v, "");
        var l := ListFlag(k.base, k.keyword);
        l.items := l.items + [(value, k.add)];
        StillShown();
        SetVarFlag(k.base, k.keyword, Items(l));
      case None =>
        SetVarFlag(v, "content", Str(value));
        WithValueHoldsLists(old(AllViews()), v, value);
    }

    /** delVar */
    method DelVar(v: string)
      requires Linked(dict) && Owned() && KeywordsHoldLists(AllViews())
      modifies dict, `expand_cache
      ensures Valid() && AllViews() == WithoutVar(old(AllViews()), v)
      ensures AllViews()[1..] == old(AllViews())[1..]
      ensures fresh(VarDicts(dict) - old(VarDicts(dict)))
    {
      hide Find, View, Views, Chain;
      assert allocated(Chain(dict));
      TopHas(v);
      expand_cache := map[];
      var d := new VarDict(map[]);
      StillShown();
      assert ViewVar(d) == map[];
      PutVar(v, d);
      WithoutVarHoldsLists(old(AllViews()), v);
    }

    /** One round of renameVar's loop. */
    method ExtendFlag(key: string, newkey: string, flag: string)
      requires Linked(dict) && Valid() && IsKeyword(flag)
      modifies dict, `expand_cache, VarDicts(dict)
      ensures Valid() && AllViews() == Extended(old(AllViews()), key, newkey, flag)
      ensures fresh(VarDicts(dict) - old(VarDicts(dict)))
    {
      hide Find, View, ViewVar, Views, Chain;
      assert allocated(Chain(dict));
      TopHas(newkey);
      var dest := ListFlag(newkey, flag);
      StillShown();
      var src := ListFlag(key, flag);
      StillShown();
      dest.items := dest.items + src.items;
      StillShown();
      SetVarFlag(newkey, flag, Items(dest));
    }

    /** renameVar */
    method RenameVar(key: string, newkey: string)
      requires Linked(dict) && Valid()
      modifies dict, `expand_cache, VarDicts(dict)
      ensures Valid() && AllViews() == Renamed(old(AllViews()), key, newkey)
      ensures AllViews()[1..] == old(AllViews())[1..]
      ensures fresh(VarDicts(dict) - old(VarDicts(dict)))
    {
      hide Find, View, ViewVar, Views, Chain, KeywordsHoldLists, CacheSound, WithValue, Extended, WithoutVar;
      assert allocated(Chain(dict));
      var val := GetVarFlag(key, "content");
      StillShown();
      if val.None? || val.value.Items? {
        return;
      }
      SetVar(newkey, val.value.s);
      ExtendFlag(key, newkey, "_append");
      ExtendFlag(key, newkey, "_prepend");
      DelVar(key);
    }

    ghost function Raw(): Values
      requires Linked(dict)
      reads Chain(dict), set l, d | l in Chain(dict) && d in VarDicts(l) :: d
      reads set l, x | l in Chain(dict) && x in LayerLists(l) :: x
    {
      RawValues(AllViews())
    }

    /** getVar(v, 1): the uncached answer, from any state a sequence of calls can reach. */
    method GetVar(v: string, fuel: nat) returns (a: Answer)
      requires Linked(dict) && Valid()
      modifies `expand_cache
      ensures Valid() && AllViews() == old(AllViews())
      ensures a != OutOfFuel ==> Gets(Raw(), v, a)
      ensures Expansion.GetVar(Raw(), v, fuel) != OutOfFuel ==> a == Expansion.GetVar(Raw(), v, fuel)
      decreases fuel, 1
    {
      hide Find, View, ViewVar, Views, Chain, Expansion.Expand, Expansion.Substitute, CachedRight;
      assert allocated(Chain(dict));
      var value := GetVarFlag(v, "content");
      StillShown();
      RawIsContent(AllViews(), v);
      if value.None? || value.value.Items? {
        a := Undefined;
        GetsAtOnce(Raw(), v, fuel);
      } else if value.value.s == "" {
        a := Text("");
        GetsAtOnce(Raw(), v, fuel);
      } else {
        a := Expand(value.value.s, v, fuel);
        if a != OutOfFuel {
          GetsExpansion(Raw(), v, a);
        }
      }
    }

    /** One pass of __expand_var_regexp__.sub(var_sub, s) */
    method Substitute(s: string, varname: string, fuel: nat) returns (t: Answer)
      requires Linked(dict) && Valid()
      modifies `expand_cache
      ensures Valid() && AllViews() == old(AllViews())
      ensures t != OutOfFuel ==> Substitutes(Raw(), s, varname, t)
      ensures Expansion.Substitute(Raw(), s, varname, fuel) != OutOfFuel ==>
        t == Expansion.Substitute(Raw(), s, varname, fuel)
      decreases fuel, 2
    {
      hide Find, View, ViewVar, Views, Chain, Expansion.Expand, Expansion.GetVar, Expansion.Substitute, CachedRight;
      hide Scanned, Gets, Substitutes, RawValues;
      t := Text("");
      var rest := s;
      ghost var raw := Raw();
      ScanStart(raw, s, varname, fuel);
      while rest != ""
        invariant Valid() && AllViews() == old(AllViews()) && t.Text?
        invariant Scanned(raw, s, varname, fuel, t.s, rest)
        decreases |rest|
      {
        var n := Reference(rest);
        if n == 0 {
          ScanCharacter(raw, s, varname, fuel, t.s, rest);
          t := Text(t.s + rest[..1]);
          rest := rest[1..];
        } else {
          var key := rest[2..n-1];
          if varname != "" && key == varname {
            ScanStops(raw, s, varname, fuel, t.s, rest, SelfReference);
            t := SelfReference;
            return;
          }
          var v := GetVar(key, fuel);
          if !v.Undefined? && !v.Text? {
            ScanStops(raw, s, varname, fuel, t.s, rest, v);
            t := v;
            return;
          }
          ScanReference(raw, s, varname, fuel, t.s, rest, v);
          t := Text(t.s + if v.Text? then v.s else rest[..n]);
          rest := rest[n..];
        }
      }
      ScanEnds(raw, s, varname, fuel, t.s);
    }

    /** expand(s, varname): the uncached answer, unless a text is cached under that
        name.  The cache stays right if s is the variable's own value; otherwise only
        the entry under that name can be wrong afterwards. */
    method Expand(s: string, varname: string, fuel: nat) returns (a: Answer)
      requires Linked(dict) && Valid()
      modifies `expand_cache
      ensures AllViews() == old(AllViews()) && Owned() && KeywordsHoldLists(AllViews())
      ensures OwnValue(Raw(), s, varname) ==> Valid()
      ensures CacheSound(Raw(), expand_cache - {varname})
      ensures
        var hit := varname != "" && varname in old(expand_cache);
        if hit && !OwnValue(Raw(), s, varname) then
          a == Text(old(expand_cache)[varname]) && expand_cache == old(expand_cache)
        else
          && (a != OutOfFuel ==> Expands(Raw(), s, varname, a))
          && (Expansion.Expand(Raw(), s, varname, fuel) != OutOfFuel ==> a == Expansion.Expand(Raw(), s, varname, fuel))
      decreases fuel, 0
    {
      hide Find, View, ViewVar, Views, Chain, Expansion.Expand, Expansion.GetVar, Expansion.Substitute;
      hide Rounds, Expands, Substitutes, RawValues;
      ghost var raw := Raw();
      if varname != "" && varname in expand_cache {
        a := Text(expand_cache[varname]);
        assert CachedRight(raw, varname, expand_cache[varname]);
        if OwnValue(raw, s, varname) {
          AnyFuel(raw, s, varname, fuel, a);
        }
        return;
      }
      var now, left: nat := s, fuel;
      assert Rounds(raw, s, varname, fuel, now, left) by {
        NoRoundYet(raw, s, varname, fuel);
      }
      while HasOpening(now)
        invariant Valid() && AllViews() == old(AllViews()) && left <= fuel
        invariant Rounds(raw, s, varname, fuel, now, left)
        decreases left
      {
        if left == 0 {
          OutOfRounds(raw, s, varname, fuel, now);
          a := OutOfFuel;
          return;
        }
        var t := Substitute(now, varname, left - 1);
        if !t.Text? || HasPython(t.s) || t.s == now {
          LastRound(raw, s, varname, fuel, now, left, t);
          a := if t.Text? && HasPython(t.s) then NeedsPython else t;
          if t.Text? && !HasPython(t.s) { break; }
          return;
        }
        NextRound(raw, s, varname, fuel, now, left, t.s);
        now, left := t.s, left - 1;
      }
      if !HasOpening(now) {
        NoRound(raw, s, varname, fuel, now, left);
      }
      a := Text(now);
      if varname != "" {
        assert OwnValue(raw, s, varname) ==> CachedRight(raw, varname, now);
        expand_cache := expand_cache[varname := now];
      }
    }
  }
}
