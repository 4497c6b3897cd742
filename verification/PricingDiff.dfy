/**
 Comparing the local price tables with those of several upstreams
 (buildDifferences of controller/ratio_sync.go). Floating-point numbers are reals.
 */
module PricingDiff {

  /** A decoded value; Null is Go's nil as well as JSON null. */
  datatype Value = Null | Num(num: real) | Int(int_: int) | Str(str: string) | Bool(bool_: bool)

  /** field -> model -> value; a field without a map is an absent field. */
  type Table = map<string, map<string, Value>>

  datatype Upstream = Upstream(name: string, data: Table)

  datatype Item = Item(current: Value, upstreams: map<string, Value>, confidence: map<string, bool>)

  type Differences = map<string, map<string, Item>>

  const EPSILON := 0.000000001

  const FIELDS := ["model_ratio", "completion_ratio", "cache_ratio", "create_cache_ratio", "image_ratio",
                   "audio_ratio", "audio_completion_ratio", "model_price", "billing_mode", "billing_expr"]

  const Same := Str("same")

  predicate Numeric(field: string) { field != "billing_mode" && field != "billing_expr" }

  predicate NearlyEqual(a: real, b: real) {
    if a > b then a - b < EPSILON else b - a < EPSILON
  }

  predicate ValuesEqual(a: Value, b: Value) {
    if a.Num? && b.Num? then NearlyEqual(a.num, b.num) else a == b
  }

  function NormalizeValue(field: string, v: Value): Value {
    if Numeric(field) && v.Int? then Num(v.int_ as real) else v
  }

  // ---------------------------------------------------------------- one cell

  predicate Present(t: Table, f: string, m: string) { f in t && m in t[f] }

  function ValueAt(t: Table, f: string, m: string): Value {
    if Present(t, f, m) then NormalizeValue(f, t[f][m]) else Null
  }

  /** What the table shows for an upstream: its value, "same", or nothing. */
  function Shown(local: Value, t: Table, f: string, m: string): Value {
    var v := ValueAt(t, f, m);
    if Present(t, f, m) && local != Null && !ValuesEqual(local, v) then v
    else if Present(t, f, m) && ValuesEqual(local, v) then Same
    else if v == Null && local == Null then Same
    else v
  }

  /** Whether an upstream sets the hasDifference flag of a cell. */
  predicate Flags(local: Value, t: Table, f: string, m: string) {
    || (Present(t, f, m) && local != Null && !ValuesEqual(local, ValueAt(t, f, m)))
    || (local == Null && Shown(local, t, f, m) != Null && Shown(local, t, f, m) != Same)
  }

  function Upstreams(local: Value, us: seq<Upstream>, f: string, m: string): map<string, Value> {
    if us == [] then map[]
    else Upstreams(local, us[..|us|-1], f, m)[us[|us|-1].name := Shown(local, us[|us|-1].data, f, m)]
  }

  predicate Included(local: Table, us: seq<Upstream>, f: string, m: string) {
    var lv := ValueAt(local, f, m);
    if lv != Null then exists i :: 0 <= i < |us| && Flags(lv, us[i].data, f, m)
    else exists i :: 0 <= i < |us| && Present(us[i].data, f, m)
  }

  // ---------------------------------------------------------------- confidence

  predicate FloatNear(v: Value, target: real) {
    (v.Num? && NearlyEqual(v.num, target)) || (v.Int? && NearlyEqual(v.int_ as real, target))
  }

  /** An upstream's data for a model is trusted unless it shows the default ratio 37.5 with completion 1. */
  predicate Trusted(t: Table, m: string) {
    !(&& Present(t, "model_ratio", m) && Present(t, "completion_ratio", m)
      && FloatNear(t["model_ratio"][m], 37.5) && FloatNear(t["completion_ratio"][m], 1.0))
  }

  /** The last upstream of a name decides its confidence. */
  function Confidence(us: seq<Upstream>, m: string): map<string, bool> {
    if us == [] then map[] else Confidence(us[..|us|-1], m)[us[|us|-1].name := Trusted(us[|us|-1].data, m)]
  }

  // ---------------------------------------------------------------- the whole table

  function Models(t: Table): set<string> {
    set f, m | f in FIELDS && f in t && m in t[f] :: m
  }

  function AllModels(local: Table, us: seq<Upstream>): set<string> {
    if us == [] then Models(local) else AllModels(local, us[..|us|-1]) + Models(us[|us|-1].data)
  }

  predicate InTable(local: Table, us: seq<Upstream>, f: string, m: string) {
    m in AllModels(local, us) && f in FIELDS && Included(local, us, f, m)
  }

  predicate ShowsValue(v: Value) { v != Null && v != Same }

  /** The names that show a value of their own somewhere in the unpruned table. */
  ghost predicate Deviates(local: Table, us: seq<Upstream>, name: string) {
    exists f, m :: InTable(local, us, f, m) && ShowsAt(local, us, f, m, name)
  }

  predicate ShowsAt(local: Table, us: seq<Upstream>, f: string, m: string, name: string) {
    var shown := Upstreams(ValueAt(local, f, m), us, f, m);
    name in shown && ShowsValue(shown[name])
  }

  ghost predicate Survives(local: Table, us: seq<Upstream>, f: string, m: string) {
    && InTable(local, us, f, m)
    && var shown := Upstreams(ValueAt(local, f, m), us, f, m);
       exists name :: name in shown && Deviates(local, us, name) && shown[name] != Same
  }

  ghost predicate IsPruned(item: Item, local: Table, us: seq<Upstream>, f: string, m: string) {
    var shown, trust := Upstreams(ValueAt(local, f, m), us, f, m), Confidence(us, m);
    && item.current == ValueAt(local, f, m)
    && (forall name :: name in item.upstreams <==> name in shown && Deviates(local, us, name))
    && (forall name :: name in item.upstreams ==> item.upstreams[name] == shown[name])
    && (forall name :: name in item.confidence <==> name in item.upstreams)
    && (forall name :: name in item.confidence ==> name in trust && item.confidence[name] == trust[name])
  }

  predicate Has(d: Differences, f: string, m: string) { m in d && f in d[m] }

  /** The table buildDifferences must return, with no reference to any order. */
  ghost predicate Exact(d: Differences, local: Table, us: seq<Upstream>) {
    && (forall m :: m in d ==> d[m] != map[])
    && (forall f, m :: Has(d, f, m) <==> Survives(local, us, f, m))
    && (forall f, m :: Has(d, f, m) ==> IsPruned(d[m][f], local, us, f, m))
  }

  // ---------------------------------------------------------------- what exactness means

  predicate Distinct(us: seq<Upstream>) { forall i, j :: 0 <= i < j < |us| ==> us[i].name != us[j].name }

  /** No upstream sends null or the literal string "same". */
  predicate Clean(us: seq<Upstream>) {
    forall i, f, m :: 0 <= i < |us| && f in us[i].data && m in us[i].data[f] ==> ShowsValue(us[i].data[f][m])
  }

  /** An upstream has a value for the cell and it is not the local one. */
  predicate Differs(local: Table, u: Upstream, f: string, m: string) {
    Present(u.data, f, m) && !ValuesEqual(ValueAt(local, f, m), ValueAt(u.data, f, m))
  }

  predicate Named(us: seq<Upstream>, name: string) { exists i :: 0 <= i < |us| && us[i].name == name }

  lemma {:induction false} UpstreamNames(local: Value, us: seq<Upstream>, f: string, m: string, name: string)
    ensures name in Upstreams(local, us, f, m) <==> Named(us, name)
    ensures name in Confidence(us, m) <==> Named(us, name)
  {
    if us != [] {
      var init := us[..|us|-1];
      UpstreamNames(local, init, f, m, name);
      if Named(init, name) {
        var i :| 0 <= i < |init| && init[i].name == name;
        assert us[i].name == name;
      }
      if us[|us|-1].name != name && Named(us, name) {
        var i :| 0 <= i < |us| && us[i].name == name;
        assert init[i].name == name;
      }
    }
  }

  /** The last upstream of a name decides its column. */
  lemma {:induction false} UpstreamsAt(local: Value, us: seq<Upstream>, f: string, m: string, i: nat)
    requires i < |us| && forall j :: i < j < |us| ==> us[j].name != us[i].name
    ensures us[i].name in Upstreams(local, us, f, m)
    ensures Upstreams(local, us, f, m)[us[i].name] == Shown(local, us[i].data, f, m)
    ensures us[i].name in Confidence(us, m) && Confidence(us, m)[us[i].name] == Trusted(us[i].data, m)
  {
    if i < |us| - 1 { UpstreamsAt(local, us[..|us|-1], f, m, i); }
  }

  lemma ShownValue(local: Table, u: Upstream, f: string, m: string)
    requires Present(u.data, f, m) ==> ShowsValue(u.data[f][m])
    ensures ShowsValue(Shown(ValueAt(local, f, m), u.data, f, m)) <==> Differs(local, u, f, m)
    ensures Differs(local, u, f, m) ==> Flags(ValueAt(local, f, m), u.data, f, m)
    ensures Flags(ValueAt(local, f, m), u.data, f, m) ==> Differs(local, u, f, m)
  {}

  /** A name deviates exactly when its upstream differs from the local table somewhere. */
  lemma DeviatesExactly(local: Table, us: seq<Upstream>, i: nat)
    requires Distinct(us) && Clean(us) && i < |us|
    ensures Deviates(local, us, us[i].name) <==> exists f, m :: f in FIELDS && Differs(local, us[i], f, m)
  {
    if Deviates(local, us, us[i].name) {
      var f, m :| InTable(local, us, f, m) && ShowsAt(local, us, f, m, us[i].name);
      UpstreamsAt(ValueAt(local, f, m), us, f, m, i);
      ShownValue(local, us[i], f, m);
      assert f in FIELDS && Differs(local, us[i], f, m);
    }
    if f, m :| f in FIELDS && Differs(local, us[i], f, m) {
      UpstreamsAt(ValueAt(local, f, m), us, f, m, i);
      ShownValue(local, us[i], f, m);
      CellInTable(local, us, f, m, i);
      assert InTable(local, us, f, m) && ShowsAt(local, us, f, m, us[i].name);
    }
  }

  lemma CellInTable(local: Table, us: seq<Upstream>, f: string, m: string, i: nat)
    requires i < |us| && f in FIELDS && Differs(local, us[i], f, m) && ShowsValue(us[i].data[f][m])
    ensures InTable(local, us, f, m)
  {
    ShownValue(local, us[i], f, m);
    ModelOf(local, us, f, m, i);
  }

  lemma {:induction false} ModelOf(local: Table, us: seq<Upstream>, f: string, m: string, i: nat)
    requires i < |us| && f in FIELDS && Present(us[i].data, f, m)
    ensures m in AllModels(local, us)
  {
    if i < |us| - 1 { ModelOf(local, us[..|us|-1], f, m, i); }
  }

  /** A cell survives exactly when some upstream has a value there that differs from the local one. */
  lemma SurvivesExactly(local: Table, us: seq<Upstream>, f: string, m: string)
    requires Distinct(us) && Clean(us) && f in FIELDS
    ensures Survives(local, us, f, m) <==> exists i :: 0 <= i < |us| && Differs(local, us[i], f, m)
  {
    var lv := ValueAt(local, f, m);
    var shown := Upstreams(lv, us, f, m);
    if Survives(local, us, f, m) {
      if lv == Null {
        var i :| 0 <= i < |us| && Present(us[i].data, f, m);
        ShownValue(local, us[i], f, m);
        assert Differs(local, us[i], f, m);
      } else {
        var i :| 0 <= i < |us| && Flags(lv, us[i].data, f, m);
        ShownValue(local, us[i], f, m);
        assert Differs(local, us[i], f, m);
      }
    }
    if i :| 0 <= i < |us| && Differs(local, us[i], f, m) {
      CellInTable(local, us, f, m, i);
      UpstreamsAt(lv, us, f, m, i);
      ShownValue(local, us[i], f, m);
      DeviatesExactly(local, us, i);
      assert us[i].name in shown && Deviates(local, us, us[i].name) && shown[us[i].name] != Same;
    }
  }

  // In plain figures: the fields compared, when two values count as the same, and which prices are
  // taken for placeholders.

  predicate Compared(f: string) {
    f in {"model_ratio", "completion_ratio", "cache_ratio", "create_cache_ratio", "image_ratio", "audio_ratio",
          "audio_completion_ratio", "model_price", "billing_mode", "billing_expr"}
  }

  /** Numbers less than a billionth apart, or the same value. */
  predicate SameValue(a: Value, b: Value) {
    match (a, b)
    case (Num(x), Num(y)) => -0.000000001 < x - y < 0.000000001
    case _ => a == b
  }

  /** A whole number counts as a number wherever a price or ratio is meant. */
  function Reading(t: Table, f: string, m: string): Value {
    if f !in t || m !in t[f] then Null
    else match t[f][m]
      case Int(n) => if f == "billing_mode" || f == "billing_expr" then Int(n) else Num(n as real)
      case v => v
  }

  predicate About(v: Value, target: real) {
    match v
    case Num(x) => -0.000000001 < x - target < 0.000000001
    case Int(n) => -0.000000001 < n as real - target < 0.000000001
    case _ => false
  }

  /** An upstream shows a model at ratio 37.5 with completion ratio 1. */
  predicate Placeholder(t: Table, m: string) {
    && "model_ratio" in t && m in t["model_ratio"] && About(t["model_ratio"][m], 37.5)
    && "completion_ratio" in t && m in t["completion_ratio"] && About(t["completion_ratio"][m], 1.0)
  }

  lemma InPlainFigures(local: Table, u: Upstream, f: string, m: string)
    ensures f in FIELDS <==> Compared(f)
    ensures ValueAt(local, f, m) == Reading(local, f, m)
    ensures Differs(local, u, f, m) <==> f in u.data && m in u.data[f] && !SameValue(Reading(local, f, m), Reading(u.data, f, m))
    ensures Trusted(u.data, m) <==> !Placeholder(u.data, m)
  {}

  /** The main law: with distinct names and clean values, a cell is in the table iff its field is compared
      and some upstream differs there; its columns are exactly the upstreams that differ somewhere in the
      whole table; and each shows "same", nothing, or its own value, and whether it is a placeholder. */
  lemma ExactMeans(d: Differences, local: Table, us: seq<Upstream>, f: string, m: string)
    requires Exact(d, local, us) && Distinct(us) && Clean(us)
    ensures Has(d, f, m) <==> Compared(f) && exists i :: 0 <= i < |us| && Differs(local, us[i], f, m)
    ensures Has(d, f, m) ==> d[m][f].current == Reading(local, f, m)
    ensures Has(d, f, m) ==> forall i :: 0 <= i < |us| ==> ColumnOf(d[m][f], local, us[i], f, m)
    ensures Has(d, f, m) ==> forall name :: name in d[m][f].upstreams ==> Named(us, name)
  {
    FieldFigures(local, f, m);
    if f in FIELDS { SurvivesExactly(local, us, f, m); }
    if Has(d, f, m) {
      assert IsPruned(d[m][f], local, us, f, m);
      forall i | 0 <= i < |us| ensures ColumnOf(d[m][f], local, us[i], f, m) { ColumnIs(d[m][f], local, us, f, m, i); }
      forall name | name in d[m][f].upstreams ensures Named(us, name) { UpstreamNames(ValueAt(local, f, m), us, f, m, name); }
    }
  }

  lemma FieldFigures(local: Table, f: string, m: string)
    ensures f in FIELDS <==> Compared(f)
    ensures ValueAt(local, f, m) == Reading(local, f, m)
  {}

  lemma ColumnIs(item: Item, local: Table, us: seq<Upstream>, f: string, m: string, i: nat)
    requires IsPruned(item, local, us, f, m) && Distinct(us) && Clean(us) && i < |us|
    ensures ColumnOf(item, local, us[i], f, m)
  {
    UpstreamsAt(ValueAt(local, f, m), us, f, m, i);
    DeviatesExactly(local, us, i);
    ShownValue(local, us[i], f, m);
    InPlainFigures(local, us[i], f, m);
    ShownFigures(local, us[i], f, m);
  }

  /** What a column shows, whatever the upstream sends. */
  lemma ShownFigures(local: Table, u: Upstream, f: string, m: string)
    ensures Shown(ValueAt(local, f, m), u.data, f, m) ==
            if Differs(local, u, f, m) then Reading(u.data, f, m)
            else if Present(u.data, f, m) || Reading(local, f, m) == Null then Str("same") else Null
  {
    FieldFigures(local, f, m);
    FieldFigures(u.data, f, m);
  }

  /** The column of one upstream in a surviving cell. */
  ghost predicate ColumnOf(item: Item, local: Table, u: Upstream, f: string, m: string) {
    && (u.name in item.upstreams <==> exists f', m' :: f' in FIELDS && Differs(local, u, f', m'))
    && (u.name in item.confidence <==> u.name in item.upstreams)
    && (u.name in item.upstreams ==>
          && item.upstreams[u.name] == (if Differs(local, u, f, m) then Reading(u.data, f, m)
                                        else if Present(u.data, f, m) || Reading(local, f, m) == Null then Str("same") else Null)
          && item.confidence[u.name] == !Placeholder(u.data, m))
  }

  // ---------------------------------------------------------------- whatever values the upstreams send

  /** A different value that is neither null nor the word "same". */
  predicate Reports(local: Table, u: Upstream, f: string, m: string) {
    Differs(local, u, f, m) && ShowsValue(ValueAt(u.data, f, m))
  }

  ghost predicate ReportsSomething(local: Table, u: Upstream) { exists f, m :: f in FIELDS && Reports(local, u, f, m) }

  /** Brings the cell into the table: any value where there is no local one, else a different one. */
  predicate Opens(local: Table, u: Upstream, f: string, m: string) {
    Present(u.data, f, m) && (ValueAt(local, f, m) != Null ==> Differs(local, u, f, m))
  }

  /** Is not shown as the same: a different value other than that word, or none beside a local one. */
  predicate StandsOut(local: Table, u: Upstream, f: string, m: string) {
    if Present(u.data, f, m) then Differs(local, u, f, m) && ValueAt(u.data, f, m) != Same else ValueAt(local, f, m) != Null
  }

  lemma ShownIs(local: Table, u: Upstream, f: string, m: string)
    ensures var shown := Shown(ValueAt(local, f, m), u.data, f, m);
            (ShowsValue(shown) <==> Reports(local, u, f, m)) && (shown != Same <==> StandsOut(local, u, f, m))
  {}

  lemma IncludedIff(local: Table, us: seq<Upstream>, f: string, m: string)
    requires f in FIELDS
    ensures InTable(local, us, f, m) <==> exists i :: 0 <= i < |us| && Opens(local, us[i], f, m)
  {
    var lv := ValueAt(local, f, m);
    if i :| 0 <= i < |us| && Opens(local, us[i], f, m) {
      ModelOf(local, us, f, m, i);
      assert lv != Null ==> Flags(lv, us[i].data, f, m);
    }
    if InTable(local, us, f, m) {
      if lv != Null {
        var i :| 0 <= i < |us| && Flags(lv, us[i].data, f, m);
        assert Opens(local, us[i], f, m);
      } else {
        var i :| 0 <= i < |us| && Present(us[i].data, f, m);
        assert Opens(local, us[i], f, m);
      }
    }
  }

  lemma DeviatesIff(local: Table, us: seq<Upstream>, i: nat)
    requires Distinct(us) && i < |us|
    ensures Deviates(local, us, us[i].name) <==> ReportsSomething(local, us[i])
  {
    if Deviates(local, us, us[i].name) {
      var f, m :| InTable(local, us, f, m) && ShowsAt(local, us, f, m, us[i].name);
      UpstreamsAt(ValueAt(local, f, m), us, f, m, i);
      ShownIs(local, us[i], f, m);
      assert f in FIELDS && Reports(local, us[i], f, m);
    }
    if f, m :| f in FIELDS && Reports(local, us[i], f, m) {
      UpstreamsAt(ValueAt(local, f, m), us, f, m, i);
      ShownIs(local, us[i], f, m);
      assert Opens(local, us[i], f, m);
      IncludedIff(local, us, f, m);
      assert InTable(local, us, f, m) && ShowsAt(local, us, f, m, us[i].name);
    }
  }

  /** For whatever the upstreams send, nulls and the word "same" included: a cell survives if and only
      if some upstream brings it into the table and some upstream that reports anything at all stands
      out there. */
  lemma SurvivesIff(local: Table, us: seq<Upstream>, f: string, m: string)
    requires Distinct(us) && f in FIELDS
    ensures Survives(local, us, f, m) <==>
            && (exists i :: 0 <= i < |us| && Opens(local, us[i], f, m))
            && (exists j :: 0 <= j < |us| && ReportsSomething(local, us[j]) && StandsOut(local, us[j], f, m))
  {
    IncludedIff(local, us, f, m);
    var lv := ValueAt(local, f, m);
    var shown := Upstreams(lv, us, f, m);
    if Survives(local, us, f, m) {
      var name :| name in shown && Deviates(local, us, name) && shown[name] != Same;
      UpstreamNames(lv, us, f, m, name);
      var j :| 0 <= j < |us| && us[j].name == name;
      UpstreamsAt(lv, us, f, m, j);
      ShownIs(local, us[j], f, m);
      DeviatesIff(local, us, j);
      assert ReportsSomething(local, us[j]) && StandsOut(local, us[j], f, m);
    }
    if j :| 0 <= j < |us| && ReportsSomething(local, us[j]) && StandsOut(local, us[j], f, m) {
      UpstreamsAt(lv, us, f, m, j);
      ShownIs(local, us[j], f, m);
      DeviatesIff(local, us, j);
      assert us[j].name in shown && Deviates(local, us, us[j].name) && shown[us[j].name] != Same;
    }
  }

  /** Why values must be clean: an upstream whose only entry is null differs from a local value,
      yet its cell is dropped. */
  lemma NullIsDropped(local: Table, u: Upstream, f: string, m: string)
    requires f in FIELDS && u.data == map[f := map[m := Null]] && ValueAt(local, f, m) != Null
    ensures Differs(local, u, f, m) && !Survives(local, [u], f, m)
  {
    forall f', m' ensures !ShowsAt(local, [u], f', m', u.name) {
      var lv := ValueAt(local, f', m');
      UpstreamsAt(lv, [u], f', m', 0);
      assert !Present(u.data, f', m') || ValueAt(u.data, f', m') == Null;
    }
    forall name | name in Upstreams(ValueAt(local, f, m), [u], f, m) ensures name == u.name {
      UpstreamNames(ValueAt(local, f, m), [u], f, m, name);
    }
  }

  // ---------------------------------------------------------------- no order matters

  /** The same upstreams, perhaps in another order. */
  ghost predicate SameUpstreams(us: seq<Upstream>, us': seq<Upstream>) {
    Distinct(us) && Distinct(us') && forall u :: u in us <==> u in us'
  }

  lemma MapsEqual<V>(a: map<string, V>, b: map<string, V>)
    requires forall k :: k in a <==> k in b
    requires forall k :: k in a && k in b ==> a[k] == b[k]
    ensures a == b
  {
    assert a.Keys == b.Keys;
  }

  lemma ReorderColumn(local: Value, us: seq<Upstream>, us': seq<Upstream>, f: string, m: string, name: string)
    requires SameUpstreams(us, us')
    ensures var a, b := Upstreams(local, us, f, m), Upstreams(local, us', f, m);
            (name in a <==> name in b) && (name in a && name in b ==> a[name] == b[name])
    ensures var a, b := Confidence(us, m), Confidence(us', m);
            (name in a <==> name in b) && (name in a && name in b ==> a[name] == b[name])
  {
    UpstreamNames(local, us, f, m, name);
    UpstreamNames(local, us', f, m, name);
    if Named(us', name) { SameName(us', us, name); }
    if Named(us, name) {
      SameName(us, us', name);
      var i :| 0 <= i < |us| && us[i].name == name;
      assert us[i] in us';
      var j :| 0 <= j < |us'| && us'[j] == us[i];
      UpstreamsAt(local, us, f, m, i);
      UpstreamsAt(local, us', f, m, j);
    }
  }

  lemma ReorderCell(local: Value, us: seq<Upstream>, us': seq<Upstream>, f: string, m: string)
    requires SameUpstreams(us, us')
    ensures Upstreams(local, us, f, m) == Upstreams(local, us', f, m)
    ensures Confidence(us, m) == Confidence(us', m)
  {
    var a, b := Upstreams(local, us, f, m), Upstreams(local, us', f, m);
    var c, e := Confidence(us, m), Confidence(us', m);
    forall name
      ensures (name in a <==> name in b) && (name in a && name in b ==> a[name] == b[name])
      ensures (name in c <==> name in e) && (name in c && name in e ==> c[name] == e[name])
    {
      ReorderColumn(local, us, us', f, m, name);
    }
    MapsEqual(a, b);
    MapsEqual(c, e);
  }

  lemma SameName(us: seq<Upstream>, us': seq<Upstream>, name: string)
    requires SameUpstreams(us, us') && Named(us, name)
    ensures Named(us', name)
  {
    var i :| 0 <= i < |us| && us[i].name == name;
    assert us[i] in us';
    var j :| 0 <= j < |us'| && us'[j] == us[i];
  }

  lemma {:induction false} ModelsFrom(local: Table, us: seq<Upstream>, m: string)
    ensures m in AllModels(local, us) <==> m in Models(local) || exists u :: u in us && m in Models(u.data)
  {
    if us != [] {
      ModelsFrom(local, us[..|us|-1], m);
      assert us == us[..|us|-1] + [us[|us|-1]];
    }
  }

  lemma ReorderIncluded(local: Table, us: seq<Upstream>, us': seq<Upstream>, f: string, m: string)
    requires SameUpstreams(us, us') && Included(local, us, f, m)
    ensures Included(local, us', f, m)
  {
    var lv := ValueAt(local, f, m);
    var i :| 0 <= i < |us| && (if lv != Null then Flags(lv, us[i].data, f, m) else Present(us[i].data, f, m));
    assert us[i] in us';
    var j :| 0 <= j < |us'| && us'[j] == us[i];
  }

  lemma ReorderInTable(local: Table, us: seq<Upstream>, us': seq<Upstream>, f: string, m: string)
    requires SameUpstreams(us, us') && InTable(local, us, f, m)
    ensures InTable(local, us', f, m)
  {
    ModelsFrom(local, us, m);
    ModelsFrom(local, us', m);
    ReorderIncluded(local, us, us', f, m);
  }

  lemma ReorderDeviates(local: Table, us: seq<Upstream>, us': seq<Upstream>, name: string)
    requires SameUpstreams(us, us') && Deviates(local, us, name)
    ensures Deviates(local, us', name)
  {
    var f, m :| InTable(local, us, f, m) && ShowsAt(local, us, f, m, name);
    ReorderInTable(local, us, us', f, m);
    ReorderCell(ValueAt(local, f, m), us, us', f, m);
    assert InTable(local, us', f, m) && ShowsAt(local, us', f, m, name);
  }

  lemma ReorderSurvives(local: Table, us: seq<Upstream>, us': seq<Upstream>, f: string, m: string)
    requires SameUpstreams(us, us') && Survives(local, us, f, m)
    ensures Survives(local, us', f, m)
  {
    var lv := ValueAt(local, f, m);
    var shown := Upstreams(lv, us, f, m);
    var name :| name in shown && Deviates(local, us, name) && shown[name] != Same;
    ReorderInTable(local, us, us', f, m);
    ReorderCell(lv, us, us', f, m);
    ReorderDeviates(local, us, us', name);
  }

  lemma ReorderItem(a: Item, b: Item, local: Table, us: seq<Upstream>, us': seq<Upstream>, f: string, m: string)
    requires SameUpstreams(us, us') && IsPruned(a, local, us, f, m) && IsPruned(b, local, us', f, m)
    ensures a == b
  {
    ReorderCell(ValueAt(local, f, m), us, us', f, m);
    forall name ensures Deviates(local, us, name) <==> Deviates(local, us', name) {
      if Deviates(local, us, name) { ReorderDeviates(local, us, us', name); }
      if Deviates(local, us', name) { ReorderDeviates(local, us', us, name); }
    }
    SamePruning(a, b, local, us, us', f, m);
  }

  /** Two items agree on a name. */
  predicate Alike(a: Item, b: Item, name: string) {
    && (name in a.upstreams <==> name in b.upstreams) && (name in a.confidence <==> name in b.confidence)
    && (name in a.upstreams && name in b.upstreams ==> a.upstreams[name] == b.upstreams[name])
    && (name in a.confidence && name in b.confidence ==> a.confidence[name] == b.confidence[name])
  }

  lemma SameItems(a: Item, b: Item)
    requires a.current == b.current && forall name :: Alike(a, b, name)
    ensures a == b
  {
    forall name ensures name in a.upstreams <==> name in b.upstreams { assert Alike(a, b, name); }
    forall name | name in a.upstreams && name in b.upstreams ensures a.upstreams[name] == b.upstreams[name] { assert Alike(a, b, name); }
    MapsEqual(a.upstreams, b.upstreams);
    forall name ensures name in a.confidence <==> name in b.confidence { assert Alike(a, b, name); }
    forall name | name in a.confidence && name in b.confidence ensures a.confidence[name] == b.confidence[name] { assert Alike(a, b, name); }
    MapsEqual(a.confidence, b.confidence);
  }

  lemma PrunedAlike(a: Item, b: Item, local: Table, us: seq<Upstream>, us': seq<Upstream>, f: string, m: string, name: string)
    requires IsPruned(a, local, us, f, m) && IsPruned(b, local, us', f, m)
    requires Upstreams(ValueAt(local, f, m), us, f, m) == Upstreams(ValueAt(local, f, m), us', f, m)
    requires Confidence(us, m) == Confidence(us', m) && (Deviates(local, us, name) <==> Deviates(local, us', name))
    ensures Alike(a, b, name)
  {}

  lemma SamePruning(a: Item, b: Item, local: Table, us: seq<Upstream>, us': seq<Upstream>, f: string, m: string)
    requires IsPruned(a, local, us, f, m) && IsPruned(b, local, us', f, m)
    requires Upstreams(ValueAt(local, f, m), us, f, m) == Upstreams(ValueAt(local, f, m), us', f, m)
    requires Confidence(us, m) == Confidence(us', m)
    requires forall name :: Deviates(local, us, name) <==> Deviates(local, us', name)
    ensures a == b
  {
    forall name ensures Alike(a, b, name) { PrunedAlike(a, b, local, us, us', f, m, name); }
    SameItems(a, b);
  }

  /** One table satisfies the specification, and it does not depend on the order in which the
      upstreams answered or in which any map was walked. */
  lemma OrderIrrelevant(d: Differences, d': Differences, local: Table, us: seq<Upstream>, us': seq<Upstream>)
    requires SameUpstreams(us, us') && Exact(d, local, us) && Exact(d', local, us')
    ensures d == d'
  {
    forall f, m ensures Has(d, f, m) <==> Has(d', f, m) {
      if Has(d, f, m) { ReorderSurvives(local, us, us', f, m); }
      if Has(d', f, m) { ReorderSurvives(local, us', us, f, m); }
    }
    forall f, m | Has(d, f, m) && Has(d', f, m) ensures d[m][f] == d'[m][f] {
      ReorderItem(d[m][f], d'[m][f], local, us, us', f, m);
    }
    SameTable(d, d');
  }

  lemma SameTable(d: Differences, d': Differences)
    requires forall m :: (m in d ==> d[m] != map[]) && (m in d' ==> d'[m] != map[])
    requires forall f, m :: Has(d, f, m) <==> Has(d', f, m)
    requires forall f, m :: Has(d, f, m) && Has(d', f, m) ==> d[m][f] == d'[m][f]
    ensures d == d'
  {
    SameCells(d, d');
    SameCells(d', d);
    forall m | m in d && m in d' ensures d[m] == d'[m] {
      forall f ensures f in d[m] <==> f in d'[m] { assert Has(d, f, m) <==> Has(d', f, m); }
      MapsEqual(d[m], d'[m]);
    }
    MapsEqual(d, d');
  }

  lemma SameCells(d: Differences, d': Differences)
    requires forall m :: m in d ==> d[m] != map[]
    requires forall f, m :: Has(d, f, m) ==> Has(d', f, m)
    ensures forall m :: m in d ==> m in d'
  {
    forall m | m in d ensures m in d' {
      SomeKey(d[m]);
      var f :| f in d[m];
      assert Has(d, f, m);
    }
  }

  lemma SomeKey<T>(row: map<string, T>)
    ensures row != map[] ==> exists f :: f in row
  {
    if forall f :: f !in row { assert row == map[]; }
  }

  // ---------------------------------------------------------------- the passes of buildDifferences

  /** Pass 1: every model any table mentions. */
  method CollectModels(local: Table, us: seq<Upstream>) returns (all: set<string>)
    ensures all == AllModels(local, us)
  {
    all := ModelsIn(local);
    for i := 0 to |us|
      invariant all == AllModels(local, us[..i])
    {
      assert us[..i+1][..i] == us[..i];
      var more := ModelsIn(us[i].data);
      all := all + more;
    }
    assert us[..|us|] == us;
  }

  method ModelsIn(t: Table) returns (all: set<string>)
    ensures all == Models(t)
  {
    all := {};
    for i := 0 to |FIELDS|
      invariant all == set f, m | f in FIELDS[..i] && f in t && m in t[f] :: m
    {
      if FIELDS[i] in t { all := all + t[FIELDS[i]].Keys; }
    }
    assert FIELDS[..|FIELDS|] == FIELDS;
  }

  ghost predicate TrustTable(trust: map<string, map<string, bool>>, us: seq<Upstream>, all: set<string>) {
    && (forall name :: name in trust <==> Named(us, name))
    && (forall name, m :: name in trust && m in all ==>
          m in trust[name] && name in Confidence(us, m) && trust[name][m] == Confidence(us, m)[name])
  }

  /** Pass 2: the confidence of every upstream for every model. */
  method Rate(us: seq<Upstream>, all: set<string>) returns (trust: map<string, map<string, bool>>)
    ensures TrustTable(trust, us, all)
  {
    trust := map[];
    for i := 0 to |us|
      invariant TrustTable(trust, us[..i], all)
    {
      assert us[..i+1][..i] == us[..i];
      var row := RateOne(us[i].data, all);
      ghost var before := trust;
      trust := trust[us[i].name := row];
      TrustGrows(before, us[..i], us[i], row, all);
      assert us[..i] + [us[i]] == us[..i+1];
    }
    assert us[..|us|] == us;
  }

  lemma TrustGrows(trust: map<string, map<string, bool>>, us: seq<Upstream>, u: Upstream, row: map<string, bool>, all: set<string>)
    requires TrustTable(trust, us, all) && forall m :: m in all ==> m in row && row[m] == Trusted(u.data, m)
    ensures TrustTable(trust[u.name := row], us + [u], all)
  {
    assert (us + [u])[..|us|] == us && (us + [u])[|us|] == u;
    forall name ensures Named(us + [u], name) <==> Named(us, name) || name == u.name {
      if Named(us, name) {
        var i :| 0 <= i < |us| && us[i].name == name;
        assert (us + [u])[i].name == name;
      }
      if Named(us + [u], name) && name != u.name {
        var i :| 0 <= i < |us + [u]| && (us + [u])[i].name == name;
        assert us[i].name == name;
      }
    }
  }

  method RateOne(t: Table, all: set<string>) returns (row: map<string, bool>)
    ensures forall m :: m in all ==> m in row && row[m] == Trusted(t, m)
  {
    row := map[];
    var left := all;
    while left != {}
      invariant left <= all && forall m :: m in all && m !in left ==> m in row && row[m] == Trusted(t, m)
      decreases left
    {
      var m :| m in left;
      row := row[m := true];
      if Present(t, "model_ratio", m) && Present(t, "completion_ratio", m) {
        if FloatNear(t["model_ratio"][m], 37.5) && FloatNear(t["completion_ratio"][m], 1.0) { row := row[m := false]; }
      }
      left := left - {m};
    }
  }

  function RawItem(local: Table, us: seq<Upstream>, f: string, m: string): Item {
    var lv := ValueAt(local, f, m);
    Item(lv, Upstreams(lv, us, f, m), Confidence(us, m))
  }

  predicate AnyFlags(lv: Value, us: seq<Upstream>, f: string, m: string, n: nat)
    requires n <= |us|
  {
    n > 0 && (AnyFlags(lv, us, f, m, n - 1) || Flags(lv, us[n-1].data, f, m))
  }

  predicate AnyPresent(us: seq<Upstream>, f: string, m: string, n: nat)
    requires n <= |us|
  {
    n > 0 && (AnyPresent(us, f, m, n - 1) || Present(us[n-1].data, f, m))
  }

  lemma {:induction false} AnyIsExists(lv: Value, us: seq<Upstream>, f: string, m: string, n: nat)
    requires n <= |us|
    ensures AnyFlags(lv, us, f, m, n) <==> exists i :: 0 <= i < n && Flags(lv, us[i].data, f, m)
    ensures AnyPresent(us, f, m, n) <==> exists i :: 0 <= i < n && Present(us[i].data, f, m)
  {
    if n > 0 { AnyIsExists(lv, us, f, m, n - 1); }
  }

  /** The confidence columns gathered from the first upstreams. */
  ghost predicate Gathered(confidence: map<string, bool>, trust: map<string, map<string, bool>>, us: seq<Upstream>, m: string) {
    && (forall name :: name in confidence <==> Named(us, name))
    && (forall name :: name in confidence ==> name in trust && m in trust[name] && confidence[name] == trust[name][m])
  }

  lemma GatherOne(confidence: map<string, bool>, trust: map<string, map<string, bool>>, us: seq<Upstream>, m: string, i: nat)
    requires i < |us| && Gathered(confidence, trust, us[..i], m) && us[i].name in trust && m in trust[us[i].name]
    ensures Gathered(confidence[us[i].name := trust[us[i].name][m]], trust, us[..i+1], m)
  {
    NamedSnoc(us, i);
  }

  lemma GatheredAll(confidence: map<string, bool>, trust: map<string, map<string, bool>>, us: seq<Upstream>, all: set<string>, m: string)
    requires TrustTable(trust, us, all) && m in all && Gathered(confidence, trust, us, m)
    ensures confidence == Confidence(us, m)
  {
    forall name ensures name in confidence <==> name in Confidence(us, m) { UpstreamNames(Null, us, "", m, name); }
    MapsEqual(confidence, Confidence(us, m));
  }

  /** The confidence values beside them. */
  method Gather(us: seq<Upstream>, all: set<string>, trust: map<string, map<string, bool>>, m: string)
    returns (confidence: map<string, bool>)
    requires TrustTable(trust, us, all) && m in all
    ensures confidence == Confidence(us, m)
  {
    confidence := map[];
    for i := 0 to |us|
      invariant Gathered(confidence, trust, us[..i], m)
    {
      assert Named(us, us[i].name);
      GatherOne(confidence, trust, us, m, i);
      confidence := confidence[us[i].name := trust[us[i].name][m]];
    }
    assert us[..|us|] == us;
    GatheredAll(confidence, trust, us, all, m);
  }

  /** One cell: what every upstream shows, and whether the cell belongs in the table. */
  method CompareCell(local: Table, us: seq<Upstream>, all: set<string>, trust: map<string, map<string, bool>>, f: string, m: string)
    returns (item: Item, belongs: bool)
    requires TrustTable(trust, us, all) && m in all
    ensures item == RawItem(local, us, f, m) && belongs == Included(local, us, f, m)
  {
    var lv := ValueAt(local, f, m);
    var confidence := Gather(us, all, trust, m);
    var hasUpstream, hasDifference := false, false;
    var shown: map<string, Value> := map[];
    for i := 0 to |us|
      invariant shown == Upstreams(lv, us[..i], f, m)
      invariant hasUpstream == AnyPresent(us, f, m, i) && hasDifference == AnyFlags(lv, us, f, m, i)
    {
      assert us[..i+1][..i] == us[..i];
      var value, flagged := CompareOne(lv, us[i].data, f, m);
      if Present(us[i].data, f, m) { hasUpstream := true; }
      if flagged { hasDifference := true; }
      shown := shown[us[i].name := value];
    }
    assert us[..|us|] == us;
    AnyIsExists(lv, us, f, m, |us|);
    item := Item(lv, shown, confidence);
    belongs := if lv != Null then hasDifference else hasUpstream;
  }

  lemma NamedSnoc(us: seq<Upstream>, i: nat)
    requires i < |us|
    ensures forall name :: Named(us[..i+1], name) <==> Named(us[..i], name) || name == us[i].name
  {
    forall name ensures Named(us[..i+1], name) <==> Named(us[..i], name) || name == us[i].name {
      if Named(us[..i], name) {
        var k :| 0 <= k < i && us[..i][k].name == name;
        assert us[..i+1][k].name == name;
      }
      if name == us[i].name { assert us[..i+1][i].name == name; }
      if Named(us[..i+1], name) && name != us[i].name {
        var k :| 0 <= k < i + 1 && us[..i+1][k].name == name;
        assert us[..i][k].name == name;
      }
    }
  }

  /** The assignments to upstreamValue and hasDifference for one upstream, as written. */
  method CompareOne(lv: Value, t: Table, f: string, m: string) returns (value: Value, flagged: bool)
    ensures value == Shown(lv, t, f, m) && flagged == Flags(lv, t, f, m)
  {
    value, flagged := Null, false;
    if Present(t, f, m) {
      value := NormalizeValue(f, t[f][m]);
      if lv != Null && !ValuesEqual(lv, value) {
        flagged := true;
      } else if ValuesEqual(lv, value) {
        value := Same;
      }
    }
    if value == Null && lv == Null { value := Same; }
    if lv == Null && value != Null && value != Same { flagged := true; }
  }

  function RowOf(d: Differences, m: string): map<string, Item> { if m in d then d[m] else map[] }

  ghost predicate RawRow(row: map<string, Item>, local: Table, us: seq<Upstream>, m: string) {
    && (forall f :: f in row <==> f in FIELDS && Included(local, us, f, m))
    && (forall f :: f in row ==> row[f] == RawItem(local, us, f, m))
  }

  /** The unpruned table. */
  ghost predicate IsRaw(raw: Differences, local: Table, us: seq<Upstream>, models: set<string>) {
    && (forall m :: m in raw ==> m in models && raw[m] != map[])
    && (forall m :: m in models ==> RawRow(RowOf(raw, m), local, us, m))
  }

  method CompareModel(local: Table, us: seq<Upstream>, all: set<string>, trust: map<string, map<string, bool>>, m: string)
    returns (row: map<string, Item>)
    requires TrustTable(trust, us, all) && m in all
    ensures RawRow(row, local, us, m)
  {
    row := map[];
    for i := 0 to |FIELDS|
      invariant forall f :: f in row <==> f in FIELDS[..i] && Included(local, us, f, m)
      invariant forall f :: f in row ==> row[f] == RawItem(local, us, f, m)
    {
      assert FIELDS[..i+1] == FIELDS[..i] + [FIELDS[i]];
      var item, belongs := CompareCell(local, us, all, trust, FIELDS[i], m);
      if belongs { row := row[FIELDS[i] := item]; }
    }
    assert FIELDS[..|FIELDS|] == FIELDS;
  }

  /** Pass 3: the models in any order. */
  method Compare(local: Table, us: seq<Upstream>, all: set<string>, trust: map<string, map<string, bool>>) returns (raw: Differences)
    requires TrustTable(trust, us, all)
    ensures IsRaw(raw, local, us, all)
  {
    raw := map[];
    var left := all;
    while left != {}
      invariant left <= all && IsRaw(raw, local, us, all - left)
      decreases left
    {
      var m :| m in left;
      var row := CompareModel(local, us, all, trust, m);
      RawGrows(raw, local, us, all - left, m, row);
      if row != map[] { raw := raw[m := row]; }
      left := left - {m};
      assert all - left == all - (left + {m}) + {m};
    }
    assert all - {} == all;
  }

  lemma RawGrows(raw: Differences, local: Table, us: seq<Upstream>, done: set<string>, m: string, row: map<string, Item>)
    requires IsRaw(raw, local, us, done) && m !in done && RawRow(row, local, us, m)
    ensures IsRaw(if row != map[] then raw[m := row] else raw, local, us, done + {m})
  {
    var next := if row != map[] then raw[m := row] else raw;
    assert RowOf(next, m) == row;
    forall n | n in done ensures RawRow(RowOf(next, n), local, us, n) { assert RowOf(next, n) == RowOf(raw, n); }
  }

  lemma RawCell(raw: Differences, local: Table, us: seq<Upstream>, f: string, m: string)
    requires IsRaw(raw, local, us, AllModels(local, us))
    ensures Has(raw, f, m) <==> InTable(local, us, f, m)
    ensures Has(raw, f, m) ==> raw[m][f] == RawItem(local, us, f, m)
  {
    assert Has(raw, f, m) <==> f in RowOf(raw, m);
    if m in AllModels(local, us) { assert RawRow(RowOf(raw, m), local, us, m); }
  }

  /** A name shows a value in some column of the table restricted to `models`. */
  ghost predicate ShownIn(raw: Differences, models: set<string>, name: string) {
    exists f, m :: m in models && Has(raw, f, m) && name in raw[m][f].upstreams && ShowsValue(raw[m][f].upstreams[name])
  }

  /** Pass 4: channelHasDiff. */
  method FindDeviating(raw: Differences) returns (names: set<string>)
    ensures forall name :: name in names <==> ShownIn(raw, raw.Keys, name)
  {
    names := {};
    var left := raw.Keys;
    while left != {}
      invariant left <= raw.Keys
      invariant forall name :: name in names <==> ShownIn(raw, raw.Keys - left, name)
      decreases left
    {
      var m :| m in left;
      var more := DeviatingInRow(raw[m]);
      forall name ensures name in names + more <==> ShownIn(raw, raw.Keys - (left - {m}), name) {
        ShownSplit(raw, raw.Keys - left, m, name);
        assert raw.Keys - (left - {m}) == (raw.Keys - left) + {m};
      }
      names := names + more;
      left := left - {m};
    }
    assert raw.Keys - {} == raw.Keys;
  }

  predicate ShowsIn(item: Item, name: string) { name in item.upstreams && ShowsValue(item.upstreams[name]) }

  lemma ShownSplit(raw: Differences, models: set<string>, m: string, name: string)
    requires m in raw
    ensures ShownIn(raw, models + {m}, name) <==>
            ShownIn(raw, models, name) || exists f :: f in raw[m] && ShowsIn(raw[m][f], name)
  {
    if ShownIn(raw, models + {m}, name) && !ShownIn(raw, models, name) {
      var f, n :| n in models + {m} && Has(raw, f, n) && name in raw[n][f].upstreams && ShowsValue(raw[n][f].upstreams[name]);
      assert n == m && ShowsIn(raw[m][f], name);
    }
    if f :| f in raw[m] && ShowsIn(raw[m][f], name) {
      assert m in models + {m} && Has(raw, f, m);
    }
  }

  method DeviatingInRow(row: map<string, Item>) returns (names: set<string>)
    ensures forall name :: name in names <==> exists f :: f in row && ShowsIn(row[f], name)
  {
    names := {};
    var left := row.Keys;
    while left != {}
      invariant left <= row.Keys
      invariant forall name :: name in names <==> exists f :: f in row && f !in left && ShowsIn(row[f], name)
      decreases left
    {
      var f :| f in left;
      names := names + set name | name in row[f].upstreams && ShowsValue(row[f].upstreams[name]);
      left := left - {f};
    }
  }

  /** An item after the columns of other names were deleted. */
  ghost predicate Restricted(r: Item, item: Item, names: set<string>) {
    && r.current == item.current
    && (forall name :: name in r.upstreams <==> name in item.upstreams && name in names)
    && (forall name :: name in r.upstreams ==> r.upstreams[name] == item.upstreams[name])
    && (forall name :: name in r.confidence <==> name in item.confidence && (name in names || name !in item.upstreams))
    && (forall name :: name in r.confidence ==> r.confidence[name] == item.confidence[name])
  }

  method PruneItem(item: Item, names: set<string>) returns (r: Item, keep: bool)
    ensures Restricted(r, item, names)
    ensures keep <==> exists name :: name in item.upstreams && name in names && item.upstreams[name] != Same
  {
    r := item;
    var left := item.upstreams.Keys;
    while left != {}
      invariant left <= item.upstreams.Keys && r.current == item.current
      invariant forall name :: name in r.upstreams <==> name in item.upstreams && (name in names || name in left)
      invariant forall name :: name in r.upstreams ==> r.upstreams[name] == item.upstreams[name]
      invariant forall name :: name in r.confidence <==>
                  name in item.confidence && (name in names || name !in item.upstreams || name in left)
      invariant forall name :: name in r.confidence ==> r.confidence[name] == item.confidence[name]
      decreases left
    {
      var name :| name in left;
      if name !in names {
        r := r.(upstreams := r.upstreams - {name}, confidence := r.confidence - {name});
      }
      left := left - {name};
    }
    keep := exists name :: name in r.upstreams && r.upstreams[name] != Same;
  }

  ghost predicate RowPruned(r: map<string, Item>, row: map<string, Item>, names: set<string>, left: set<string>) {
    && (forall f :: f in r <==> f in row && (f in left || Keeps(row[f], names)))
    && (forall f :: f in r ==> if f in left then r[f] == row[f] else Restricted(r[f], row[f], names))
  }

  ghost predicate Keeps(item: Item, names: set<string>) {
    exists name :: name in item.upstreams && name in names && item.upstreams[name] != Same
  }

  /** The inner loop of pass 5: prunes a model's fields in place. */
  method PruneRow(row: map<string, Item>, names: set<string>) returns (r: map<string, Item>)
    ensures RowPruned(r, row, names, {})
  {
    r := row;
    var left := row.Keys;
    while left != {}
      invariant left <= row.Keys && RowPruned(r, row, names, left)
      decreases left
    {
      var f :| f in left;
      var item, keep := PruneItem(row[f], names);
      if keep { r := r[f := item]; } else { r := r - {f}; }
      left := left - {f};
    }
  }

  ghost predicate TablePruned(d: Differences, raw: Differences, names: set<string>, left: set<string>) {
    && (forall m :: m in d ==> m in raw && d[m] != map[])
    && (forall m :: m in raw ==> RowDone(RowOf(d, m), raw[m], names, m in left))
  }

  ghost predicate RowDone(r: map<string, Item>, row: map<string, Item>, names: set<string>, waiting: bool) {
    if waiting then r == row else RowPruned(r, row, names, {})
  }

  /** Pass 5: drops the columns of names without a difference, then cells and models left empty. */
  method Prune(raw: Differences, names: set<string>) returns (d: Differences)
    requires forall m :: m in raw ==> raw[m] != map[]
    ensures TablePruned(d, raw, names, {})
  {
    d := raw;
    var left := raw.Keys;
    while left != {}
      invariant left <= raw.Keys && TablePruned(d, raw, names, left)
      decreases left
    {
      var m :| m in left;
      var row := PruneRow(raw[m], names);
      PruneStep(d, raw, names, left, m, row);
      if row == map[] { d := d - {m}; } else { d := d[m := row]; }
      left := left - {m};
    }
  }

  function Replace(d: Differences, m: string, row: map<string, Item>): Differences {
    if row == map[] then d - {m} else d[m := row]
  }

  lemma PruneStep(d: Differences, raw: Differences, names: set<string>, left: set<string>, m: string, row: map<string, Item>)
    requires TablePruned(d, raw, names, left) && m in left && m in raw && RowPruned(row, raw[m], names, {})
    ensures TablePruned(Replace(d, m, row), raw, names, left - {m})
  {
    forall n | n in raw ensures RowDone(RowOf(Replace(d, m, row), n), raw[n], names, n in left - {m}) {
      assert RowDone(RowOf(d, n), raw[n], names, n in left);
      ReplacedRow(d, m, row, n);
    }
  }

  lemma ReplacedRow(d: Differences, m: string, row: map<string, Item>, n: string)
    ensures RowOf(Replace(d, m, row), n) == if n == m then row else RowOf(d, n)
  {}

  /** buildDifferences. */
  method BuildDifferences(local: Table, us: seq<Upstream>) returns (d: Differences)
    ensures Exact(d, local, us)
  {
    var all := CollectModels(local, us);
    var trust := Rate(us, all);
    var raw := Compare(local, us, all, trust);
    var names := FindDeviating(raw);
    d := Prune(raw, names);
    PrunedIsExact(d, raw, local, us, names);
  }

  lemma NamesAreDeviating(raw: Differences, local: Table, us: seq<Upstream>, name: string)
    requires IsRaw(raw, local, us, AllModels(local, us))
    ensures ShownIn(raw, raw.Keys, name) <==> Deviates(local, us, name)
  {
    if ShownIn(raw, raw.Keys, name) {
      var f, m :| m in raw.Keys && Has(raw, f, m) && name in raw[m][f].upstreams && ShowsValue(raw[m][f].upstreams[name]);
      RawCell(raw, local, us, f, m);
      assert InTable(local, us, f, m) && ShowsAt(local, us, f, m, name);
    }
    if Deviates(local, us, name) {
      var f, m :| InTable(local, us, f, m) && ShowsAt(local, us, f, m, name);
      RawCell(raw, local, us, f, m);
      assert m in raw.Keys && Has(raw, f, m);
    }
  }

  lemma CellPruned(item: Item, local: Table, us: seq<Upstream>, names: set<string>, f: string, m: string)
    requires InTable(local, us, f, m) && forall name :: name in names <==> Deviates(local, us, name)
    ensures Keeps(RawItem(local, us, f, m), names) <==> Survives(local, us, f, m)
    ensures Restricted(item, RawItem(local, us, f, m), names) ==> IsPruned(item, local, us, f, m)
  {
    var shown := Upstreams(ValueAt(local, f, m), us, f, m);
    forall name ensures name in shown <==> name in Confidence(us, m) {
      UpstreamNames(ValueAt(local, f, m), us, f, m, name);
    }
  }

  lemma PrunedCell(d: Differences, raw: Differences, local: Table, us: seq<Upstream>, names: set<string>, f: string, m: string)
    requires IsRaw(raw, local, us, AllModels(local, us)) && TablePruned(d, raw, names, {})
    requires forall name :: name in names <==> Deviates(local, us, name)
    ensures Has(d, f, m) <==> Survives(local, us, f, m)
    ensures Has(d, f, m) ==> IsPruned(d[m][f], local, us, f, m)
  {
    RawCell(raw, local, us, f, m);
    if Has(raw, f, m) {
      assert RowDone(RowOf(d, m), raw[m], names, m in {});
      assert Has(d, f, m) <==> f in RowOf(d, m);
      CellPruned(if Has(d, f, m) then d[m][f] else raw[m][f], local, us, names, f, m);
    } else {
      assert m in raw ==> RowDone(RowOf(d, m), raw[m], names, m in {});
    }
  }

  lemma PrunedIsExact(d: Differences, raw: Differences, local: Table, us: seq<Upstream>, names: set<string>)
    requires IsRaw(raw, local, us, AllModels(local, us)) && TablePruned(d, raw, names, {})
    requires forall name :: name in names <==> ShownIn(raw, raw.Keys, name)
    ensures Exact(d, local, us)
  {
    forall name ensures name in names <==> Deviates(local, us, name) { NamesAreDeviating(raw, local, us, name); }
    forall f, m
      ensures Has(d, f, m) <==> Survives(local, us, f, m)
      ensures Has(d, f, m) ==> IsPruned(d[m][f], local, us, f, m)
    {
      PrunedCell(d, raw, local, us, names, f, m);
    }
  }
}
