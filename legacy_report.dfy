/** `build_report`: the component data of the AI reply (a list of names and
    records, or a dict) is gathered into a map from component name to its
    record, the "insights" are folded into those records, and one insight
    is emitted per detected component. Python's in-place updates of the map
    and of its records are modelled on values: each step returns the new
    map. Operations that raise on values of an unexpected type give
    `Failure`. */
module LegacyReportBuilder {
  import opened Wrappers
  import opened Text
  import opened Json
  import OrderedDict
  import opened ReportSchema

  /** A JSON object's fields. */
  type Obj = seq<(string, Json)>

  /** The component map: keys are the Python values used as dict keys. */
  type ComponentMap = OrderedDict.Dict<Json, Json>

  /** Values Python can use as dict keys (lists and dicts cannot). */
  predicate Hashable(j: Json) {
    j.JNull? || j.JBool? || j.JInt? || j.JString?
  }

  /** `item.get('component') or item.get('name')`. */
  function NameOf(fields: Obj): Json {
    Or(Get(fields, "component"), Get(fields, "name"))
  }

  // ---------------------------------------------------------------------
  // The component map
  // ---------------------------------------------------------------------

  /** `{**a, **b}`: the keys of `a`, then the new keys of `b`; `b`'s values
      win. */
  function Merge(a: Obj, b: Obj): (r: Obj)
    decreases |b|
  {
    if b == [] then a
    else OrderedDict.Put(Merge(a, b[..|b| - 1]), b[|b| - 1].0, b[|b| - 1].1)
  }

  /** One entry of a component list: a name adds an empty record unless
      it is already there, a record with a name is merged into that name's
      record, anything else is ignored. */
  function AddItem(m: OrderedDict.Dict<Json, Obj>, item: Json): Result<OrderedDict.Dict<Json, Obj>> {
    if item.JString? then
      Success(OrderedDict.Put(m, item, OrderedDict.Get(m, item).GetOr([])))
    else if item.JObject? then
      var name := NameOf(item.fields);
      if !Truthy(name) then Success(m)
      else if !Hashable(name) then Failure(TypeError("unhashable type"))
      else Success(OrderedDict.Put(m, name, Merge(OrderedDict.Get(m, name).GetOr([]), item.fields)))
    else Success(m)
  }

  /** The loop over a component list. */
  function AddItems(items: seq<Json>): Result<OrderedDict.Dict<Json, Obj>> {
    FoldAll(AddItem, [], items)
  }

  /** The map built from a list, its records as JSON dicts. */
  function RecordsOf(m: OrderedDict.Dict<Json, Obj>): (r: ComponentMap)
    ensures |r| == |m| && forall k :: 0 <= k < |m| ==> r[k] == (m[k].0, JObject(m[k].1))
  {
    seq(|m|, k requires 0 <= k < |m| => (m[k].0, JObject(m[k].1)))
  }

  /** A dict of components, its keys as JSON strings. */
  function KeyedBy(fields: Obj): (r: ComponentMap)
    ensures |r| == |fields| && forall k :: 0 <= k < |fields| ==> r[k] == (JString(fields[k].0), fields[k].1)
  {
    seq(|fields|, k requires 0 <= k < |fields| => (JString(fields[k].0), fields[k].1))
  }

  /** `ai_json.get('components') or {}`: a list is gathered, a dict is used
      as it is, anything else is an empty map. */
  function ComponentsOf(aiJson: Obj): Result<ComponentMap> {
    var raw := Or(Get(aiJson, "components"), EmptyObject);
    if raw.JArray? then
      match AddItems(raw.items)
      case Failure(e) => Failure(e)
      case Success(m) => Success(RecordsOf(m))
    else if raw.JObject? then Success(KeyedBy(raw.fields))
    else Success([])
  }

  // ---------------------------------------------------------------------
  // The insights
  // ---------------------------------------------------------------------

  /** `xs.extend(v)`: a list adds its items, a string its characters, a
      dict its keys; other values are not iterable. */
  function Extend(xs: seq<Json>, v: Json): Result<seq<Json>> {
    match v
    case JArray(ys) => Success(xs + ys)
    case JString(s) => Success(xs + seq(|s|, k requires 0 <= k < |s| => JString([s[k]])))
    case JObject(fs) => Success(xs + seq(|fs|, k requires 0 <= k < |fs| => JString(fs[k].0)))
    case _ => Failure(TypeError("object is not iterable"))
  }

  /** `entry.setdefault(key, [])` on a record, when it is the list that is
      then extended or appended to. */
  function ListAt(entry: Obj, key: string): Result<seq<Json>> {
    var cur := GetOr(entry, key, JArray([]));
    if cur.JArray? then Success(cur.items) else Failure(AttributeError("extend"))
  }

  /** `entry.setdefault('issues', []).extend(issues)`. */
  function AddIssues(entry: Json, issues: Json): Result<Json> {
    if !entry.JObject? then Failure(AttributeError("setdefault"))
    else
      match ListAt(entry.fields, "issues")
      case Failure(e) => Failure(e)
      case Success(xs) =>
        match Extend(xs, issues)
        case Failure(e) => Failure(e)
        case Success(ys) => Success(JObject(OrderedDict.Put(entry.fields, "issues", JArray(ys))))
  }

  /** `entry.setdefault(key, []).append(v)`. */
  function AddTo(entry: Json, key: string, v: Json): Result<Json> {
    if !entry.JObject? then Failure(AttributeError("setdefault"))
    else
      match ListAt(entry.fields, key)
      case Failure(e) => Failure(AttributeError("append"))
      case Success(xs) => Success(JObject(OrderedDict.Put(entry.fields, key, JArray(xs + [v]))))
  }

  /** The WCAG record an insight appends. */
  function WcagRecord(ins: Obj): Json {
    JObject([("criterion", Get(ins, "wcag")), ("url", Get(ins, "wcag_url")), ("principle", Get(ins, "principle"))])
  }

  /** The three updates of one insight's record, each done only when the
      insight has a truthy value for it. */
  function UpdateEntry(entry: Json, ins: Obj): Result<Json> {
    var issues := Get(ins, "issues");
    var e1 := if Truthy(issues) then AddIssues(entry, issues) else Success(entry);
    if e1.Failure? then e1
    else
      var rec := Get(ins, "recommendation");
      var e2 := if Truthy(rec) then AddTo(e1.value, "suggestions", rec) else e1;
      if e2.Failure? then e2
      else if Truthy(Get(ins, "wcag")) then AddTo(e2.value, "wcag", WcagRecord(ins))
      else e2
  }

  /** One insight: a dict with a truthy name updates (and if need be adds)
      that name's record; anything else is skipped. */
  function ApplyInsight(m: ComponentMap, ins: Json): Result<ComponentMap> {
    if !ins.JObject? then Success(m)
    else
      var name := NameOf(ins.fields);
      if !Truthy(name) then Success(m)
      else if !Hashable(name) then Failure(TypeError("unhashable type"))
      else
        var m1 := if OrderedDict.HasKey(m, name) then m else OrderedDict.Put(m, name, EmptyObject);
        match UpdateEntry(OrderedDict.Get(m, name).GetOr(EmptyObject), ins.fields)
        case Failure(e) => Failure(e)
        case Success(entry) => Success(OrderedDict.Put(m1, name, entry))
  }

  /** The loop over the insights. */
  function ApplyInsights(m: ComponentMap, xs: seq<Json>): Result<ComponentMap> {
    FoldAll(ApplyInsight, m, xs)
  }

  /** What `for ins in (ai_json.get('insights') or [])` iterates over. */
  function InsightsList(aiJson: Obj): Result<seq<Json>> {
    match Or(Get(aiJson, "insights"), JArray([]))
    case JArray(xs) => Success(xs)
    case JString(s) => Success(seq(|s|, k requires 0 <= k < |s| => JString([s[k]])))
    case JObject(fs) => Success(seq(|fs|, k requires 0 <= k < |fs| => JString(fs[k].0)))
    case JNull => Success([])
    case _ => Failure(TypeError("object is not iterable"))
  }

  // ---------------------------------------------------------------------
  // The per-component insights
  // ---------------------------------------------------------------------

  /** `WCAGMapping(...)` of a dict entry. */
  function WcagOfRecord(fields: Obj): WcagMapping {
    WcagMapping(GetOr(fields, "criterion", JString("")), GetOr(fields, "url", JString("")),
                GetOr(fields, "principle", JString("")))
  }

  /** The WCAG references: one per dict entry, in order; other entries are
      dropped. */
  function WcagOf(ws: seq<Json>): (r: seq<WcagMapping>)
    ensures |r| <= |ws|
  {
    if ws == [] then []
    else
      var init := WcagOf(ws[..|ws| - 1]);
      var w := ws[|ws| - 1];
      if w.JObject? then init + [WcagOfRecord(w.fields)] else init
  }

  /** The insight of one detected component. */
  function InsightOf(m: ComponentMap, c: DetectedComponent): Result<ComponentInsight> {
    var info := Or(OrderedDict.Get(m, JString(c.name)).GetOr(JNull), EmptyObject);
    if !info.JObject? then Failure(AttributeError("get"))
    else
      var raw := GetOr(info.fields, "wcag", JArray([]));
      var ws := if raw.JArray? then raw.items else [raw];
      Success(ComponentInsight(c, GetOr(info.fields, "issues", JArray([])),
                               GetOr(info.fields, "suggestions", JArray([])), WcagOf(ws)))
  }

  /** The loop over the detected components. */
  function InsightsOf(m: ComponentMap, cs: seq<DetectedComponent>): Result<seq<ComponentInsight>> {
    MapAll(c => InsightOf(m, c), cs)
  }

  /** `build_report`; `now` stands for `datetime.utcnow().isoformat()`. */
  function ReportOf(storyId: Option<string>, title: string, description: string,
                    components: seq<DetectedComponent>, aiJson: Obj, now: string): Result<ReportOut>
  {
    match ComponentsOf(aiJson)
    case Failure(e) => Failure(e)
    case Success(m0) =>
      match InsightsList(aiJson)
      case Failure(e) => Failure(e)
      case Success(xs) =>
        match ApplyInsights(m0, xs)
        case Failure(e) => Failure(e)
        case Success(m) =>
          match InsightsOf(m, components)
          case Failure(e) => Failure(e)
          case Success(insights) =>
            Success(ReportOut(storyId, title, GetOr(aiJson, "short_summary", JString(Take(description, 200))),
                              components, insights, GetOr(aiJson, "overall_severity", JString("medium")),
                              now + "Z"))
  }

  // ---------------------------------------------------------------------
  // The loops
  // ---------------------------------------------------------------------

  /** The loop that gathers a component list into `comp_map`. */
  method GatherComponents(items: seq<Json>) returns (r: Result<OrderedDict.Dict<Json, Obj>>)
    ensures r == AddItems(items)
  {
    var compMap: OrderedDict.Dict<Json, Obj> := [];
    var i := 0;
    while i < |items|
      invariant i <= |items| && FoldAll(AddItem, [], items[..i]) == Success(compMap)
    {
      var item := items[i];
      assert items[..i + 1][..i] == items[..i];
      var next := AddItem(compMap, item);
      if next.Failure? {
        FoldAllFails(AddItem, [], items, i + 1);
        return Failure(next.error);
      }
      compMap := next.value;
      i := i + 1;
    }
    assert items[..i] == items;
    r := Success(compMap);
  }

  /** The loop that folds the insights into the component map. */
  method FoldInsights(m: ComponentMap, xs: seq<Json>) returns (r: Result<ComponentMap>)
    ensures r == ApplyInsights(m, xs)
  {
    var components := m;
    var i := 0;
    while i < |xs|
      invariant i <= |xs| && FoldAll(ApplyInsight, m, xs[..i]) == Success(components)
    {
      var ins := xs[i];
      assert xs[..i + 1][..i] == xs[..i];
      var next := ApplyInsight(components, ins);
      if next.Failure? {
        FoldAllFails(ApplyInsight, m, xs, i + 1);
        return Failure(next.error);
      }
      components := next.value;
      i := i + 1;
    }
    assert xs[..i] == xs;
    r := Success(components);
  }

  /** The inner loop over one component's WCAG entries. */
  method WcagList(ws: seq<Json>) returns (wcag: seq<WcagMapping>)
    ensures wcag == WcagOf(ws)
  {
    wcag := [];
    var i := 0;
    while i < |ws|
      invariant i <= |ws| && wcag == WcagOf(ws[..i])
    {
      var w := ws[i];
      assert ws[..i + 1][..i] == ws[..i];
      if w.JObject? {
        wcag := wcag + [WcagOfRecord(w.fields)];
      }
      i := i + 1;
    }
    assert ws[..i] == ws;
  }

  method ComponentInsightOf(m: ComponentMap, c: DetectedComponent) returns (r: Result<ComponentInsight>)
    ensures r == InsightOf(m, c)
  {
    var info := Or(OrderedDict.Get(m, JString(c.name)).GetOr(JNull), EmptyObject);
    if !info.JObject? {
      return Failure(AttributeError("get"));
    }
    var raw := GetOr(info.fields, "wcag", JArray([]));
    var wcag := WcagList(if raw.JArray? then raw.items else [raw]);
    r := Success(ComponentInsight(c, GetOr(info.fields, "issues", JArray([])),
                                  GetOr(info.fields, "suggestions", JArray([])), wcag));
  }

  /** The loop over the detected components. */
  method ComponentInsights(m: ComponentMap, cs: seq<DetectedComponent>) returns (r: Result<seq<ComponentInsight>>)
    ensures r == InsightsOf(m, cs)
  {
    var insights: seq<ComponentInsight> := [];
    var i := 0;
    while i < |cs|
      invariant i <= |cs| && MapAll(c => InsightOf(m, c), cs[..i]) == Success(insights)
    {
      var c := cs[i];
      assert cs[..i + 1][..i] == cs[..i];
      var insight := ComponentInsightOf(m, c);
      if insight.Failure? {
        MapAllFails(c => InsightOf(m, c), cs, i + 1);
        return Failure(insight.error);
      }
      insights := insights + [insight.value];
      i := i + 1;
    }
    assert cs[..i] == cs;
    r := Success(insights);
  }

  method BuildReport(storyId: Option<string>, title: string, description: string,
                     components: seq<DetectedComponent>, aiJson: Obj, now: string)
    returns (r: Result<ReportOut>)
    ensures r == ReportOf(storyId, title, description, components, aiJson, now)
  {
    var aiComponents: ComponentMap;
    var raw := Or(Get(aiJson, "components"), EmptyObject);
    if raw.JArray? {
      var compMap := GatherComponents(raw.items);
      if compMap.Failure? {
        return Failure(compMap.error);
      }
      aiComponents := RecordsOf(compMap.value);
    } else if raw.JObject? {
      aiComponents := KeyedBy(raw.fields);
    } else {
      aiComponents := [];
    }
    var xs := InsightsList(aiJson);
    if xs.Failure? {
      return Failure(xs.error);
    }
    var m := FoldInsights(aiComponents, xs.value);
    if m.Failure? {
      return Failure(m.error);
    }
    var insights := ComponentInsights(m.value, components);
    if insights.Failure? {
      return Failure(insights.error);
    }
    r := Success(ReportOut(storyId, title, GetOr(aiJson, "short_summary", JString(Take(description, 200))),
                           components, insights.value, GetOr(aiJson, "overall_severity", JString("medium")),
                           now + "Z"));
  }

  // ---------------------------------------------------------------------
  // Properties
  // ---------------------------------------------------------------------

  /** A report holds one insight per detected component, in input order. */
  lemma OneInsightPerComponent(storyId: Option<string>, title: string, description: string,
                               components: seq<DetectedComponent>, aiJson: Obj, now: string)
    requires ReportOf(storyId, title, description, components, aiJson, now).Success?
    ensures var r := ReportOf(storyId, title, description, components, aiJson, now).value;
            |r.insights| == |components|
            && (forall k :: 0 <= k < |components| ==> r.insights[k].component == components[k])
            && r.detectedComponents == components
  {
    var m0 := ComponentsOf(aiJson).value;
    var m := ApplyInsights(m0, InsightsList(aiJson).value).value;
    MapAllSpec(c => InsightOf(m, c), components);
  }

  /** The severity defaults to "medium" and the summary to the first 200
      characters of the description. */
  lemma ReportDefaults(storyId: Option<string>, title: string, description: string,
                       components: seq<DetectedComponent>, aiJson: Obj, now: string)
    requires ReportOf(storyId, title, description, components, aiJson, now).Success?
    requires !OrderedDict.HasKey(aiJson, "overall_severity") && !OrderedDict.HasKey(aiJson, "short_summary")
    ensures var r := ReportOf(storyId, title, description, components, aiJson, now).value;
            r.severity == JString("medium") && r.summary == JString(Take(description, 200))
            && r.createdAt == now + "Z"
  {
  }

  /** A component the AI data says nothing about gets empty issues,
      suggestions and WCAG references. */
  lemma NoInfoEmptyInsight(m: ComponentMap, c: DetectedComponent)
    requires !OrderedDict.HasKey(m, JString(c.name))
    ensures InsightOf(m, c) == Success(ComponentInsight(c, JArray([]), JArray([]), []))
  {
    assert WcagOf([JArray([])]) == [] by {
      assert [JArray([])][..0] == [];
    }
  }

  /** A record that is not a dict makes the insight fail, as `comp_info.get`
      does. */
  lemma NonDictInfoFails(m: ComponentMap, c: DetectedComponent)
    requires OrderedDict.Get(m, JString(c.name)).Some?
    requires var v := OrderedDict.Get(m, JString(c.name)).value; Truthy(v) && !v.JObject?
    ensures InsightOf(m, c).Failure?
  {
  }

  /** The WCAG references keep exactly the dict entries, in order. */
  lemma {:induction false} WcagOfAll(ws: seq<Json>)
    requires forall k :: 0 <= k < |ws| ==> ws[k].JObject?
    ensures |WcagOf(ws)| == |ws|
    ensures forall k :: 0 <= k < |ws| ==> WcagOf(ws)[k] == WcagOfRecord(ws[k].fields)
  {
    if ws != [] {
      var init := ws[..|ws| - 1];
      assert forall k :: 0 <= k < |init| ==> init[k] == ws[k];
      WcagOfAll(init);
      var last := WcagOfRecord(ws[|ws| - 1].fields);
      assert WcagOf(ws) == WcagOf(init) + [last];
      forall k | 0 <= k < |ws| ensures WcagOf(ws)[k] == WcagOfRecord(ws[k].fields) {
        if k < |init| {
          assert WcagOf(ws)[k] == WcagOf(init)[k];
        }
      }
    }
  }

  /** Entries that are not dicts are dropped. */
  lemma {:induction false} WcagOfNone(ws: seq<Json>)
    requires forall k :: 0 <= k < |ws| ==> !ws[k].JObject?
    ensures WcagOf(ws) == []
  {
    if ws != [] {
      var init := ws[..|ws| - 1];
      assert forall k :: 0 <= k < |init| ==> init[k] == ws[k];
      WcagOfNone(init);
    }
  }

  /** Dropping the non-dict entries anywhere leaves the references alone. */
  lemma {:induction false} WcagOfAppend(a: seq<Json>, b: seq<Json>)
    ensures WcagOf(a + b) == WcagOf(a) + WcagOf(b)
    decreases |b|
  {
    if b == [] {
      assert a + b == a;
    } else {
      assert (a + b)[..|a + b| - 1] == a + b[..|b| - 1];
      assert (a + b)[|a + b| - 1] == b[|b| - 1];
      WcagOfAppend(a, b[..|b| - 1]);
      var w := b[|b| - 1];
      if w.JObject? {
        assert WcagOf(a) + WcagOf(b[..|b| - 1]) + [WcagOfRecord(w.fields)]
            == WcagOf(a) + (WcagOf(b[..|b| - 1]) + [WcagOfRecord(w.fields)]);
      }
    }
  }

  /** `{**a, **b}` reads `b`'s value for its keys and `a`'s for the rest. */
  lemma {:induction false} MergeGet(a: Obj, b: Obj, k: string)
    requires OrderedDict.DistinctKeys(b)
    ensures OrderedDict.Get(Merge(a, b), k)
            == if OrderedDict.HasKey(b, k) then OrderedDict.Get(b, k) else OrderedDict.Get(a, k)
    decreases |b|
  {
    if b != [] {
      var init := b[..|b| - 1];
      DistinctPrefix(b);
      MergeGet(a, init, k);
      if k != b[|b| - 1].0 {
        HasKeyPrefix(b, k);
        GetOfPrefix(b, k);
      } else {
        GetOfLast(b);
      }
    }
  }

  lemma DistinctPrefix(b: Obj)
    requires b != [] && OrderedDict.DistinctKeys(b)
    ensures OrderedDict.DistinctKeys(b[..|b| - 1])
  {
    var init := b[..|b| - 1];
    assert forall i :: 0 <= i < |init| ==> init[i] == b[i];
  }

  lemma HasKeyPrefix(b: Obj, k: string)
    requires b != [] && k != b[|b| - 1].0
    ensures OrderedDict.HasKey(b, k) <==> OrderedDict.HasKey(b[..|b| - 1], k)
  {
    var init := b[..|b| - 1];
    if OrderedDict.HasKey(b, k) {
      var i :| 0 <= i < |b| && b[i].0 == k;
      assert init[i] == b[i];
    }
    if OrderedDict.HasKey(init, k) {
      var i :| 0 <= i < |init| && init[i].0 == k;
      assert b[i] == init[i];
    }
  }

  /** In a dict without repeated keys, the last key reads its own value. */
  lemma GetOfLast(b: Obj)
    requires b != [] && OrderedDict.DistinctKeys(b)
    ensures OrderedDict.Get(b, b[|b| - 1].0) == Some(b[|b| - 1].1)
  {
    var k := b[|b| - 1].0;
    var v := OrderedDict.Get(b, k).value;
    var i :| 0 <= i < |b| && b[i] == (k, v);
    assert i == |b| - 1;
  }

  /** A key before the last one reads the same without the last entry. */
  lemma GetOfPrefix(b: Obj, k: string)
    requires b != [] && OrderedDict.DistinctKeys(b) && k != b[|b| - 1].0
    ensures OrderedDict.Get(b, k) == OrderedDict.Get(b[..|b| - 1], k)
  {
    var init := b[..|b| - 1];
    assert b == init + [b[|b| - 1]];
    forall i | 0 <= i < |init| ensures init[i].0 != b[|b| - 1].0 {
      assert init[i] == b[i];
    }
    OrderedDict.IndexOfAppend(init, b[|b| - 1].0, b[|b| - 1].1, k);
  }

  /** Gathering a list never loses a key: every name in the list becomes a
      key of the map. */
  lemma {:induction false} AddItemsKeys(items: seq<Json>, k: nat)
    requires k < |items| && items[k].JString? && AddItems(items).Success?
    ensures OrderedDict.HasKey(AddItems(items).value, items[k])
    decreases |items|
  {
    var init := items[..|items| - 1];
    var m := AddItems(init).value;
    if k < |items| - 1 {
      assert init[k] == items[k];
      AddItemsKeys(init, k);
      AddItemKeeps(m, items[|items| - 1], items[k]);
    } else {
      assert AddItems(items) == AddItem(m, items[k]);
    }
  }

  /** The name a component list entry is gathered under: a string is its
      own name, a dict with a truthy name is gathered under that name. */
  predicate Names(item: Json, key: Json) {
    (item.JString? && item == key) || (item.JObject? && Truthy(NameOf(item.fields)) && NameOf(item.fields) == key)
  }

  /** One list entry adds the name it carries and no other key. */
  lemma AddItemHasKey(m: OrderedDict.Dict<Json, Obj>, item: Json, key: Json)
    requires AddItem(m, item).Success?
    ensures OrderedDict.HasKey(AddItem(m, item).value, key) <==> OrderedDict.HasKey(m, key) || Names(item, key)
  {
    if item.JString? {
      OrderedDict.PutHasKey(m, item, OrderedDict.Get(m, item).GetOr([]), key);
    } else if item.JObject? && Truthy(NameOf(item.fields)) {
      var name := NameOf(item.fields);
      OrderedDict.PutHasKey(m, name, Merge(OrderedDict.Get(m, name).GetOr([]), item.fields), key);
    }
  }

  /** The last entry of a list is gathered into the map of the others. */
  lemma AddItemsSnoc(items: seq<Json>)
    requires items != [] && AddItems(items).Success?
    ensures var n := |items| - 1;
            AddItems(items[..n]).Success? && AddItems(items) == AddItem(AddItems(items[..n]).value, items[n])
  {
  }

  /** Some entry of `items` carries `key` as its name. */
  predicate NamedIn(items: seq<Json>, key: Json) {
    exists k :: 0 <= k < |items| && Names(items[k], key)
  }

  lemma NamedInSnoc(items: seq<Json>, key: Json)
    requires items != []
    ensures var n := |items| - 1;
            NamedIn(items, key) <==> NamedIn(items[..n], key) || Names(items[n], key)
  {
    var n := |items| - 1;
    if NamedIn(items[..n], key) {
      var k :| 0 <= k < n && Names(items[..n][k], key);
      assert items[k] == items[..n][k];
    }
    if NamedIn(items, key) {
      var k :| 0 <= k < |items| && Names(items[k], key);
      if k < n { assert items[..n][k] == items[k]; }
    }
  }

  /** The keys of the gathered map are exactly the names the entries carry. */
  lemma {:induction false} AddItemsKeysIff(items: seq<Json>, key: Json)
    requires AddItems(items).Success?
    ensures OrderedDict.HasKey(AddItems(items).value, key) <==> NamedIn(items, key)
    decreases |items|
  {
    if items != [] {
      var n := |items| - 1;
      AddItemsSnoc(items);
      AddItemsKeysIff(items[..n], key);
      AddItemHasKey(AddItems(items[..n]).value, items[n], key);
      NamedInSnoc(items, key);
    }
  }

  /** A dict of components reads under `JString(n)` what it holds under `n`. */
  lemma {:induction false} KeyedByGet(fields: Obj, n: string)
    ensures OrderedDict.Get(KeyedBy(fields), JString(n)) == OrderedDict.Get(fields, n)
    decreases |fields|
  {
    if fields != [] && fields[0].0 != n {
      assert KeyedBy(fields)[1..] == KeyedBy(fields[1..]);
      KeyedByGet(fields[1..], n);
    }
  }

  /** The component map of the AI reply: for a list, a value is a key
      exactly when some entry carries it as its name, and every record is a
      dict; for a dict, the keys are its keys and each reads its own value;
      anything else gives no component. */
  lemma ComponentsOfKeys(aiJson: Obj, key: Json)
    requires ComponentsOf(aiJson).Success?
    ensures var raw := Or(Get(aiJson, "components"), EmptyObject);
            var m := ComponentsOf(aiJson).value;
            (OrderedDict.HasKey(m, key) <==>
               (raw.JArray? && NamedIn(raw.items, key))
               || (raw.JObject? && key.JString? && OrderedDict.HasKey(raw.fields, key.s)))
            && (raw.JArray? ==> forall i :: 0 <= i < |m| ==> m[i].1.JObject?)
            && (raw.JObject? && key.JString? ==> OrderedDict.Get(m, key) == OrderedDict.Get(raw.fields, key.s))
  {
    var raw := Or(Get(aiJson, "components"), EmptyObject);
    if raw.JArray? {
      AddItemsKeysIff(raw.items, key);
    } else if raw.JObject? {
      if key.JString? {
        KeyedByGet(raw.fields, key.s);
      }
    }
  }

  /** One list entry keeps every key already in the map. */
  lemma AddItemKeeps(m: OrderedDict.Dict<Json, Obj>, item: Json, key: Json)
    requires OrderedDict.HasKey(m, key) && AddItem(m, item).Success?
    ensures OrderedDict.HasKey(AddItem(m, item).value, key)
  {
    if item.JString? {
      OrderedDict.PutHasKey(m, item, OrderedDict.Get(m, item).GetOr([]), key);
    } else if item.JObject? && Truthy(NameOf(item.fields)) {
      var name := NameOf(item.fields);
      OrderedDict.PutHasKey(m, name, Merge(OrderedDict.Get(m, name).GetOr([]), item.fields), key);
    }
  }

  /** An insight only ever changes the record of the name it carries. */
  lemma ApplyInsightOthers(m: ComponentMap, ins: Json, key: Json)
    requires ApplyInsight(m, ins).Success?
    requires !ins.JObject? || key != NameOf(ins.fields)
    ensures OrderedDict.Get(ApplyInsight(m, ins).value, key) == OrderedDict.Get(m, key)
  {
  }

  /** An insight with a truthy name leaves a record under that name. */
  lemma ApplyInsightAdds(m: ComponentMap, ins: Json)
    requires ApplyInsight(m, ins).Success? && ins.JObject? && Truthy(NameOf(ins.fields))
    ensures OrderedDict.HasKey(ApplyInsight(m, ins).value, NameOf(ins.fields))
  {
  }

  /** A recommendation for a record without suggestions starts its list. */
  lemma RecommendationRecorded(entry: Obj, rec: Json)
    requires !OrderedDict.HasKey(entry, "suggestions")
    ensures AddTo(JObject(entry), "suggestions", rec) == Success(JObject(entry + [("suggestions", JArray([rec]))]))
  {
    assert GetOr(entry, "suggestions", JArray([])) == JArray([]);
    assert [] + [rec] == [rec];
    OrderedDict.PutNew(entry, "suggestions", JArray([rec]));
  }

  /** Issues given as a list are appended, in order, to those already
      recorded. */
  lemma IssuesExtended(entry: Obj, before: seq<Json>, issues: seq<Json>)
    requires OrderedDict.Get(entry, "issues") == Some(JArray(before))
    ensures AddIssues(JObject(entry), JArray(issues)).Success?
    ensures OrderedDict.Get(AddIssues(JObject(entry), JArray(issues)).value.fields, "issues")
            == Some(JArray(before + issues))
  {
  }
}
