/** The rule-based component detector: a fixed table of keywords per
    component kind, matched as substrings of the lowercased story text. */
module KeywordParser {
  import opened Wrappers
  import opened Text
  import OrderedDict
  import opened ReportSchema

  /** `COMPONENT_KEYWORDS`, in its insertion order. None of the patterns holds
      a regular-expression metacharacter, so `re.search` is substring search. */
  const ComponentKeywords: seq<(string, seq<string>)> := [
    ("button", ["button", "click", "tap"]),
    ("form", ["form", "submit", "input field", "input"]),
    ("modal", ["modal", "dialog", "popup"]),
    ("toast", ["toast", "notification", "alert"]),
    ("search", ["search", "find"]),
    ("navigation", ["nav", "navigate", "menu", "tab"]),
    ("image", ["image", "photo", "thumbnail"]),
    ("link", ["link", "anchor"]),
    ("list", ["list", "items", "results"])
  ]

  const KeywordHint: string := "Detected by keyword match"
  const Screen: DetectedComponent :=
    DetectedComponent("screen", "screen", "No specific components detected - treat as full screen flow")

  /** How many of the patterns occur in `t`. */
  function MatchCount(t: string, ps: seq<string>): (n: nat)
    ensures n <= |ps|
  {
    if ps == [] then 0 else MatchCount(t, ps[..|ps| - 1]) + (if Contains(t, ps[|ps| - 1]) then 1 else 0)
  }

  /** Some pattern occurs in `t`. */
  predicate AnyPattern(t: string, ps: seq<string>) {
    exists j :: 0 <= j < |ps| && Contains(t, ps[j])
  }

  lemma {:induction false} MatchCountPositive(t: string, ps: seq<string>)
    ensures MatchCount(t, ps) > 0 <==> AnyPattern(t, ps)
  {
    if ps != [] {
      var init := ps[..|ps| - 1];
      MatchCountPositive(t, init);
      if AnyPattern(t, init) {
        var j :| 0 <= j < |init| && Contains(t, init[j]);
        assert ps[j] == init[j];
      }
      if AnyPattern(t, ps) {
        var j :| 0 <= j < |ps| && Contains(t, ps[j]);
        if j < |init| { assert init[j] == ps[j]; }
      }
    }
  }

  /** The counter `found` after the table rows `table`: one entry per row
      with a match, in row order, holding its number of matching patterns. */
  function Found(t: string, table: seq<(string, seq<string>)>): OrderedDict.Dict<string, nat> {
    if table == [] then []
    else
      var row := table[|table| - 1];
      var n := MatchCount(t, row.1);
      Found(t, table[..|table| - 1]) + (if n > 0 then [(row.0, n)] else [])
  }

  predicate DistinctNames(table: seq<(string, seq<string>)>) {
    forall i, j :: 0 <= i < j < |table| ==> table[i].0 != table[j].0
  }

  lemma KeywordNamesDistinct()
    ensures DistinctNames(ComponentKeywords)
  {
  }

  /** A name is counted exactly when its row has a keyword in the text. */
  lemma {:induction false} FoundKeys(t: string, table: seq<(string, seq<string>)>, h: string)
    ensures OrderedDict.HasKey(Found(t, table), h) <==>
              exists i :: 0 <= i < |table| && table[i].0 == h && AnyPattern(t, table[i].1)
  {
    if table != [] {
      var init := table[..|table| - 1];
      var row := table[|table| - 1];
      FoundKeys(t, init, h);
      MatchCountPositive(t, row.1);
      var d := Found(t, init);
      var tail: OrderedDict.Dict<string, nat> := if MatchCount(t, row.1) > 0 then [(row.0, MatchCount(t, row.1))] else [];
      assert Found(t, table) == d + tail;
      OrderedDict.HasKeyConcat(d, tail, h);
      assert OrderedDict.HasKey(tail, h) <==> row.0 == h && AnyPattern(t, row.1) by {
        if OrderedDict.HasKey(tail, h) {
          var i :| 0 <= i < |tail| && tail[i].0 == h;
          assert i == 0;
        }
        if row.0 == h && AnyPattern(t, row.1) {
          assert tail[0].0 == h;
        }
      }
      RowsNamed(t, table, h);
    }
  }

  /** A row of `table` named `h` with a keyword in `t` is one of its first
      rows or its last. */
  lemma RowsNamed(t: string, table: seq<(string, seq<string>)>, h: string)
    requires table != []
    ensures var n := |table| - 1;
            (exists i :: 0 <= i < |table| && table[i].0 == h && AnyPattern(t, table[i].1)) <==>
            (exists i :: 0 <= i < n && table[..n][i].0 == h && AnyPattern(t, table[..n][i].1))
            || (table[n].0 == h && AnyPattern(t, table[n].1))
  {
    var n := |table| - 1;
    var init := table[..n];
    if exists i :: 0 <= i < |table| && table[i].0 == h && AnyPattern(t, table[i].1) {
      var i :| 0 <= i < |table| && table[i].0 == h && AnyPattern(t, table[i].1);
      if i < n { assert init[i] == table[i]; }
    }
    if exists i :: 0 <= i < n && init[i].0 == h && AnyPattern(t, init[i].1) {
      var i :| 0 <= i < n && init[i].0 == h && AnyPattern(t, init[i].1);
      assert table[i] == init[i];
    }
  }

  /** The names found, in table order. */
  function FoundNames(t: string): seq<string> {
    OrderedDict.Keys(Found(t, ComponentKeywords))
  }

  /** `extract_components(text)` as a function of the text. */
  function Components(text: string): seq<DetectedComponent> {
    var names := FoundNames(Lower(text));
    if names == [] then [Screen]
    else seq(|names|, k requires 0 <= k < |names| => DetectedComponent(names[k], names[k], KeywordHint))
  }

  /** The counter after one table row on top of `before`. */
  function RowCounted(t: string, before: OrderedDict.Dict<string, nat>, comp: string, ps: seq<string>): OrderedDict.Dict<string, nat> {
    before + (if MatchCount(t, ps) > 0 then [(comp, MatchCount(t, ps))] else [])
  }

  /** The inner loop of `extract_components`: every pattern of the row that
      occurs in `textL` adds one to the row's counter. */
  method CountRow(textL: string, before: OrderedDict.Dict<string, nat>, comp: string, patterns: seq<string>)
    returns (found: OrderedDict.Dict<string, nat>)
    requires !OrderedDict.HasKey(before, comp)
    ensures found == RowCounted(textL, before, comp, patterns)
  {
    found := before;
    var j := 0;
    while j < |patterns|
      invariant 0 <= j <= |patterns|
      invariant found == RowCounted(textL, before, comp, patterns[..j])
    {
      assert patterns[..j + 1][..j] == patterns[..j];
      if Contains(textL, patterns[j]) {
        var n := OrderedDict.Get(found, comp).GetOr(0);
        if MatchCount(textL, patterns[..j]) > 0 {
          OrderedDict.PutLast(before, comp, MatchCount(textL, patterns[..j]), n + 1);
        } else {
          OrderedDict.PutNew(before, comp, n + 1);
        }
        found := OrderedDict.Put(found, comp, n + 1);
      }
      j := j + 1;
    }
    assert patterns[..|patterns|] == patterns;
  }

  /** The outer loop of `extract_components` over a table with distinct
      names. */
  method CountMatches(textL: string, table: seq<(string, seq<string>)>) returns (found: OrderedDict.Dict<string, nat>)
    requires DistinctNames(table)
    ensures found == Found(textL, table)
  {
    found := [];
    var i := 0;
    while i < |table|
      invariant 0 <= i <= |table|
      invariant found == Found(textL, table[..i])
    {
      assert !OrderedDict.HasKey(found, table[i].0) by {
        FoundKeys(textL, table[..i], table[i].0);
      }
      found := CountRow(textL, found, table[i].0, table[i].1);
      assert table[..i + 1][..i] == table[..i];
      i := i + 1;
    }
    assert table[..|table|] == table;
  }

  /** `extract_components`: count the keyword matches of the lowercased text,
      then one component per counted name, or the generic screen. */
  method ExtractComponents(text: string) returns (components: seq<DetectedComponent>)
    ensures components == Components(text)
  {
    KeywordNamesDistinct();
    var found := CountMatches(Lower(text), ComponentKeywords);
    var names := OrderedDict.Keys(found);
    components := [];
    var k := 0;
    while k < |names|
      invariant 0 <= k <= |names|
      invariant components == seq(k, m requires 0 <= m < k => DetectedComponent(names[m], names[m], KeywordHint))
    {
      components := components + [DetectedComponent(names[k], names[k], KeywordHint)];
      k := k + 1;
    }
    if components == [] {
      components := [Screen];
    }
  }

  /** The result is never empty. */
  lemma ComponentsNonEmpty(text: string)
    ensures |Components(text)| >= 1
  {
  }

  /** A kind is detected exactly when one of its keywords occurs in the
      lowercased text. */
  lemma DetectedIff(text: string, i: nat)
    requires i < |ComponentKeywords|
    ensures (exists k :: 0 <= k < |Components(text)| && Components(text)[k].name == ComponentKeywords[i].0) <==>
              AnyPattern(Lower(text), ComponentKeywords[i].1)
  {
    var t := Lower(text);
    var h := ComponentKeywords[i].0;
    var names := FoundNames(t);
    KeywordNamesDistinct();
    FoundKeys(t, ComponentKeywords, h);
    var r := Components(text);
    if names == [] {
      if AnyPattern(t, ComponentKeywords[i].1) {
        assert false;
      }
      assert r == [Screen];
      assert h != "screen";
    } else {
      if exists k :: 0 <= k < |r| && r[k].name == h {
        var k :| 0 <= k < |r| && r[k].name == h;
        assert Found(t, ComponentKeywords)[k].0 == h;
        assert OrderedDict.HasKey(Found(t, ComponentKeywords), h);
        var j :| 0 <= j < |ComponentKeywords| && ComponentKeywords[j].0 == h && AnyPattern(t, ComponentKeywords[j].1);
        assert j == i;
      }
      if AnyPattern(t, ComponentKeywords[i].1) {
        var m :| 0 <= m < |Found(t, ComponentKeywords)| && Found(t, ComponentKeywords)[m].0 == h;
        assert r[m].name == h;
      }
    }
  }

  /** Without any keyword in the text the one component is the generic
      screen. */
  lemma FallbackToScreen(text: string)
    requires forall i :: 0 <= i < |ComponentKeywords| ==> !AnyPattern(Lower(text), ComponentKeywords[i].1)
    ensures Components(text) == [Screen]
  {
    var t := Lower(text);
    if FoundNames(t) != [] {
      var h := FoundNames(t)[0];
      assert Found(t, ComponentKeywords)[0].0 == h;
      FoundKeys(t, ComponentKeywords, h);
      assert false;
    }
  }

  /** The found names appear in table order, hence without repetition. */
  lemma {:induction false} FoundInTableOrder(t: string, table: seq<(string, seq<string>)>, a: nat, b: nat)
    requires DistinctNames(table) && a < b < |Found(t, table)|
    ensures exists i, j :: 0 <= i < j < |table| && table[i].0 == Found(t, table)[a].0 && table[j].0 == Found(t, table)[b].0
  {
    var init := table[..|table| - 1];
    var d := Found(t, init);
    assert DistinctNames(init) by {
      forall i, j | 0 <= i < j < |init| ensures init[i].0 != init[j].0 { assert init[i] == table[i] && init[j] == table[j]; }
    }
    if b < |d| {
      FoundInTableOrder(t, init, a, b);
      var i, j :| 0 <= i < j < |init| && init[i].0 == d[a].0 && init[j].0 == d[b].0;
      assert table[i] == init[i] && table[j] == init[j];
    } else {
      assert Found(t, table)[a] == d[a];
      FoundKeys(t, init, d[a].0);
      assert OrderedDict.HasKey(d, d[a].0);
      var i :| 0 <= i < |init| && init[i].0 == d[a].0 && AnyPattern(t, init[i].1);
      assert table[i] == init[i];
      assert Found(t, table)[b].0 == table[|table| - 1].0;
    }
  }

  /** Every detected component is named after its kind, carries the keyword
      hint, and the generic screen never appears beside one; names do not
      repeat. */
  lemma ComponentsShape(text: string)
    ensures forall k :: 0 <= k < |Components(text)| ==>
              Components(text)[k].name == Components(text)[k].kind
    ensures Components(text) == [Screen] ||
              forall k :: 0 <= k < |Components(text)| ==> Components(text)[k].hint == KeywordHint && Components(text)[k].name != "screen"
    ensures forall a, b :: 0 <= a < b < |Components(text)| ==> Components(text)[a].name != Components(text)[b].name
  {
    var t := Lower(text);
    var d := Found(t, ComponentKeywords);
    var r := Components(text);
    KeywordNamesDistinct();
    if FoundNames(t) != [] {
      forall k | 0 <= k < |r| ensures r[k].name != "screen" {
        assert r[k].name == d[k].0;
        FoundKeys(t, ComponentKeywords, d[k].0);
        assert OrderedDict.HasKey(d, d[k].0);
      }
      forall a, b | 0 <= a < b < |r| ensures r[a].name != r[b].name {
        FoundInTableOrder(t, ComponentKeywords, a, b);
      }
    }
  }
}
