/** `build_deep_report`: the structured fields are first filled from the
    decoded JSON, then, when there is Markdown, every section header that
    names a field replaces that field with what its parser reads from the
    section body; each report header adds one developer section. */
module DeepReportBuilder {
  import opened Wrappers
  import opened Text
  import opened Json
  import OrderedDict
  import opened ReportSchema
  import SectionParsers
  import TableParsers
  import DeveloperSection

  /** What the AI call hands over: `markdown`, `sections` (a missing entry
      is an empty dict) and `parsed_json`. */
  datatype AiResult = AiResult(
    markdown: Option<string>,
    sections: OrderedDict.Dict<string, string>,
    parsedJson: Json)

  /** The six lists the builder fills. */
  datatype Fields = Fields(
    checklist: seq<ChecklistItem>,
    reportSections: seq<DeveloperReportSection>,
    platformMatrix: seq<PlatformRow>,
    testingTools: seq<TestingTool>,
    severityTable: seq<SeverityRow>,
    acceptanceCriteria: seq<AcceptanceCriterion>)

  const NoFields := Fields([], [], [], [], [], [])

  /** Python truthiness of `md`. */
  predicate HasMarkdown(md: Option<string>) {
    md.Some? && md.value != ""
  }

  // ---------------------------------------------------------------------
  // The JSON pass
  // ---------------------------------------------------------------------

  /** `parsed_json.get(key) or parsed_json.get(alias)`, kept when it is a
      non-empty list. */
  function JsonList(fields: seq<(string, Json)>, key: string, alias: string): (r: seq<Json>)
    ensures r != [] && Truthy(Get(fields, key)) ==> Get(fields, key) == JArray(r)
    ensures r != [] && !Truthy(Get(fields, key)) ==> Get(fields, alias) == JArray(r)
    ensures !Get(fields, key).JArray? && !Get(fields, alias).JArray? ==> r == []
    ensures Truthy(Get(fields, key)) ==> r == (if Get(fields, key).JArray? then Get(fields, key).items else [])
    ensures !Truthy(Get(fields, key)) ==> r == (if Get(fields, alias).JArray? then Get(fields, alias).items else [])
  {
    var raw := Or(Get(fields, key), Get(fields, alias));
    if Truthy(raw) && raw.JArray? then raw.items else []
  }

  /** `PlatformMatrixItem(**p)` for a dict, else the text of `p` as the
      attribute. */
  function PlatformOfJson(p: Json): (r: PlatformRow)
    ensures p.JObject? ==> r.attribute == Get(p.fields, "attribute") && r.android == Get(p.fields, "android")
    ensures !p.JObject? ==> r.attribute == JString(PyStr(p)) && r.web == r.ios == r.android == JNull
  {
    if p.JObject? then
      PlatformRow(Get(p.fields, "attribute"), Get(p.fields, "web"), Get(p.fields, "ios"), Get(p.fields, "android"))
    else PlatformRow(JString(PyStr(p)), JNull, JNull, JNull)
  }

  /** `TestingToolSuggestion(tool=t if isinstance(t, str) else t.get("tool", ""))`:
      `t.get` fails on anything that is neither a string nor a dict. */
  function ToolOfJson(t: Json): (r: Result<TestingTool>)
    ensures r.Success? <==> t.JString? || t.JObject?
    ensures t.JString? ==> r == Success(TestingTool(t, None, None))
  {
    if t.JString? then Success(TestingTool(t, None, None))
    else if t.JObject? then Success(TestingTool(GetOr(t.fields, "tool", JString("")), None, None))
    else Failure(AttributeError("get"))
  }

  /** `SeverityItem(**s)` for a dict, else the text of `s` as the issue type. */
  function SeverityOfJson(s: Json): (r: SeverityRow)
    ensures s.JObject? ==> r.priority == Get(s.fields, "recommended_priority")
    ensures !s.JObject? ==> r.issueType == JString(PyStr(s)) && r.severity == JNull
  {
    if s.JObject? then
      SeverityRow(Get(s.fields, "issue_type"), Get(s.fields, "user_impact"),
                  Get(s.fields, "severity"), Get(s.fields, "recommended_priority"))
    else SeverityRow(JString(PyStr(s)), JNull, JNull, JNull)
  }

  /** The tool loop: the tools in order, or the first failure. */
  function ToolsOfJson(raw: seq<Json>): Result<seq<TestingTool>> {
    MapAll(ToolOfJson, raw)
  }

  function ChecklistOfJson(raw: seq<Json>): (r: seq<ChecklistItem>)
    ensures |r| == |raw| && forall k :: 0 <= k < |raw| ==> !r[k].done
  {
    seq(|raw|, k requires 0 <= k < |raw| => ChecklistItem(PyStr(raw[k]), false))
  }

  function AcceptanceOfJson(raw: seq<Json>): (r: seq<AcceptanceCriterion>)
    ensures |r| == |raw|
  {
    seq(|raw|, k requires 0 <= k < |raw| => AcceptanceCriterion(PyStr(raw[k])))
  }

  function PlatformsOfJson(raw: seq<Json>): (r: seq<PlatformRow>)
    ensures |r| == |raw| && forall k :: 0 <= k < |raw| ==> r[k] == PlatformOfJson(raw[k])
  {
    seq(|raw|, k requires 0 <= k < |raw| => PlatformOfJson(raw[k]))
  }

  function SeveritiesOfJson(raw: seq<Json>): (r: seq<SeverityRow>)
    ensures |r| == |raw| && forall k :: 0 <= k < |raw| ==> r[k] == SeverityOfJson(raw[k])
  {
    seq(|raw|, k requires 0 <= k < |raw| => SeverityOfJson(raw[k]))
  }

  /** The JSON pass: all lists stay empty unless `parsed_json` is a
      non-empty dict. */
  function FromJson(pj: Json): Result<Fields> {
    if !(Truthy(pj) && pj.JObject?) then Success(NoFields)
    else
      var f := pj.fields;
      var tools := ToolsOfJson(JsonList(f, "testing_tools", "tools"));
      if tools.Failure? then Failure(tools.error)
      else
        Success(Fields(
          ChecklistOfJson(JsonList(f, "checklist", "developer_checklist")),
          [],
          PlatformsOfJson(JsonList(f, "platform_matrix", "platforms")),
          tools.value,
          SeveritiesOfJson(JsonList(f, "severity_table", "severity")),
          AcceptanceOfJson(JsonList(f, "acceptance_criteria", "acceptance"))))
  }

  method PlatformFromJson(raw: seq<Json>) returns (rows: seq<PlatformRow>)
    ensures rows == PlatformsOfJson(raw)
  {
    rows := [];
    var i := 0;
    while i < |raw|
      invariant i <= |raw| && rows == PlatformsOfJson(raw[..i])
    {
      var p := raw[i];
      rows := rows + [PlatformOfJson(p)];
      i := i + 1;
      assert rows == PlatformsOfJson(raw[..i]);
    }
    assert raw[..i] == raw;
  }

  method SeverityFromJson(raw: seq<Json>) returns (rows: seq<SeverityRow>)
    ensures rows == SeveritiesOfJson(raw)
  {
    rows := [];
    var i := 0;
    while i < |raw|
      invariant i <= |raw| && rows == SeveritiesOfJson(raw[..i])
    {
      var s := raw[i];
      rows := rows + [SeverityOfJson(s)];
      i := i + 1;
      assert rows == SeveritiesOfJson(raw[..i]);
    }
    assert raw[..i] == raw;
  }

  /** The tool loop; it stops at the first entry whose `get` fails. */
  method ToolsFromJson(raw: seq<Json>) returns (r: Result<seq<TestingTool>>)
    ensures r == ToolsOfJson(raw)
  {
    var tools: seq<TestingTool> := [];
    var i := 0;
    while i < |raw|
      invariant i <= |raw| && MapAll(ToolOfJson, raw[..i]) == Success(tools)
    {
      var t := raw[i];
      assert raw[..i + 1][..i] == raw[..i];
      var tool := ToolOfJson(t);
      if tool.Failure? {
        MapAllFails(ToolOfJson, raw, i + 1);
        return Failure(tool.error);
      }
      tools := tools + [tool.value];
      i := i + 1;
    }
    assert raw[..i] == raw;
    r := Success(tools);
  }

  method JsonPass(pj: Json) returns (r: Result<Fields>)
    ensures r == FromJson(pj)
  {
    if !(Truthy(pj) && pj.JObject?) {
      return Success(NoFields);
    }
    var parsed := pj.fields;
    var checklist := ChecklistOfJson(JsonList(parsed, "checklist", "developer_checklist"));
    var rawPlatform := JsonList(parsed, "platform_matrix", "platforms");
    var platformMatrix := PlatformFromJson(rawPlatform);
    var tools := ToolsFromJson(JsonList(parsed, "testing_tools", "tools"));
    if tools.Failure? {
      return Failure(tools.error);
    }
    var rawSeverity := JsonList(parsed, "severity_table", "severity");
    var severityTable := SeverityFromJson(rawSeverity);
    var acceptance := AcceptanceOfJson(JsonList(parsed, "acceptance_criteria", "acceptance"));
    r := Success(Fields(checklist, [], platformMatrix, tools.value, severityTable, acceptance));
  }

  // ---------------------------------------------------------------------
  // The Markdown pass
  // ---------------------------------------------------------------------

  /** The field a section header feeds. */
  datatype Target = ToChecklist | ToReport | ToPlatform | ToTools | ToSeverity | ToAcceptance | Unrouted

  /** The `elif` chain on the header text. */
  function RouteOf(hdr: string): Target {
    if Contains(hdr, "Checklist") then ToChecklist
    else if Contains(hdr, "Developer Accessibility Report") || Contains(hdr, "Accessibility Report") then ToReport
    else if Contains(hdr, "Platform Matrix") then ToPlatform
    else if Contains(hdr, "Testing Tools") then ToTools
    else if Contains(hdr, "Severity") then ToSeverity
    else if Contains(hdr, "Acceptance") then ToAcceptance
    else Unrouted
  }

  /** The testing tools of a section: one tool per simple-list item. */
  function ToolsOfList(body: string): (r: seq<TestingTool>)
    ensures |r| == |SectionParsers.SimpleList(body)|
    ensures forall k :: 0 <= k < |r| ==> r[k] == TestingTool(JString(SectionParsers.SimpleList(body)[k]), None, None)
  {
    var tools := SectionParsers.SimpleList(body);
    seq(|tools|, k requires 0 <= k < |tools| => TestingTool(JString(tools[k]), None, None))
  }

  const AcceptanceMarks: set<char> := {'-', '*', '1', '2', '3', '4', '5', '6', '7', '8', '9', '0', '.', ' '}

  predicate AcceptanceLine(line: string) {
    var t := Strip(line);
    StartsWith(t, "-") || StartsWith(t, "1.") || StartsWith(t, "*")
  }

  /** The stripped lines that open with "-", "1." or "*", in order. */
  function AcceptanceLines(lines: seq<string>): (r: seq<string>)
    ensures |r| <= |lines|
  {
    if lines == [] then []
    else
      var init := AcceptanceLines(lines[..|lines| - 1]);
      var last := lines[|lines| - 1];
      if AcceptanceLine(last) then init + [Strip(last)] else init
  }

  /** `l.lstrip("-*1234567890. ").strip()`. */
  function CriterionText(line: string): string {
    Strip(LStripChars(line, AcceptanceMarks))
  }

  function Acceptance(body: string): (r: seq<AcceptanceCriterion>)
    ensures |r| <= |SplitLines(body)|
  {
    var lines := AcceptanceLines(SplitLines(body));
    seq(|lines|, k requires 0 <= k < |lines| => AcceptanceCriterion(CriterionText(lines[k])))
  }

  /** One step of the header loop. */
  function Route(f: Fields, hdr: string, body: string): Fields {
    match RouteOf(hdr)
    case ToChecklist => f.(checklist := SectionParsers.Checklist(body))
    case ToReport => f.(reportSections := f.reportSections + [DeveloperSection.DeveloperReport(body)])
    case ToPlatform => f.(platformMatrix := TableParsers.PlatformMatrix(body))
    case ToTools => f.(testingTools := ToolsOfList(body))
    case ToSeverity => f.(severityTable := TableParsers.SeverityTable(body))
    case ToAcceptance => f.(acceptanceCriteria := Acceptance(body))
    case Unrouted => f
  }

  /** The header loop over the sections in order. */
  function Routed(f: Fields, secs: OrderedDict.Dict<string, string>): Fields {
    if secs == [] then f
    else Route(Routed(f, secs[..|secs| - 1]), secs[|secs| - 1].0, secs[|secs| - 1].1)
  }

  method RouteSection(f: Fields, hdr: string, body: string) returns (g: Fields)
    ensures g == Route(f, hdr, body)
  {
    g := f;
    if Contains(hdr, "Checklist") {
      var checklist := SectionParsers.ParseChecklist(body);
      g := g.(checklist := checklist);
    } else if Contains(hdr, "Developer Accessibility Report") || Contains(hdr, "Accessibility Report") {
      g := g.(reportSections := g.reportSections + [DeveloperSection.DeveloperReport(body)]);
    } else if Contains(hdr, "Platform Matrix") {
      var matrix := TableParsers.ParsePlatformMatrix(body);
      g := g.(platformMatrix := matrix);
    } else if Contains(hdr, "Testing Tools") {
      g := g.(testingTools := ToolsOfList(body));
    } else if Contains(hdr, "Severity") {
      var table := TableParsers.ParseSeverityTable(body);
      g := g.(severityTable := table);
    } else if Contains(hdr, "Acceptance") {
      g := g.(acceptanceCriteria := Acceptance(body));
    }
  }

  method MarkdownPass(f0: Fields, sections: OrderedDict.Dict<string, string>) returns (f: Fields)
    ensures f == Routed(f0, sections)
  {
    f := f0;
    var i := 0;
    while i < |sections|
      invariant i <= |sections| && f == Routed(f0, sections[..i])
    {
      var (hdr, body) := sections[i];
      assert sections[..i + 1][..i] == sections[..i];
      f := RouteSection(f, hdr, body);
      i := i + 1;
    }
    assert sections[..i] == sections;
  }

  // ---------------------------------------------------------------------
  // The report
  // ---------------------------------------------------------------------

  /** `md[:200] if md else description[:200]`. */
  function Summary(md: Option<string>, description: string): (r: string)
    ensures |r| <= 200
    ensures HasMarkdown(md) ==> StartsWith(md.value, r) && (|md.value| <= 200 ==> r == md.value)
                                && (|md.value| > 200 ==> |r| == 200)
    ensures !HasMarkdown(md) ==> StartsWith(description, r) && (|description| <= 200 ==> r == description)
                                 && (|description| > 200 ==> |r| == 200)
  {
    if HasMarkdown(md) then Take(md.value, 200) else Take(description, 200)
  }

  /** `build_deep_report`; `now` stands for `datetime.utcnow().isoformat()`. */
  function DeepReportOf(storyId: Option<string>, title: string, description: string,
                        components: seq<DetectedComponent>, ai: AiResult, meta: Json, now: string)
    : Result<DeepReport>
  {
    match FromJson(ai.parsedJson)
    case Failure(e) => Failure(e)
    case Success(f0) =>
      var f := if HasMarkdown(ai.markdown) then Routed(f0, ai.sections) else f0;
      Success(DeepReport(storyId, title, Summary(ai.markdown, description), components,
                         f.checklist, f.reportSections, f.platformMatrix, f.testingTools,
                         f.severityTable, f.acceptanceCriteria, ai.markdown, now + "Z",
                         Or(meta, EmptyObject)))
  }

  method BuildDeepReport(storyId: Option<string>, title: string, description: string,
                         components: seq<DetectedComponent>, ai: AiResult, meta: Json, now: string)
    returns (r: Result<DeepReport>)
    ensures r == DeepReportOf(storyId, title, description, components, ai, meta, now)
  {
    var md := ai.markdown;
    var fromJson := JsonPass(ai.parsedJson);
    if fromJson.Failure? {
      return Failure(fromJson.error);
    }
    var f := fromJson.value;
    if HasMarkdown(md) {
      f := MarkdownPass(f, ai.sections);
    }
    var summary := if HasMarkdown(md) then Take(md.value, 200) else Take(description, 200);
    r := Success(DeepReport(storyId, title, summary, components,
                            f.checklist, f.reportSections, f.platformMatrix, f.testingTools,
                            f.severityTable, f.acceptanceCriteria, md, now + "Z",
                            Or(meta, EmptyObject)));
  }

  // ---------------------------------------------------------------------
  // Properties
  // ---------------------------------------------------------------------

  /** The last header that feeds field `k`. */
  function LastRoutedTo(secs: OrderedDict.Dict<string, string>, k: Target): (r: Option<nat>)
    ensures r.Some? ==> r.value < |secs| && RouteOf(secs[r.value].0) == k
  {
    if secs == [] then None
    else if RouteOf(secs[|secs| - 1].0) == k then Some(|secs| - 1)
    else LastRoutedTo(secs[..|secs| - 1], k)
  }

  /** The developer sections read from the report headers, in order. */
  function ReportsOf(secs: OrderedDict.Dict<string, string>): seq<DeveloperReportSection> {
    if secs == [] then []
    else
      var init := ReportsOf(secs[..|secs| - 1]);
      var last := secs[|secs| - 1];
      if RouteOf(last.0) == ToReport then init + [DeveloperSection.DeveloperReport(last.1)] else init
  }

  /** No later header feeds the field the last routed one feeds. */
  lemma {:induction false} LastRoutedIsLast(secs: OrderedDict.Dict<string, string>, k: Target, j: nat)
    requires j < |secs| && RouteOf(secs[j].0) == k
    ensures LastRoutedTo(secs, k).Some? && j <= LastRoutedTo(secs, k).value
  {
    if j < |secs| - 1 && RouteOf(secs[|secs| - 1].0) != k {
      LastRoutedIsLast(secs[..|secs| - 1], k, j);
    }
  }

  /** One header changes the field it feeds and nothing else. */
  lemma RouteStep(f: Fields, hdr: string, body: string)
    ensures var g := Route(f, hdr, body);
            var k := RouteOf(hdr);
            g.checklist == (if k == ToChecklist then SectionParsers.Checklist(body) else f.checklist)
            && g.platformMatrix == (if k == ToPlatform then TableParsers.PlatformMatrix(body) else f.platformMatrix)
            && g.testingTools == (if k == ToTools then ToolsOfList(body) else f.testingTools)
            && g.severityTable == (if k == ToSeverity then TableParsers.SeverityTable(body) else f.severityTable)
            && g.acceptanceCriteria == (if k == ToAcceptance then Acceptance(body) else f.acceptanceCriteria)
            && g.reportSections == (if k == ToReport then f.reportSections + [DeveloperSection.DeveloperReport(body)]
                                    else f.reportSections)
  {
  }

  /** Each field a header feeds comes from the last header that feeds it,
      replacing what was there; a field no header feeds is kept. */
  lemma {:induction false} RoutedFields(f: Fields, secs: OrderedDict.Dict<string, string>)
    ensures var g := Routed(f, secs);
            var c := LastRoutedTo(secs, ToChecklist);
            var p := LastRoutedTo(secs, ToPlatform);
            var t := LastRoutedTo(secs, ToTools);
            var s := LastRoutedTo(secs, ToSeverity);
            var a := LastRoutedTo(secs, ToAcceptance);
            g.checklist == (if c.Some? then SectionParsers.Checklist(secs[c.value].1) else f.checklist)
            && g.platformMatrix == (if p.Some? then TableParsers.PlatformMatrix(secs[p.value].1) else f.platformMatrix)
            && g.testingTools == (if t.Some? then ToolsOfList(secs[t.value].1) else f.testingTools)
            && g.severityTable == (if s.Some? then TableParsers.SeverityTable(secs[s.value].1) else f.severityTable)
            && g.acceptanceCriteria == (if a.Some? then Acceptance(secs[a.value].1) else f.acceptanceCriteria)
  {
    if secs != [] {
      var init := secs[..|secs| - 1];
      RoutedFields(f, init);
      RouteStep(Routed(f, init), secs[|secs| - 1].0, secs[|secs| - 1].1);
      LastRoutedStep(secs, ToChecklist);
      LastRoutedStep(secs, ToPlatform);
      LastRoutedStep(secs, ToTools);
      LastRoutedStep(secs, ToSeverity);
      LastRoutedStep(secs, ToAcceptance);
    }
  }

  /** The last header feeding `k` is the new one when it feeds `k`, and
      otherwise the same section as before it was added. */
  lemma LastRoutedStep(secs: OrderedDict.Dict<string, string>, k: Target)
    requires secs != []
    ensures var n := |secs| - 1;
            var c := LastRoutedTo(secs[..n], k);
            LastRoutedTo(secs, k) == (if RouteOf(secs[n].0) == k then Some(n) else c)
            && (c.Some? ==> secs[..n][c.value] == secs[c.value])
  {
  }

  /** Every report header adds its section after those already present. */
  lemma {:induction false} RoutedReports(f: Fields, secs: OrderedDict.Dict<string, string>)
    ensures Routed(f, secs).reportSections == f.reportSections + ReportsOf(secs)
  {
    if secs != [] {
      var init := secs[..|secs| - 1];
      RoutedReports(f, init);
      RouteStep(Routed(f, init), secs[|secs| - 1].0, secs[|secs| - 1].1);
      AppendAssoc(f.reportSections, ReportsOf(init), [DeveloperSection.DeveloperReport(secs[|secs| - 1].1)]);
    }
  }

  /** Without Markdown the report holds exactly what the JSON pass read. */
  lemma JsonOnlyWithoutMarkdown(storyId: Option<string>, title: string, description: string,
                                components: seq<DetectedComponent>, ai: AiResult, meta: Json, now: string)
    requires !HasMarkdown(ai.markdown) && FromJson(ai.parsedJson).Success?
    ensures var r := DeepReportOf(storyId, title, description, components, ai, meta, now);
            var f := FromJson(ai.parsedJson).value;
            r.Success? && r.value.checklist == f.checklist && r.value.reportSections == []
            && r.value.platformMatrix == f.platformMatrix && r.value.testingTools == f.testingTools
            && r.value.severityTable == f.severityTable && r.value.acceptanceCriteria == f.acceptanceCriteria
            && r.value.summary == Take(description, 200) && r.value.rawMarkdown == ai.markdown
  {
  }

  /** With Markdown, each field is the one read from the last header that
      feeds it, or the JSON one when no header does; the report sections are
      those of the report headers. */
  lemma MarkdownReplaces(storyId: Option<string>, title: string, description: string,
                         components: seq<DetectedComponent>, ai: AiResult, meta: Json, now: string)
    requires HasMarkdown(ai.markdown) && FromJson(ai.parsedJson).Success?
    ensures var r := DeepReportOf(storyId, title, description, components, ai, meta, now);
            var f := FromJson(ai.parsedJson).value;
            var c := LastRoutedTo(ai.sections, ToChecklist);
            var s := LastRoutedTo(ai.sections, ToSeverity);
            var p := LastRoutedTo(ai.sections, ToPlatform);
            var t := LastRoutedTo(ai.sections, ToTools);
            var a := LastRoutedTo(ai.sections, ToAcceptance);
            r.Success?
            && r.value.checklist == (if c.Some? then SectionParsers.Checklist(ai.sections[c.value].1) else f.checklist)
            && r.value.severityTable == (if s.Some? then TableParsers.SeverityTable(ai.sections[s.value].1) else f.severityTable)
            && r.value.platformMatrix == (if p.Some? then TableParsers.PlatformMatrix(ai.sections[p.value].1) else f.platformMatrix)
            && r.value.testingTools == (if t.Some? then ToolsOfList(ai.sections[t.value].1) else f.testingTools)
            && r.value.acceptanceCriteria == (if a.Some? then Acceptance(ai.sections[a.value].1) else f.acceptanceCriteria)
            && r.value.reportSections == ReportsOf(ai.sections)
            && r.value.summary == Take(ai.markdown.value, 200)
  {
    RoutedFields(FromJson(ai.parsedJson).value, ai.sections);
    RoutedReports(FromJson(ai.parsedJson).value, ai.sections);
  }

  /** The builder fails exactly when `parsed_json` is a non-empty dict whose
      tool list holds an entry that is neither a string nor a dict. */
  lemma FailsOnBadTool(storyId: Option<string>, title: string, description: string,
                       components: seq<DetectedComponent>, ai: AiResult, meta: Json, now: string)
    ensures DeepReportOf(storyId, title, description, components, ai, meta, now).Failure? <==>
            Truthy(ai.parsedJson) && ai.parsedJson.JObject?
            && var raw := JsonList(ai.parsedJson.fields, "testing_tools", "tools");
               exists k :: 0 <= k < |raw| && !raw[k].JString? && !raw[k].JObject?
  {
    if Truthy(ai.parsedJson) && ai.parsedJson.JObject? {
      var raw := JsonList(ai.parsedJson.fields, "testing_tools", "tools");
      MapAllSpec(ToolOfJson, raw);
      if ToolsOfJson(raw).Failure? {
        var k :| 0 <= k < |raw| && !ToolOfJson(raw[k]).Success?;
        assert !raw[k].JString? && !raw[k].JObject?;
      }
    }
  }

  /** The JSON pass: one checklist item (never done) per entry of the
      checklist list, its text the entry's `str()`, and no developer
      sections. */
  lemma JsonPassCounts(pj: Json)
    requires Truthy(pj) && pj.JObject?
    ensures FromJson(pj).Success? ==>
            var f := FromJson(pj).value;
            var c := JsonList(pj.fields, "checklist", "developer_checklist");
            |f.checklist| == |c| && (forall k :: 0 <= k < |c| ==> f.checklist[k] == ChecklistItem(PyStr(c[k]), false))
            && f.reportSections == []
  {
  }

  /** One platform row per entry of the platform list: a dict gives its
      four fields (`None` where absent), anything else its `str()` as the
      attribute and no platforms. */
  lemma JsonPassPlatforms(pj: Json)
    requires Truthy(pj) && pj.JObject?
    ensures FromJson(pj).Success? ==>
            var f := FromJson(pj).value;
            var p := JsonList(pj.fields, "platform_matrix", "platforms");
            |f.platformMatrix| == |p|
            && forall k :: 0 <= k < |p| ==>
                 var e := p[k];
                 var row := f.platformMatrix[k];
                 if e.JObject? then
                   row.attribute == Get(e.fields, "attribute") && row.web == Get(e.fields, "web")
                   && row.ios == Get(e.fields, "ios") && row.android == Get(e.fields, "android")
                 else row == PlatformRow(JString(PyStr(e)), JNull, JNull, JNull)
  {
  }

  /** One severity item per entry of the severity list: a dict gives its
      four fields, anything else its `str()` as the issue type and nothing
      else. */
  lemma JsonPassSeverities(pj: Json)
    requires Truthy(pj) && pj.JObject?
    ensures FromJson(pj).Success? ==>
            var f := FromJson(pj).value;
            var s := JsonList(pj.fields, "severity_table", "severity");
            |f.severityTable| == |s|
            && forall k :: 0 <= k < |s| ==>
                 var e := s[k];
                 var row := f.severityTable[k];
                 if e.JObject? then
                   row.issueType == Get(e.fields, "issue_type") && row.userImpact == Get(e.fields, "user_impact")
                   && row.severity == Get(e.fields, "severity") && row.priority == Get(e.fields, "recommended_priority")
                 else row == SeverityRow(JString(PyStr(e)), JNull, JNull, JNull)
  {
  }

  /** One criterion per entry of the acceptance list, its text the entry's
      `str()`. */
  lemma JsonPassAcceptance(pj: Json)
    requires Truthy(pj) && pj.JObject?
    ensures FromJson(pj).Success? ==>
            var f := FromJson(pj).value;
            var a := JsonList(pj.fields, "acceptance_criteria", "acceptance");
            |f.acceptanceCriteria| == |a|
            && forall k :: 0 <= k < |a| ==> f.acceptanceCriteria[k].text == PyStr(a[k])
  {
  }

  /** When the pass succeeds, every tool entry is a string or a dict and
      gives one tool: a string names itself, a dict its "tool" field or "". */
  lemma JsonPassTools(pj: Json)
    requires Truthy(pj) && pj.JObject?
    ensures FromJson(pj).Success? ==>
            var f := FromJson(pj).value;
            var t := JsonList(pj.fields, "testing_tools", "tools");
            |f.testingTools| == |t|
            && forall k :: 0 <= k < |t| ==>
                 (t[k].JString? || t[k].JObject?)
                 && f.testingTools[k].platform.None? && f.testingTools[k].useCase.None?
                 && f.testingTools[k].tool == (if t[k].JString? then t[k] else GetOr(t[k].fields, "tool", JString("")))
  {
    MapAllSpec(ToolOfJson, JsonList(pj.fields, "testing_tools", "tools"));
  }

  /** "Developer Accessibility Report" in a header already implies
      "Accessibility Report", so the first test of that branch is redundant. */
  lemma ReportTestRedundant(hdr: string)
    ensures (Contains(hdr, "Developer Accessibility Report") || Contains(hdr, "Accessibility Report"))
            <==> Contains(hdr, "Accessibility Report")
  {
    if Contains(hdr, "Developer Accessibility Report") {
      var i :| 0 <= i <= |hdr| && OccursAt(hdr, "Developer Accessibility Report", i);
      assert hdr[i + 10..i + 30] == hdr[i..i + 30][10..];
      assert OccursAt(hdr, "Accessibility Report", i + 10);
    }
  }

  /** A header naming a checklist goes to the checklist whatever else it
      names; the report branch wins over all later ones. */
  lemma RoutePrecedence(hdr: string)
    ensures Contains(hdr, "Checklist") ==> RouteOf(hdr) == ToChecklist
    ensures !Contains(hdr, "Checklist") && Contains(hdr, "Accessibility Report") ==> RouteOf(hdr) == ToReport
    ensures RouteOf(hdr) == Unrouted <==>
              !Contains(hdr, "Checklist") && !Contains(hdr, "Accessibility Report")
              && !Contains(hdr, "Platform Matrix") && !Contains(hdr, "Testing Tools")
              && !Contains(hdr, "Severity") && !Contains(hdr, "Acceptance")
  {
    ReportTestRedundant(hdr);
  }

  /** Every marked line gives a criterion line, stripped, in order. */
  lemma {:induction false} AcceptanceLinesAll(lines: seq<string>)
    requires forall k :: 0 <= k < |lines| ==> AcceptanceLine(lines[k])
    ensures |AcceptanceLines(lines)| == |lines|
    ensures forall k :: 0 <= k < |lines| ==> AcceptanceLines(lines)[k] == Strip(lines[k])
  {
    if lines != [] {
      var n := |lines| - 1;
      var init := lines[..n];
      assert AcceptanceLine(lines[n]);
      var r := AcceptanceLines(init);
      assert AcceptanceLines(lines) == r + [Strip(lines[n])];
      forall k | 0 <= k < |init| ensures AcceptanceLine(init[k]) {
        assert init[k] == lines[k];
      }
      AcceptanceLinesAll(init);
      forall k | 0 <= k < |lines| ensures AcceptanceLines(lines)[k] == Strip(lines[k]) {
        if k < n {
          assert init[k] == lines[k];
          assert AcceptanceLines(lines)[k] == r[k];
        }
      }
    }
  }

  /** Unmarked lines give no criterion. */
  lemma {:induction false} AcceptanceLinesNone(lines: seq<string>)
    requires forall k :: 0 <= k < |lines| ==> !AcceptanceLine(lines[k])
    ensures AcceptanceLines(lines) == []
  {
    if lines != [] {
      var init := lines[..|lines| - 1];
      assert forall k :: 0 <= k < |init| ==> init[k] == lines[k];
      AcceptanceLinesNone(init);
    }
  }

  /** The criterion text drops every leading marker, digit, dot and space,
      so "- 3 taps reach the button" reads "taps reach the button". */
  lemma CriterionTextDropsMarkers(m: string, t: string)
    requires forall k :: 0 <= k < |m| ==> m[k] in AcceptanceMarks
    requires t != [] && t[0] !in AcceptanceMarks
    ensures CriterionText(m + t) == Strip(t)
  {
    LStripCharsPrefix(m, t, AcceptanceMarks);
  }

  lemma {:induction false} LStripCharsPrefix(m: string, t: string, cs: set<char>)
    requires forall k :: 0 <= k < |m| ==> m[k] in cs
    requires t != [] && t[0] !in cs
    ensures LStripChars(m + t, cs) == t
  {
    if m == [] {
      assert m + t == t;
    } else {
      assert (m + t)[0] == m[0];
      assert (m + t)[1..] == m[1..] + t;
      LStripCharsPrefix(m[1..], t, cs);
    }
  }
}
