/** The report records, as plain values. Fields that the JSON pass of the
    report builders can fill with any decoded value are `Json`; the
    Markdown parsers fill them with strings (`JString`) or `None` (`JNull`). */
module ReportSchema {
  import opened Wrappers
  import opened Json
  import OrderedDict

  /** `DetectedComponent`; `type` is `kind` here. */
  datatype DetectedComponent = DetectedComponent(name: string, kind: string, hint: string)

  /** `AccessibilityChecklistItem`. */
  datatype ChecklistItem = ChecklistItem(text: string, done: bool)

  /** `PlatformMatrixItem`. */
  datatype PlatformRow = PlatformRow(attribute: Json, web: Json, ios: Json, android: Json)

  /** `TestingToolSuggestion`. */
  datatype TestingTool = TestingTool(tool: Json, platform: Option<string>, useCase: Option<string>)

  /** `SeverityItem`. */
  datatype SeverityRow = SeverityRow(issueType: Json, userImpact: Json, severity: Json, priority: Json)

  /** `AccessibilityAcceptanceCriterion`. */
  datatype AcceptanceCriterion = AcceptanceCriterion(text: string)

  /** `DeveloperReportSection` (its `wcag_references` is always `None` and
      is not kept). */
  datatype DeveloperReportSection = DeveloperReportSection(
    title: string,
    intent: Option<string>,
    expectedBehavior: Option<string>,
    implementationDetails: Option<OrderedDict.Dict<string, string>>,
    goodExample: Option<string>,
    badExample: Option<string>,
    testingSteps: seq<string>)

  /** `A11yDeepReportOut`. */
  datatype DeepReport = DeepReport(
    storyId: Option<string>,
    title: string,
    summary: string,
    detectedComponents: seq<DetectedComponent>,
    checklist: seq<ChecklistItem>,
    reportSections: seq<DeveloperReportSection>,
    platformMatrix: seq<PlatformRow>,
    testingTools: seq<TestingTool>,
    severityTable: seq<SeverityRow>,
    acceptanceCriteria: seq<AcceptanceCriterion>,
    rawMarkdown: Option<string>,
    createdAt: string,
    meta: Json)

  /** `WCAGMapping`. */
  datatype WcagMapping = WcagMapping(criterion: Json, url: Json, principle: Json)

  /** `ComponentInsight`. */
  datatype ComponentInsight = ComponentInsight(
    component: DetectedComponent,
    issues: Json,
    suggestions: Json,
    wcagReferences: seq<WcagMapping>)

  /** `ReportOut`. */
  datatype ReportOut = ReportOut(
    storyId: Option<string>,
    title: string,
    summary: Json,
    detectedComponents: seq<DetectedComponent>,
    insights: seq<ComponentInsight>,
    severity: Json,
    createdAt: string)
}
