# A11y Insights report parsing, modelled in Dafny

A11y Insights asks a language model for an accessibility report on a user
story. It turns the model's free-form answer into typed report records:
- Markdown, a JSON object, or both separated by `---JSON-START---` / `---JSON-END---` sentinels;
- parsed into checklists, platform matrices, severity tables, testing tools,
  acceptance criteria and developer sections.

This project models that text-to-structure pipeline and proves what it
promises. It also covers the small utilities beside it: two filename
sanitisers, and keyword-based component detection.

Modules, one per concern of the program:

| module | file | models |
|---|---|---|
| `Wrappers` | wrappers.dfy | `Option`, and `Result` for Python's crash paths; `MapAll`/`FoldAll` for loops that stop at the first crash |
| `Text` | text.dfy | the Python `str` methods the code uses (`strip`, `lstrip(chars)`, `split`, `splitlines`, `find`, `lower`, …) |
| `OrderedDict` | ordered_dict.dfy | a Python `dict`: first-insertion order, last write wins |
| `Json` | json.dfy | JSON values, Python truthiness, `or`, `dict.get`, `str()` |
| `ReportSchema` | report_schema.dfy | the pydantic records as plain datatypes |
| `AiClient` | ai_client.dfy | `_extract_markdown_sections`, `_parse_ai_json_text`, the sentinel split of `generate_a11y_report_v5` |
| `SectionParsers` | section_parsers.dfy | `_parse_checklist_from_section`, `_parse_simple_list` |
| `TableParsers` | table_parsers.dfy | `_parse_platform_matrix`, `_parse_severity_table` |
| `DeveloperSection` | developer_section.dfy | `_parse_developer_report_section`, with its regexes as scanners |
| `DeepReportBuilder` | deep_report.dfy | `build_deep_report` |
| `LegacyReportBuilder` | legacy_report.dfy | `build_report` |
| `SaveMarkdown` | save_markdown.dfy | `sanitize_filename` of save_markdown.py |
| `MarkdownService` | markdown_service.dfy | `sanitize_filename` and `default_md_filename` of services/markdown_service.py |
| `KeywordParser` | keyword_parser.dfy | `extract_components` over `COMPONENT_KEYWORDS` |

The loops in the program are `method`s with `while` loops:
- the section and table parsers;
- the header loop and JSON loops of `build_deep_report`;
- the component, insight and WCAG loops of `build_report`;
- the counting loops of `extract_components`.

Each method is proved equal to a specification function. The properties
the program promises are then lemmas about those functions. Straight-line
code (`_parse_simple_list`, the sentinel split, the sanitisers) is written as
functions.

Regular expressions are written out as scanners that match where `re`
matches:
- the `\s*` of the checklist pattern may cross a newline;
- `[^:]*` of the "Expected" pattern may too;
- `(.+?)` of a fenced block ends at the first closing fence.

Python's `re.split` with a lookahead, `re.finditer` with `MULTILINE`, and
`re.findall`'s resumption after a match are each modelled by their own
recursion.

Where Python would raise, the model returns `Failure(AttributeError(..))`
or `Failure(TypeError(..))`. Examples: a testing tool in the JSON that is
neither a string nor a dict, or `.extend` on an `issues` value that is not a
list. Only the kind of error is kept.

Three inputs are parameters:
- `json.loads` is a partial function `string -> Option<Json>`;
- Unicode NFKD normalisation is a function `string -> string`;
- the clock is the string `now`.

Behaviour of the code a reader may not expect:
- The sentinel split takes `parts[1]`: the text between the first and
  second start sentinels, cut at the first end sentinel.
- Without a sentinel, the JSON part is `{}`. The split itself does no brace
  search; that belongs to `_parse_ai_json_text`.
- `_parse_simple_list` strips only `-`, `•` and spaces, so `*` and `1.` markers
  stay in the item text.
- The table parsers drop every empty cell, also in the middle of a row, so a
  blank middle cell shifts the later columns left
  (`TableParsers.BlankCellShifts`).
- A matrix row with fewer cells gives `None` for the missing platforms.
- `_parse_ai_json_text` returns `None` for the text `null`, which the caller
  cannot tell from a failed parse. The model returns `Some(JNull)` there;
  every caller treats both as falsy.

The inner loops of `_parse_platform_matrix` and `_parse_severity_table` and
the JSON loops of `build_deep_report` are methods of their own, beside the
methods that call them.

## Model

| member | source | states |
|---|---|---|
| AiClient.SplitAtHeaders | ai_client.py:96 | `re.split(r"\n(?=#{3,}\s)")` always gives at least one piece |
| AiClient.JoinPieces | ai_client.py:96 | joining the pieces with "\n" gives back the text: the split loses only the newlines it splits at |
| AiClient.PiecesOpen | ai_client.py:96 | every piece after the first opens with three or more `#` and then whitespace |
| AiClient.PieceHasNoSplitPoint | ai_client.py:96 | no piece contains a newline followed by a header marker, so nothing is left unsplit |
| AiClient.NoMarkerNoSplit | ai_client.py:96 | a text without "\n###" is one piece: `##` headers and mid-line `#` never split |
| AiClient.FirstSplitMin | ai_client.py:96 | the split point found is the first one |
| AiClient.ChunkSpec | ai_client.py:99-101 | a header is trimmed and has no newline; a body is trimmed, and is "" when the piece is one line |
| AiClient.CollectStep | ai_client.py:98-102 | each piece writes `sections[header] = body` on the dict built so far |
| AiClient.ExtractMarkdownSections | ai_client.py:88-103 | the loop builds the specified dict: `{}` for empty input, and the keys are distinct |
| AiClient.CollectKeys | ai_client.py:98-102 | a header is a key exactly when some piece has it as its header |
| AiClient.CollectDistinct | ai_client.py:98-102 | the dict never repeats a key |
| AiClient.CollectLastWins | ai_client.py:102 | a header holds the body of its last occurrence |
| AiClient.SectionKeys | ai_client.py:93-103 | for non-empty input, the keys are exactly the headers of the pieces of the normalised text |
| AiClient.SectionsLastWins | ai_client.py:93-103 | for non-empty input, a repeated header keeps the body of its last occurrence |
| AiClient.SectionsOfBlank | ai_client.py:93-95 | a non-empty all-whitespace document gives `{"": ""}`; only an empty one gives `{}` |
| AiClient.SectionsCrlf | ai_client.py:95 | writing a document with "\r\n" line ends gives the same sections as with "\n" |
| AiClient.SectionsOfSameText | ai_client.py:93-95 | two inputs with the same normalised text and the same emptiness give the same sections |
| AiClient.ReplaceCrlfOfCrlf | ai_client.py:95 | `replace("\r\n", "\n")` undoes turning every "\n" into "\r\n" |
| AiClient.ParseAiJsonText | ai_client.py:72-85 | blank input gives `None`, and any value is the parse of the whole stripped text or of its brace span; ParseWholeText, ParseWithoutBraces and ParseObjectInProse give each case |
| AiClient.ParseWholeText | ai_client.py:72-77 | blank input gives `None`; otherwise a successful whole-text parse is the result |
| AiClient.ParseWithoutBraces | ai_client.py:79-85 | when the whole-text parse fails and a `{` or a `}` is missing, the result is `None`; nothing raises |
| AiClient.ParseObjectInProse | ai_client.py:79-83 | when the whole text fails to parse, the substring from the first `{` to the last `}` is parsed |
| AiClient.SplitSentinels | ai_client.py:824-838 | the JSON part is truthy or `{}`; without a start sentinel the markdown is the text, otherwise it is stripped; NoSentinel, SentinelRegions and SentinelRoundTrip give the parts |
| AiClient.NoSentinel | ai_client.py:824-838 | without a start sentinel the markdown is the whole stripped text and the JSON is `{}` |
| AiClient.SentinelRegions | ai_client.py:825-838 | the markdown is the stripped text before the first start sentinel; the JSON is the parse of `parts[1]` cut at its first end sentinel, or `{}` when that fails or is falsy |
| AiClient.FirstOccurrence | ai_client.py:826 | splitting at a separator the prefix lacks gives that prefix and the rest |
| AiClient.SentinelRoundTrip | ai_client.py:824-838 | `md + START + x + END + rest` splits back into the stripped `md` and the parse of `x` |
| AiClient.ReplySpec | ai_client.py:818-848 | an all-whitespace reply gives the mock error reply; otherwise the source is "openai", and without a sentinel the markdown is the stripped reply |
| SectionParsers.ChecklistMatch | report_generator.py:30 | a match at a line start ends within the text |
| SectionParsers.ChecklistMatchEnd | report_generator.py:30 | a match ends at a newline or at the end of the text (`(.+)$`) |
| SectionParsers.ChecklistStep | report_generator.py:30 | `finditer` goes on with the line after each match |
| SectionParsers.ParseChecklist | report_generator.py:25-34 | the loop over the lines gives the specified items in line order |
| SectionParsers.ChecklistDone | report_generator.py:31 | `done` holds exactly when the box holds `x` or `X`; numbered items are never done |
| SectionParsers.ChecklistIndented | report_generator.py:30 | a line that opens with whitespace never matches (`^` anchor) |
| SectionParsers.ChecklistTrimmed | report_generator.py:32 | the item text is stripped |
| SectionParsers.ChecklistAllTrimmed | report_generator.py:25-34 | every item the parser returns has a stripped text |
| SectionParsers.RestOfRendered | report_generator.py:30 | `\s*(.+)$` after a space reads the rest of the line as the group |
| SectionParsers.MatchRendered | report_generator.py:30-33 | a rendered item matches back to itself |
| SectionParsers.ChecklistCons | report_generator.py:30-33 | a rendered item on its own line is parsed before the items of the lines after it |
| SectionParsers.ChecklistRoundTrip | report_generator.py:25-34 | rendering items as `- [x] text` / `- [ ] text` lines and parsing them gives them back in order |
| SectionParsers.ChecklistExample | report_generator.py:25-34 | `"- [x] Do A\n- [ ] Do B"` gives `[("Do A", true), ("Do B", false)]` |
| SectionParsers.SimpleList | report_generator.py:36-39 | at most one item per line; ListItemsOne, ListItemsAll and SimpleListRoundTrip give the items |
| SectionParsers.ListItemsAppend | report_generator.py:40 | the list comprehension works line by line: a concatenation of lines gives the concatenation of items |
| SectionParsers.ListItemsOne | report_generator.py:40 | one line gives its item exactly when its stripped form starts with `-`, `•`, `*` or `1.` |
| SectionParsers.ListItemsNone | report_generator.py:40 | lines without a marker give no items |
| SectionParsers.ListItemsAll | report_generator.py:40 | lines that all carry a marker each give their item, in order |
| SectionParsers.DashBullet | report_generator.py:40 | a `- ` marker is stripped from the item |
| SectionParsers.OtherMarkersKept | report_generator.py:40 | `* ` and `1. ` markers are kept in the item text |
| SectionParsers.RuleIsEmptyItem | report_generator.py:40 | a `---` rule line gives an empty item |
| SectionParsers.BulletLines | report_generator.py:40 | dash-bulleted lines give back their texts |
| SectionParsers.SimpleListRoundTrip | report_generator.py:37-40 | rendering texts as `- text` lines and parsing them gives them back in order |
| SectionParsers.SimpleListSkipsProse | report_generator.py:40 | a line without a marker contributes nothing |
| TableParsers.StrippedNonBlankSpec | report_generator.py:44 | every kept line is non-empty and stripped |
| TableParsers.StrippedNonBlankAppend | report_generator.py:44 | the blank-line filter works line by line |
| TableParsers.StrippedNonBlankClean | report_generator.py:44 | lines that are already non-empty and stripped are kept as they are |
| TableParsers.MatrixStep | report_generator.py:48-58 | each body line appends its row, if any, to the rows so far |
| TableParsers.MatrixBody | report_generator.py:48-59 | the row loop gives the specified rows |
| TableParsers.ParsePlatformMatrix | report_generator.py:43-59 | `_parse_platform_matrix` returns the specified rows |
| TableParsers.CellsSpec | report_generator.py:51 | every cell is non-empty and stripped |
| TableParsers.MatrixLineShape | report_generator.py:51-58 | a row has a non-empty stripped attribute, and each platform is `None` or a non-empty stripped cell |
| TableParsers.MatrixRowsShape | report_generator.py:48-59 | every row of the matrix has that shape |
| TableParsers.MatrixRowsCount | report_generator.py:49-53 | there are at most as many rows as body lines with a pipe and without `---` |
| TableParsers.MatrixNeedsHeader | report_generator.py:45-46 | without a pipe in the first non-blank line the result is `[]` |
| TableParsers.MatrixOfLines | report_generator.py:44-48 | the header line is always skipped, and a `---` rule line gives no row |
| TableParsers.MatrixRowsAppend | report_generator.py:48-58 | the row loop works line by line |
| TableParsers.MatrixOfRows | report_generator.py:48-58 | rendered rows of clean cells are read back cell for cell |
| TableParsers.RowTextCells | report_generator.py:49-51 | a row rendered between pipes is a table line whose cells are its own |
| TableParsers.MatrixRoundTrip | report_generator.py:43-59 | header, rule and rendered rows parse back into rows mapped position by position to attribute/web/ios/android |
| TableParsers.BlankCellShifts | report_generator.py:51-57 | a blank middle cell is dropped, and the next cell moves into its platform |
| TableParsers.HeaderCols | report_generator.py:66 | there is one header per non-empty header cell |
| TableParsers.MappingStep | report_generator.py:73-74 | each header writes its cell on the mapping built so far |
| TableParsers.BuildMapping | report_generator.py:72-74 | the inner loop builds the specified header→cell mapping |
| TableParsers.SeverityStep | report_generator.py:68-82 | each body line appends its item, if any, to the items so far |
| TableParsers.SeverityBody | report_generator.py:68-83 | the row loop gives the specified items |
| TableParsers.ParseSeverityTable | report_generator.py:62-83 | `_parse_severity_table` returns the specified items |
| TableParsers.MappingGet | report_generator.py:73-74 | a header reads the cell in the column of its last occurrence, or "" past the last cell |
| TableParsers.MappingMissing | report_generator.py:72-74 | a name that is not a header is missing from the mapping |
| TableParsers.MappingBlank | report_generator.py:74 | without cells every header reads "" |
| TableParsers.SeverityBlankRow | report_generator.py:71-82 | a table line without cells still gives an item, all of whose fields are "" (unlike the matrix) |
| TableParsers.SeverityRowsCount | report_generator.py:68-82 | there is exactly one item per body line with a pipe and without `---` |
| TableParsers.SeverityOfFields | report_generator.py:76-81 | with the long header names, the item reads the four fields |
| TableParsers.SeverityOfShortFields | report_generator.py:77-80 | without "issue type"/"recommended priority", the item falls back to "issue"/"priority" |
| TableParsers.MappingDistinct | report_generator.py:73-74 | with distinct headers, each header reads its own column |
| TableParsers.SeverityColumns | report_generator.py:66-81 | under the headers issue type / user impact / severity / recommended priority, four cells map to the four fields in order |
| TableParsers.SeverityShortColumns | report_generator.py:66-81 | under issue / user impact / severity / priority, the same holds |
| TableParsers.SeverityMissingColumns | report_generator.py:78-79 | a missing "severity" or "user impact" column gives "" |
| TableParsers.HeaderOfRow | report_generator.py:66 | the header names are the header cells, lowercased |
| TableParsers.SeverityOfLines | report_generator.py:63-68 | the header line gives the column names, and a rule line gives no item |
| TableParsers.SeverityRowsAppend | report_generator.py:68-82 | the row loop works line by line |
| TableParsers.SeverityOfRows | report_generator.py:68-82 | rendered rows of four clean cells are read back under the long headers |
| TableParsers.SeverityRoundTrip | report_generator.py:62-83 | a rendered header, rule and rows parse back into one item per row, fields in column order |
| DeveloperSection.SearchFrom | report_generator.py:101-113 | `re.search` reports a position where the pattern matches |
| DeveloperSection.SearchFromMin | report_generator.py:101-113 | no match starts before the one found, nor anywhere when none is found |
| DeveloperSection.SearchIs | report_generator.py:101-113 | a match with none before it is the one found |
| DeveloperSection.SearchAtStart | report_generator.py:101-113 | a text that opens with a match gives that match's group |
| DeveloperSection.Stripped | report_generator.py:103-119 | there is a value exactly when there is a group, and it is the group less the whitespace around it |
| DeveloperSection.DeveloperReport | report_generator.py:86-139 | the title is fixed and the testing steps are the simple list; with snippets there are no examples, and a bad example only beside a good one; DeveloperReportDetails, ExamplesFallback and IntentLine give the rest |
| DeveloperSection.DeveloperReportDetails | report_generator.py:114-135 | `implementation_details` is `None` exactly when no labelled block matched; otherwise its only keys are web, ios and android, each holding its stripped snippet when matched |
| DeveloperSection.SnippetsKeys | report_generator.py:114-119 | each platform key holds its stripped snippet when matched and is absent otherwise; there are no other keys |
| DeveloperSection.DetailsKeys | report_generator.py:111-119 | `implementation_details` only ever has keys `web`, `ios`, `android`, each from its labelled block |
| DeveloperSection.CodeBlocksFind | report_generator.py:122 | a fence anywhere makes `findall` give at least one block |
| DeveloperSection.LabelledIsBlock | report_generator.py:111-122 | a labelled snippet is also a fenced block |
| DeveloperSection.ExamplesFallback | report_generator.py:121-135 | good and bad examples are set only without labelled snippets, from the first two blocks; without blocks there are no details |
| DeveloperSection.DeveloperReportFixedParts | report_generator.py:129-139 | the title is always "Developer Accessibility Report", and the testing steps are the simple list of the text |
| DeveloperSection.IntentNeedsMarker | report_generator.py:101-103 | without `**Intent:**` the intent is `None` |
| DeveloperSection.IntentLine | report_generator.py:101-103 | `**Intent:** t` gives intent `t` |
| DeveloperSection.ExpectedAt | report_generator.py:106 | `**Expected…:** t` matches with group `t`, whatever the words before the colon |
| DeveloperSection.ExpectedLine | report_generator.py:106-108 | `**Expected…:** t` gives expected behaviour `t` |
| DeveloperSection.FenceMatch | report_generator.py:122 | a fence opens with "```", letters and a newline, and its group ends at the first closing "```" |
| DeveloperSection.CodeBlocksCons | report_generator.py:122 | `findall` takes a block and goes on after it |
| DeveloperSection.CodeBlocksNewline | report_generator.py:122 | a newline between blocks adds no block |
| DeveloperSection.CodeBlocksRoundTrip | report_generator.py:122 | fencing code blocks and running `findall` gives them back in order |
| DeveloperSection.ExamplesOfTwoBlocks | report_generator.py:122-126 | two fenced blocks without labels give the good and then the bad example |
| DeveloperSection.LabelledFence | report_generator.py:111-113 | `Web:`, whitespace and a fence match with the fence's code as the group |
| DeepReportBuilder.JsonList | report_generator.py:166-187 | `d.get(a) or d.get(b)`: the first key's list when its value is truthy, otherwise the alias's list; a value that is not a list gives no entries |
| DeepReportBuilder.ChecklistOfJson | report_generator.py:169 | one undone item per JSON entry |
| DeepReportBuilder.PlatformFromJson | report_generator.py:173-174 | the append loop gives those rows |
| DeepReportBuilder.SeverityFromJson | report_generator.py:183-184 | the append loop gives those items |
| DeepReportBuilder.ToolsFromJson | report_generator.py:178-179 | the append loop gives the tools, or the crash on the first bad tool |
| DeepReportBuilder.JsonPass | report_generator.py:165-189 | the JSON pass fills the specified fields |
| DeepReportBuilder.AcceptanceLinesAll | report_generator.py:209 | lines that all open with `-`, `1.` or `*` are all kept, stripped, in order |
| DeepReportBuilder.AcceptanceLinesNone | report_generator.py:209 | lines without those markers are all dropped |
| DeepReportBuilder.CriterionTextDropsMarkers | report_generator.py:210 | `lstrip("-*1234567890. ")` drops the whole marker run, then the text is stripped |
| DeepReportBuilder.RouteSection | report_generator.py:194-210 | one header changes the field the `elif` chain picks |
| DeepReportBuilder.MarkdownPass | report_generator.py:193-210 | the header loop gives the specified fields |
| DeepReportBuilder.Summary | report_generator.py:215 | `md[:200]` when the markdown is truthy, otherwise `description[:200]`: the whole text up to 200 characters, and its first 200 characters beyond that |
| DeepReportBuilder.BuildDeepReport | report_generator.py:146-227 | `build_deep_report` returns the specified report, or the crash of the JSON pass |
| DeepReportBuilder.LastRoutedTo | report_generator.py:193-210 | the last header that feeds a field is one that feeds it |
| DeepReportBuilder.LastRoutedIsLast | report_generator.py:193-210 | no later header feeds that field |
| DeepReportBuilder.RouteStep | report_generator.py:194-210 | a header replaces the field it feeds, appends for a report header, and leaves every other field unchanged |
| DeepReportBuilder.RoutedFields | report_generator.py:192-210 | each field comes from the last header that feeds it, replacing the JSON value; a field no header feeds keeps its JSON value |
| DeepReportBuilder.RoutedReports | report_generator.py:196-197 | every report header appends one section, in order |
| DeepReportBuilder.JsonOnlyWithoutMarkdown | report_generator.py:165-226 | without markdown the report holds exactly the JSON values, no report sections, and the summary from the description |
| DeepReportBuilder.MarkdownReplaces | report_generator.py:191-226 | with markdown, the checklist, platform matrix, testing tools, severity table and acceptance criteria each come from the last header that feeds them, or keep the JSON value; the report sections are those of the report headers; the summary is `md[:200]` |
| DeepReportBuilder.FailsOnBadTool | report_generator.py:176-179 | the build crashes exactly when a JSON testing tool is neither a str nor a dict |
| DeepReportBuilder.JsonPassCounts | report_generator.py:167-169 | the JSON checklist gives one undone item per entry, its text the entry's `str()`; the JSON pass gives no report sections |
| DeepReportBuilder.JsonPassPlatforms | report_generator.py:172-174 | one platform row per JSON entry: a dict gives its `attribute`, `web`, `ios` and `android` (`None` where absent), anything else its `str()` as the attribute and no platforms |
| DeepReportBuilder.JsonPassSeverities | report_generator.py:182-184 | one severity item per JSON entry: a dict gives its `issue_type`, `user_impact`, `severity` and `recommended_priority`, anything else its `str()` as the issue type and nothing else |
| DeepReportBuilder.JsonPassAcceptance | report_generator.py:187-189 | one criterion per JSON entry, its text the entry's `str()` |
| DeepReportBuilder.JsonPassTools | report_generator.py:177-179 | after a successful pass, every tool entry is a str or a dict and gives one tool: a str names itself, a dict its `tool` value or "", with no platform and no use case |
| DeepReportBuilder.ReportTestRedundant | report_generator.py:196 | the "Developer Accessibility Report" test adds nothing to the "Accessibility Report" test |
| DeepReportBuilder.RoutePrecedence | report_generator.py:194-208 | "Checklist" wins over every other word, then "Accessibility Report"; a header with none of the words feeds nothing |
| LegacyReportBuilder.AddItemsKeysIff | report_generator.py:239-247 | a value is a key of the gathered map exactly when some list entry carries it as its name: a string itself, a dict its truthy `component` or `name` |
| LegacyReportBuilder.ComponentsOfKeys | report_generator.py:237-249 | a list gives exactly the names its entries carry, each with a dict record; a dict gives its own keys, each reading its own value; anything else gives no component |
| LegacyReportBuilder.GatherComponents | report_generator.py:239-247 | the item loop builds the specified map, or Python's crash |
| LegacyReportBuilder.MergeGet | report_generator.py:246 | in `{**a, **b}` a key of `b` reads `b`, and any other key reads `a` |
| LegacyReportBuilder.AddItemsKeys | report_generator.py:241-242 | every string item becomes a key of the map |
| LegacyReportBuilder.AddItemKeeps | report_generator.py:240-246 | no item removes a key |
| LegacyReportBuilder.FoldInsights | report_generator.py:251-267 | the insight loop updates the map as specified, or stops at Python's crash |
| LegacyReportBuilder.ApplyInsightOthers | report_generator.py:251-267 | an insight changes only the entry it names |
| LegacyReportBuilder.ApplyInsightAdds | report_generator.py:254-257 | a named insight makes its component an entry (`setdefault`) |
| LegacyReportBuilder.RecommendationRecorded | report_generator.py:260-261 | a recommendation starts a `suggestions` list holding it |
| LegacyReportBuilder.IssuesExtended | report_generator.py:258-259 | new issues extend the existing `issues` list |
| LegacyReportBuilder.WcagOf | report_generator.py:275-281 | there are no more WCAG mappings than raw entries |
| LegacyReportBuilder.WcagList | report_generator.py:273-281 | the append loop gives the specified mappings |
| LegacyReportBuilder.WcagOfAll | report_generator.py:275-281 | dict entries each give their mapping, in order |
| LegacyReportBuilder.WcagOfNone | report_generator.py:276 | non-dict entries are dropped |
| LegacyReportBuilder.WcagOfAppend | report_generator.py:275-281 | the filter works entry by entry |
| LegacyReportBuilder.ComponentInsightOf | report_generator.py:270-287 | one component's insight is the specified one |
| LegacyReportBuilder.ComponentInsights | report_generator.py:269-287 | the component loop gives the specified insights |
| LegacyReportBuilder.NoInfoEmptyInsight | report_generator.py:270-287 | a component without AI info gets empty issues, suggestions and WCAG lists |
| LegacyReportBuilder.NonDictInfoFails | report_generator.py:270-271 | truthy AI info that is not a dict crashes on `.get` |
| LegacyReportBuilder.BuildReport | report_generator.py:233-297 | `build_report` returns the specified report, or Python's crash |
| LegacyReportBuilder.OneInsightPerComponent | report_generator.py:269-294 | there is exactly one insight per input component, in input order |
| LegacyReportBuilder.ReportDefaults | report_generator.py:292-296 | without those keys the severity is "medium", the summary is `description[:200]`, and the timestamp ends in "Z" |
| SaveMarkdown.RemoveForbiddenSpec | save_markdown.py:12 | none of the nine characters `<`, `>`, `:`, `"`, `/`, `\`, pipe, `?`, `*` is left |
| SaveMarkdown.RemoveForbiddenClean | save_markdown.py:12 | a text without them is unchanged |
| SaveMarkdown.CollapseHead | save_markdown.py:13 | a whitespace run at the start becomes one space |
| SaveMarkdown.CollapseNoForbidden | save_markdown.py:13 | collapsing whitespace adds no forbidden character |
| SaveMarkdown.CollapseSingle | save_markdown.py:13 | after collapsing, whitespace is single `' '` characters, never two in a row |
| SaveMarkdown.CollapseClean | save_markdown.py:13 | a text of single spaces is unchanged |
| SaveMarkdown.SanitizeFilename | save_markdown.py:7-14 | the result has at most 150 characters |
| SaveMarkdown.SanitizeSpec | save_markdown.py:12-14 | no forbidden character, single spaces only, and no leading whitespace |
| SaveMarkdown.SanitizeClean | save_markdown.py:12-14 | a clean, trimmed title of at most 150 characters is returned unchanged |
| SaveMarkdown.SanitizeMayEndInSpace | save_markdown.py:13-14 | the slice comes after the strip, so a long title can give a name that ends in a space |
| SaveMarkdown.VisibleCollapse | save_markdown.py:13 | collapsing whitespace keeps the other characters in order |
| SaveMarkdown.VisibleStrip | save_markdown.py:13 | stripping keeps the other characters |
| SaveMarkdown.SanitizeOrder | save_markdown.py:12-14 | the non-space characters of the result are a prefix of those of the input without forbidden characters, and all of them when no truncation happens |
| MarkdownService.DropNonAsciiSpec | services/markdown_service.py:15 | `encode("ascii", "ignore")` leaves only ASCII |
| MarkdownService.KeepAllowedSpec | services/markdown_service.py:17 | `[^\w\s-]` removal leaves word characters, whitespace and hyphens |
| MarkdownService.UnderscoreWordChars | services/markdown_service.py:18 | replacing hyphen/whitespace runs leaves only word characters |
| MarkdownService.SanitizeFilename | services/markdown_service.py:7-19 | the result has at most 200 characters |
| MarkdownService.SanitizeWordChars | services/markdown_service.py:11-19 | the result holds only `[A-Za-z0-9_]` |
| MarkdownService.UnderscoreRun | services/markdown_service.py:18 | each run of hyphens and whitespace becomes a single `_` |
| MarkdownService.UnderscoreNoDash | services/markdown_service.py:18 | a text without hyphens or whitespace is unchanged |
| MarkdownService.CleanWords | services/markdown_service.py:14-18 | a name of word characters passes the three steps unchanged |
| MarkdownService.SanitizeWordName | services/markdown_service.py:11-19 | a short word-character name is returned as it is, and "" becomes "report" |
| MarkdownService.SanitizeEmpty | services/markdown_service.py:11-12 | `sanitize_filename("")` is "report" |
| MarkdownService.DefaultMdFilename | services/markdown_service.py:30-37 | the name ends in ".md"; DefaultMdFilenameSpec gives its whole layout |
| MarkdownService.DefaultMdFilenameSpec | services/markdown_service.py:30-37 | the name starts with the ticket id (or "report") and "_", then the sanitised title (or "A11y_Report"), and ends in "_" + timestamp + ".md" |
| MarkdownService.StemHasNoDot | services/markdown_service.py:32-35 | the stem has no dot, so ".md" is the only extension |
| KeywordParser.MatchCountPositive | parser.py:20-22 | a component is counted exactly when one of its patterns occurs |
| KeywordParser.KeywordNamesDistinct | parser.py:5-15 | the keyword table's names are distinct |
| KeywordParser.FoundKeys | parser.py:19-22 | a name is in `found` exactly when some pattern of its row occurs in the text |
| KeywordParser.CountRow | parser.py:20-22 | the pattern loop adds the row's count to the counter |
| KeywordParser.CountMatches | parser.py:18-22 | the nested loops build the specified counter |
| KeywordParser.ExtractComponents | parser.py:16-29 | `extract_components` returns the specified components |
| KeywordParser.ComponentsNonEmpty | parser.py:27-28 | the result is never empty |
| KeywordParser.DetectedIff | parser.py:17-25 | a keyword component is detected exactly when one of its patterns occurs in the lowercased text |
| KeywordParser.FallbackToScreen | parser.py:26-28 | when no pattern occurs, the result is exactly the generic `screen` component |
| KeywordParser.FoundInTableOrder | parser.py:19-25 | found names follow the keyword table's order |
| KeywordParser.ComponentsShape | parser.py:24-28 | every component has name == type; detected ones carry the keyword hint and are never `screen`; names are distinct |

## Left out

- The OpenAI client, all network calls, and the prompt texts, because they are foreign calls. The rest of `generate_a11y_report_v5` is left out too, apart from the sentinel split and the handling of an empty reply.
- MongoDB storage (db.py, services/db_service.py), the FastAPI routes (main.py, routes/), and PDF output (services/pdf_service.py, `markdown_bytes_io`), because they are I/O.
- `save_markdown_report`, because it writes files and parses dates.
- `datetime.utcnow()`, because it is a clock: the timestamp is the parameter `now` or `timestamp`.
- The internals of `json.loads` and of Unicode NFKD normalisation: both are function parameters. `MarkdownService.SanitizeWordName` and `MarkdownService.SanitizeEmpty` require that normalisation keeps ASCII text as it is.
- JSON floats, because the model's numbers are integers only.
- Pydantic validation and coercion, because the records hold what the code passes them. For example, `PlatformMatrixItem(**p)` is modelled as reading the named keys.
- Python key identity across types (`1 == True`, and a `str` key differing from an equal-looking `int` key). Keys compare as JSON values.
- Lowercasing and `\w` beyond ASCII, because the model uses ASCII case and word characters only.
- SectionParsers.DigitRunEnd: `\d` of the checklist pattern is ASCII digits only, while Python's `\d` matches any Unicode decimal digit, so a line like "١. item" is an item in the source and none in the model.
- Json.EscapeChar: the model's `repr` escapes only the backslash, the quote, `\n`, `\r` and `\t`. Python also writes other non-printable characters as `\xNN` or `\uNNNN`, so the `str()` of a JSON entry holding such a character differs.
- Json.Get: a JSON object with a repeated key reads its first value, where Python's `json.loads` keeps the last. `loads` is a parameter, and the lemmas do not require its objects to have distinct keys.
- Exception messages, as well as logging and `print`. Only the kind of a crash is modelled.
- LegacyReportBuilder.BuildReport: the in-place mutation of `comp_map` and of the entries behind `setdefault` is modelled on values. Aliasing between the map and records shared with the input JSON is therefore not captured.
- `_normalize_doc` and config.py, because they have no parsing logic.
