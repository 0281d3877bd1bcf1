/** The text handling of the AI client: splitting a Markdown reply into
    header/body sections, recovering a JSON object from a reply, and cutting
    a mixed reply at the JSON sentinels. `json.loads` is the parameter
    `loads`: `Some(v)` when it decodes the text to `v`, `None` when it raises. */
module AiClient {
  import opened Wrappers
  import opened Text
  import opened Json
  import OrderedDict

  type Loads = string -> Option<Json>

  // ---------------------------------------------------------------------
  // Section splitting: re.split(r"\n(?=#{3,}\s)", md)
  // ---------------------------------------------------------------------

  /** End of the run of `#` characters starting at `i`. */
  function HashRunEnd(s: string, i: nat): (e: nat)
    requires i <= |s|
    ensures i <= e <= |s|
    decreases |s| - i
  {
    if i < |s| && s[i] == '#' then HashRunEnd(s, i + 1) else i
  }

  /** The run is made of `#` and stops at a character that is not one. */
  lemma {:induction false} HashRunEndSpec(s: string, i: nat, j: int)
    requires i <= |s|
    ensures HashRunEnd(s, i) < |s| ==> s[HashRunEnd(s, i)] != '#'
    ensures i <= j < HashRunEnd(s, i) ==> s[j] == '#'
    decreases |s| - i
  {
    if i < |s| && s[i] == '#' { HashRunEndSpec(s, i + 1, j); }
  }

  /** The lookahead `#{3,}\s` holds at `i`: three or more `#`, then whitespace. */
  predicate HeaderAt(s: string, i: nat)
    requires i <= |s|
  {
    var e := HashRunEnd(s, i);
    e >= i + 3 && e < |s| && IsSpace(s[e])
  }

  /** Position `j` is a newline at which the text is split. */
  predicate IsSplitPoint(s: string, j: int) {
    0 <= j < |s| && s[j] == '\n' && HeaderAt(s, j + 1)
  }

  function FirstSplit(s: string, from: nat): (r: Option<nat>)
    requires from <= |s|
    ensures r.Some? ==> from <= r.value && IsSplitPoint(s, r.value)
    decreases |s| - from
  {
    if from == |s| then None
    else if IsSplitPoint(s, from) then Some(from)
    else FirstSplit(s, from + 1)
  }

  /** No split point lies between `from` and the one found. */
  lemma {:induction false} FirstSplitMin(s: string, from: nat, j: int)
    requires from <= |s| && from <= j
    requires FirstSplit(s, from).Some? ==> j < FirstSplit(s, from).value
    ensures !IsSplitPoint(s, j)
    decreases |s| - from
  {
    if from < |s| && !IsSplitPoint(s, from) && j > from {
      FirstSplitMin(s, from + 1, j);
    }
  }

  /** The pieces `re.split` returns: the text cut at every split point, each
      cutting newline dropped. */
  function SplitAtHeaders(s: string): (parts: seq<string>)
    ensures |parts| >= 1
    decreases |s|
  {
    match FirstSplit(s, 0)
    case None => [s]
    case Some(j) => [s[..j]] + SplitAtHeaders(s[j + 1..])
  }

  /** A piece that a split opened starts with three or more `#` followed by
      whitespace or by the end of the piece. */
  predicate OpensWithHeaderMarker(p: string) {
    var e := HashRunEnd(p, 0);
    e >= 3 && (e == |p| || IsSpace(p[e]))
  }

  lemma {:induction false} HashRunEndPrefix(s: string, n: nat, i: nat)
    requires i <= n <= |s|
    ensures HashRunEnd(s[..n], i) == if HashRunEnd(s, i) <= n then HashRunEnd(s, i) else n
    decreases n - i
  {
    if i < n && s[i] == '#' { HashRunEndPrefix(s, n, i + 1); }
  }

  lemma {:induction false} HashRunEndSuffix(s: string, k: nat, i: nat)
    requires k + i <= |s|
    ensures HashRunEnd(s[k..], i) == HashRunEnd(s, k + i) - k
    decreases |s| - k - i
  {
    if k + i < |s| && s[k + i] == '#' { HashRunEndSuffix(s, k, i + 1); }
  }

  /** A split point inside a prefix is a split point of the whole text. */
  lemma SplitPointPrefix(s: string, n: nat, j: int)
    requires n <= |s| && IsSplitPoint(s[..n], j)
    ensures IsSplitPoint(s, j)
  {
    HashRunEndPrefix(s, n, j + 1);
  }

  /** The splitter is lossless: joining the pieces with newlines gives the
      text back. */
  lemma {:induction false} JoinPieces(s: string)
    ensures Join("\n", SplitAtHeaders(s)) == s
    decreases |s|
  {
    match FirstSplit(s, 0)
    case None =>
    case Some(j) =>
      var rest := s[j + 1..];
      var tail := SplitAtHeaders(rest);
      JoinPieces(rest);
      assert SplitAtHeaders(s) == [s[..j]] + tail;
      assert Join("\n", [s[..j]] + tail) == s[..j] + "\n" + Join("\n", tail);
      assert s == s[..j] + "\n" + rest;
  }

  /** The text after a split point opens with a header marker, and so does
      the piece cut from it. */
  lemma PieceAfterSplitOpens(s: string, j: nat)
    requires IsSplitPoint(s, j)
    ensures OpensWithHeaderMarker(SplitAtHeaders(s[j + 1..])[0])
  {
    var rest := s[j + 1..];
    HashRunEndSuffix(s, j + 1, 0);
    var e := HashRunEnd(rest, 0);
    assert rest[e] == s[j + 1 + e];
    match FirstSplit(rest, 0)
    case None =>
    case Some(j2) =>
      var p := rest[..j2];
      HashRunEndPrefix(rest, j2, 0);
      HashRunEndSpec(rest, 0, j2);
      if e < j2 {
        assert p[e] == rest[e];
      }
  }

  /** Every piece after the first opens with a header marker: a split happens
      only before a line that starts with three or more `#` and whitespace. */
  lemma {:induction false} PiecesOpen(s: string, k: nat)
    requires 0 < k < |SplitAtHeaders(s)|
    ensures OpensWithHeaderMarker(SplitAtHeaders(s)[k])
    decreases |s|
  {
    match FirstSplit(s, 0)
    case None =>
    case Some(j) =>
      if k == 1 {
        PieceAfterSplitOpens(s, j);
      } else {
        PiecesOpen(s[j + 1..], k - 1);
      }
  }

  lemma FirstPieceHasNoSplitPoint(s: string, j: nat, i: int)
    requires FirstSplit(s, 0) == Some(j)
    ensures !IsSplitPoint(s[..j], i)
  {
    if IsSplitPoint(s[..j], i) {
      SplitPointPrefix(s, j, i);
      FirstSplitMin(s, 0, i);
    }
  }

  /** No piece holds a split point of its own: the text is cut at every one. */
  lemma {:induction false} PieceHasNoSplitPoint(s: string, k: nat, i: int)
    requires k < |SplitAtHeaders(s)|
    ensures !IsSplitPoint(SplitAtHeaders(s)[k], i)
    decreases |s|
  {
    match FirstSplit(s, 0)
    case None =>
      if 0 <= i { FirstSplitMin(s, 0, i); }
    case Some(j) =>
      if k == 0 {
        FirstPieceHasNoSplitPoint(s, j, i);
      } else {
        PieceHasNoSplitPoint(s[j + 1..], k - 1, i);
      }
  }

  /** Without any "\n###" in the text nothing is split: a `##` header or a `#`
      in the middle of a line never opens a section. */
  lemma NoMarkerNoSplit(s: string)
    requires !Contains(s, "\n###")
    ensures SplitAtHeaders(s) == [s]
  {
    match FirstSplit(s, 0)
    case None =>
    case Some(j) =>
      HashRunEndSpec(s, j + 1, j + 1);
      HashRunEndSpec(s, j + 1, j + 2);
      HashRunEndSpec(s, j + 1, j + 3);
      assert s[j..j + 4] == "\n###";
      assert OccursAt(s, "\n###", j);
      assert false;
  }

  // ---------------------------------------------------------------------
  // _extract_markdown_sections
  // ---------------------------------------------------------------------

  /** The header and body of one piece: its first line and the rest, both
      stripped (`part.strip().split("\n", 1)`). */
  function Chunk(part: string): (string, string) {
    var lines := SplitOnce(Strip(part), "\n");
    (Strip(lines[0]), if |lines| > 1 then Strip(lines[1]) else "")
  }

  /** A header is one stripped line; a body is stripped, and empty when the
      piece has a single line. */
  lemma ChunkSpec(part: string)
    ensures NoNewline(Chunk(part).0)
    ensures Trimmed(Chunk(part).0) && Trimmed(Chunk(part).1)
    ensures !Contains(Strip(part), "\n") ==> Chunk(part).1 == ""
  {
    var lines := SplitOnce(Strip(part), "\n");
    BeforeLacks(Strip(part), "\n");
    NoNewlineIfLacks(lines[0]);
    StripNoNewline(lines[0]);
    StripSpec(lines[0]);
    if |lines| > 1 { StripSpec(lines[1]); }
    FindNone(Strip(part), "\n");
  }

  /** The chunk of every piece, in order. */
  function Chunks(parts: seq<string>): (cs: seq<(string, string)>)
    ensures |cs| == |parts|
  {
    seq(|parts|, i requires 0 <= i < |parts| => Chunk(parts[i]))
  }

  /** The dictionary that writing the chunks in order leaves behind. */
  function Collect(chunks: seq<(string, string)>): OrderedDict.Dict<string, string> {
    if chunks == [] then []
    else
      var c := chunks[|chunks| - 1];
      OrderedDict.Put(Collect(chunks[..|chunks| - 1]), c.0, c.1)
  }

  lemma CollectStep(chunks: seq<(string, string)>, i: nat)
    requires i < |chunks|
    ensures Collect(chunks[..i + 1]) == OrderedDict.Put(Collect(chunks[..i]), chunks[i].0, chunks[i].1)
  {
    assert chunks[..i + 1][..i] == chunks[..i];
  }

  /** The pieces of the normalised, stripped text. */
  function Pieces(md: string): seq<string> {
    SplitAtHeaders(Strip(ReplaceCrlf(md)))
  }

  lemma SectionsOfSameText(a: string, b: string)
    requires ReplaceCrlf(a) == ReplaceCrlf(b) && (a == "" <==> b == "")
    ensures Sections(a) == Sections(b)
  {
    assert Pieces(a) == Pieces(b);
  }

  /** `_extract_markdown_sections` as a function of its input. */
  function Sections(md: string): OrderedDict.Dict<string, string> {
    if md == "" then [] else Collect(Chunks(Pieces(md)))
  }

  /** `_extract_markdown_sections`: the loop writes each piece's chunk into
      the dictionary, and an empty document has no sections. */
  method ExtractMarkdownSections(md: string) returns (sections: OrderedDict.Dict<string, string>)
    ensures sections == Sections(md)
    ensures md == "" ==> sections == []
    ensures OrderedDict.DistinctKeys(sections)
  {
    sections := [];
    if md == "" {
      return;
    }
    var parts := Pieces(md);
    ghost var chunks := Chunks(parts);
    var i := 0;
    while i < |parts|
      invariant 0 <= i <= |parts|
      invariant sections == Collect(chunks[..i])
      invariant OrderedDict.DistinctKeys(sections)
    {
      var chunk := Chunk(parts[i]);
      CollectStep(chunks, i);
      OrderedDict.PutDistinct(sections, chunk.0, chunk.1);
      sections := OrderedDict.Put(sections, chunk.0, chunk.1);
      i := i + 1;
    }
    assert chunks[..|parts|] == chunks;
  }

  /** The keys of the collected dictionary are exactly the headers of the
      chunks. */
  lemma {:induction false} CollectKeys(chunks: seq<(string, string)>, h: string)
    ensures OrderedDict.HasKey(Collect(chunks), h) <==> exists i :: 0 <= i < |chunks| && chunks[i].0 == h
  {
    if chunks != [] {
      var init := chunks[..|chunks| - 1];
      var c := chunks[|chunks| - 1];
      CollectKeys(init, h);
      OrderedDict.PutHasKey(Collect(init), c.0, c.1, h);
      HeaderInInit(chunks, init, h);
    }
  }

  lemma HeaderInInit(chunks: seq<(string, string)>, init: seq<(string, string)>, h: string)
    requires chunks != [] && init == chunks[..|chunks| - 1]
    ensures (exists i :: 0 <= i < |chunks| && chunks[i].0 == h) <==>
              (exists i :: 0 <= i < |init| && init[i].0 == h) || chunks[|chunks| - 1].0 == h
  {
    if exists i :: 0 <= i < |chunks| && chunks[i].0 == h {
      var i :| 0 <= i < |chunks| && chunks[i].0 == h;
      if i < |init| {
        assert init[i] == chunks[i];
      }
    }
  }

  /** Writing the chunks one after another never repeats a key. */
  lemma {:induction false} CollectDistinct(chunks: seq<(string, string)>)
    ensures OrderedDict.DistinctKeys(Collect(chunks))
  {
    if chunks != [] {
      var c := chunks[|chunks| - 1];
      CollectDistinct(chunks[..|chunks| - 1]);
      OrderedDict.PutDistinct(Collect(chunks[..|chunks| - 1]), c.0, c.1);
    }
  }

  /** Last write wins: the body stored under a header is the body of the last
      chunk with that header. */
  lemma {:induction false} CollectLastWins(chunks: seq<(string, string)>, i: nat)
    requires i < |chunks|
    requires forall j :: i < j < |chunks| ==> chunks[j].0 != chunks[i].0
    ensures OrderedDict.Get(Collect(chunks), chunks[i].0) == Some(chunks[i].1)
  {
    var init := chunks[..|chunks| - 1];
    if i < |chunks| - 1 {
      assert init[i] == chunks[i];
      forall j | i < j < |init| ensures init[j].0 != init[i].0 {
        assert init[j] == chunks[j];
      }
      CollectLastWins(init, i);
    }
  }

  /** The keys of a document's sections are the header lines of its pieces. */
  lemma SectionKeys(md: string, h: string)
    requires md != ""
    ensures OrderedDict.HasKey(Sections(md), h) <==>
              exists i :: 0 <= i < |Pieces(md)| && Chunk(Pieces(md)[i]).0 == h
  {
    var cs := Chunks(Pieces(md));
    CollectKeys(cs, h);
    if exists i :: 0 <= i < |cs| && cs[i].0 == h {
      var i :| 0 <= i < |cs| && cs[i].0 == h;
      assert Chunk(Pieces(md)[i]).0 == h;
    }
    if exists i :: 0 <= i < |Pieces(md)| && Chunk(Pieces(md)[i]).0 == h {
      var i :| 0 <= i < |Pieces(md)| && Chunk(Pieces(md)[i]).0 == h;
      assert cs[i].0 == h;
    }
  }

  /** When a header repeats, the body stored under it is that of its last
      piece. */
  lemma SectionsLastWins(md: string, i: nat)
    requires md != "" && i < |Pieces(md)|
    requires forall j :: i < j < |Pieces(md)| ==> Chunk(Pieces(md)[j]).0 != Chunk(Pieces(md)[i]).0
    ensures OrderedDict.Get(Sections(md), Chunk(Pieces(md)[i]).0) == Some(Chunk(Pieces(md)[i]).1)
  {
    var cs := Chunks(Pieces(md));
    forall j | i < j < |cs| ensures cs[j].0 != cs[i].0 {
    }
    CollectLastWins(cs, i);
  }

  /** A text of whitespace alone has one section, under the empty header,
      with an empty body. */
  lemma SectionsOfBlank(md: string)
    requires md != "" && AllSpace(ReplaceCrlf(md))
    ensures Sections(md) == [("", "")]
  {
    StripAllSpace(ReplaceCrlf(md));
    assert FirstSplit("", 0) == None;
    assert Pieces(md) == [""];
    StripAllSpace("");
    assert Find("", "\n") == None;
    assert Chunk("") == ("", "");
    var cs := Chunks([""]);
    assert cs == [("", "")];
    assert cs[..0] == [];
    assert OrderedDict.IndexOf(Collect([]), "") == None;
  }

  /** `text` with every newline written as "\r\n". */
  function ToCrlf(s: string): string {
    if s == [] then [] else (if s[0] == '\n' then "\r\n" else [s[0]]) + ToCrlf(s[1..])
  }

  lemma {:induction false} ReplaceCrlfNoCr(s: string)
    requires forall i :: 0 <= i < |s| ==> s[i] != '\r'
    ensures ReplaceCrlf(s) == s
  {
    if s != [] {
      ReplaceCrlfNoCr(s[1..]);
    }
  }

  lemma ToCrlfEmpty(s: string)
    ensures ToCrlf(s) == "" <==> s == ""
  {
  }

  lemma {:induction false} ReplaceCrlfOfCrlf(s: string)
    requires forall i :: 0 <= i < |s| ==> s[i] != '\r'
    ensures ReplaceCrlf(ToCrlf(s)) == s
  {
    if s != [] {
      ReplaceCrlfOfCrlf(s[1..]);
      if s[0] == '\n' {
        assert ToCrlf(s) == "\r\n" + ToCrlf(s[1..]);
      } else {
        assert ToCrlf(s) == [s[0]] + ToCrlf(s[1..]);
      }
    }
  }

  /** A document with Windows line endings has the same sections as the same
      document with Unix line endings. */
  lemma SectionsCrlf(md: string)
    requires forall i :: 0 <= i < |md| ==> md[i] != '\r'
    ensures Sections(ToCrlf(md)) == Sections(md)
  {
    ReplaceCrlfOfCrlf(md);
    ReplaceCrlfNoCr(md);
    ToCrlfEmpty(md);
    SectionsOfSameText(ToCrlf(md), md);
  }

  // ---------------------------------------------------------------------
  // _parse_ai_json_text
  // ---------------------------------------------------------------------

  /** Python `text[start:end]`, which is empty when `end < start`. */
  function Slice(s: string, start: nat, end: nat): string
    requires start <= |s| && end <= |s|
  {
    if start <= end then s[start..end] else ""
  }

  /** The text from the first `{` to the last `}` inclusive
      (`text[text.index("{"):text.rindex("}") + 1]`), or `None` when either
      brace is missing. */
  function BraceSnippet(t: string): (r: Option<string>)
  {
    match (Find(t, "{"), RFindChar(t, '}'))
    case (Some(a), Some(b)) => Some(Slice(t, a, b + 1))
    case _ => None
  }

  /** `_parse_ai_json_text`. For the text `null` Python's `json.loads`
      returns `None`, so the source returns `None` and its caller cannot
      tell that from a failed parse; here it is `Some(JNull)`, which the
      caller's `not parsed_json` treats the same way. */
  function ParseAiJsonText(text: string, loads: Loads): (r: Option<Json>)
    ensures AllSpace(text) ==> r.None?
    ensures r.Some? ==> r == loads(Strip(text))
                        || (BraceSnippet(Strip(text)).Some? && r == loads(BraceSnippet(Strip(text)).value))
  {
    StripAllSpace(text);
    var t := Strip(text);
    if t == "" then None
    else match loads(t)
      case Some(v) => Some(v)
      case None =>
        match BraceSnippet(t)
        case None => None
        case Some(snippet) => loads(snippet)
  }

  /** Blank text gives `None`; text that decodes as a whole gives its value. */
  lemma ParseWholeText(text: string, loads: Loads)
    ensures AllSpace(text) ==> ParseAiJsonText(text, loads) == None
    ensures !AllSpace(text) && loads(Strip(text)).Some? ==>
              ParseAiJsonText(text, loads) == loads(Strip(text))
  {
    StripAllSpace(text);
  }

  /** Text that does not decode as a whole and lacks either brace gives
      `None`. */
  lemma ParseWithoutBraces(text: string, loads: Loads)
    requires loads(Strip(text)).None?
    requires !Contains(Strip(text), "{") || forall j :: 0 <= j < |Strip(text)| ==> Strip(text)[j] != '}'
    ensures ParseAiJsonText(text, loads) == None
  {
    FindNone(Strip(text), "{");
  }

  /** A reply that is prose around one JSON object (no `{` before it, no `}`
      after it) yields that object once the whole text fails to decode. */
  lemma ParseObjectInProse(text: string, pre: string, obj: string, post: string, loads: Loads)
    requires Strip(text) == pre + obj + post
    requires |obj| >= 2 && obj[0] == '{' && obj[|obj| - 1] == '}'
    requires forall i :: 0 <= i < |pre| ==> pre[i] != '{'
    requires forall i :: 0 <= i < |post| ==> post[i] != '}'
    requires loads(Strip(text)).None?
    ensures ParseAiJsonText(text, loads) == loads(obj)
  {
    var t := pre + obj + post;
    assert t[|pre|..|pre| + 1] == "{";
    forall j | 0 <= j < |pre| ensures !OccursAt(t, "{", j) {
      assert t[j..j + 1] == [pre[j]];
    }
    FindIs(t, "{", |pre|);
    assert t[|pre| + |obj| - 1] == '}';
    forall j | |pre| + |obj| <= j < |t| ensures t[j] != '}' {
      assert t[j] == post[j - |pre| - |obj|];
    }
    assert RFindChar(t, '}') == Some(|pre| + |obj| - 1);
    assert t[|pre|..|pre| + |obj|] == obj;
  }

  // ---------------------------------------------------------------------
  // The sentinel split of generate_a11y_report_v5
  // ---------------------------------------------------------------------

  const JsonStart: string := "---JSON-START---"
  const JsonEnd: string := "---JSON-END---"

  datatype Parts = Parts(markdown: string, json: Json)

  /** Lines 824-838 of `generate_a11y_report_v5` over the already stripped
      reply `text`: the markdown part, and the JSON part after `or {}`. */
  function SplitSentinels(text: string, loads: Loads): (r: Parts)
    ensures Truthy(r.json) || r.json == EmptyObject
    ensures !Contains(text, JsonStart) ==> r.markdown == text
    ensures Contains(text, JsonStart) ==> Trimmed(r.markdown)
  {
    if !Contains(text, JsonStart) then Parts(text, Or(JNull, EmptyObject))
    else
      var parts := Split(text, JsonStart);
      var markdownPart := Strip(parts[0]);
      StripSpec(parts[0]);
      if |parts| > 1 then
        var jsonRaw := Strip(Split(parts[1], JsonEnd)[0]);
        var jsonPart := match loads(jsonRaw) case Some(v) => v case None => EmptyObject;
        Parts(markdownPart, Or(jsonPart, EmptyObject))
      else Parts(markdownPart, Or(JNull, EmptyObject))
  }

  /** Without a start sentinel the whole text is the markdown and the JSON
      part is `{}`. */
  lemma NoSentinel(text: string, loads: Loads)
    requires !Contains(text, JsonStart)
    ensures SplitSentinels(text, loads) == Parts(text, EmptyObject)
  {
  }

  /** The JSON region is the text after the first start sentinel, cut at the
      next start sentinel and then at the first end sentinel; the markdown is
      the stripped text before the first start sentinel. A region that fails to
      decode, or decodes to a false value, gives `{}`. */
  lemma SentinelRegions(text: string, loads: Loads)
    requires Contains(text, JsonStart)
    ensures SplitSentinels(text, loads).markdown == Strip(Before(text, JsonStart))
    ensures var region := Strip(Before(Before(After(text, JsonStart), JsonStart), JsonEnd));
            SplitSentinels(text, loads).json ==
              match loads(region)
              case Some(v) => if Truthy(v) then v else EmptyObject
              case None => EmptyObject
  {
    SplitSecond(text, JsonStart);
  }

  predicate NoSpace(s: string) { forall i :: 0 <= i < |s| ==> !IsSpace(s[i]) }

  predicate EndsInSpace(s: string) { s == [] || IsSpace(s[|s| - 1]) }

  predicate StartsInSpace(s: string) { s == [] || IsSpace(s[0]) }

  lemma SentinelsHaveNoSpace()
    ensures NoSpace(JsonStart) && NoSpace(JsonEnd) && |JsonStart| == 16 && |JsonEnd| == 14
  {
  }

  /** An occurrence of a separator without whitespace covers no whitespace. */
  lemma OccurrenceAvoidsSpace(t: string, sep: string, k: int, p: int)
    requires NoSpace(sep) && OccursAt(t, sep, k) && k <= p < k + |sep|
    ensures !IsSpace(t[p])
  {
    assert t[p] == t[k..k + |sep|][p - k];
  }

  /** In `a + sep + b`, with `a` free of `sep` and ending in whitespace, the
      first occurrence of `sep` is the one right after `a`. */
  lemma FirstOccurrence(a: string, sep: string, b: string)
    requires sep != [] && NoSpace(sep) && !Contains(a, sep) && EndsInSpace(a)
    ensures Before(a + sep + b, sep) == a
    ensures After(a + sep + b, sep) == b
  {
    var t := a + sep + b;
    assert t[|a|..|a| + |sep|] == sep;
    forall j | 0 <= j < |a| ensures !OccursAt(t, sep, j) {
      if j + |sep| <= |a| {
        assert t[j..j + |sep|] == a[j..j + |sep|];
        assert !OccursAt(a, sep, j);
      } else if OccursAt(t, sep, j) {
        assert t[|a| - 1] == a[|a| - 1];
        OccurrenceAvoidsSpace(t, sep, j, |a| - 1);
        assert false;
      }
    }
    FindIs(t, sep, |a|);
    assert t[|a| + |sep|..] == b;
  }

  /** Where the start sentinel can next occur in `x`, the end sentinel and
      `rest`: not before `rest`. */
  lemma NoStartBeforeRest(x: string, rest: string, k: int)
    requires !Contains(x, JsonStart) && EndsInSpace(x) && StartsInSpace(rest)
    requires 0 <= k < |x| + |JsonEnd|
    ensures !OccursAt(x + JsonEnd + rest, JsonStart, k)
  {
    SentinelsHaveNoSpace();
    var after := x + JsonEnd + rest;
    if OccursAt(after, JsonStart, k) {
      if k + |JsonStart| <= |x| {
        assert x[k..k + |JsonStart|] == after[k..k + |JsonStart|];
        assert OccursAt(x, JsonStart, k);
        assert false;
      } else if k < |x| {
        assert after[|x| - 1] == x[|x| - 1];
        OccurrenceAvoidsSpace(after, JsonStart, k, |x| - 1);
        assert false;
      } else {
        assert after[|x| + |JsonEnd|] == rest[0];
        OccurrenceAvoidsSpace(after, JsonStart, k, |x| + |JsonEnd|);
        assert false;
      }
    }
  }

  /** Cutting `x`, the end sentinel and `rest` at the next start sentinel
      keeps `x` and the end sentinel whole. */
  lemma CutKeepsEnd(x: string, rest: string)
    requires !Contains(x, JsonStart) && EndsInSpace(x) && StartsInSpace(rest)
    ensures var cut := Before(x + JsonEnd + rest, JsonStart);
            |x| + |JsonEnd| <= |cut| && cut == x + JsonEnd + cut[|x| + |JsonEnd|..]
  {
    var after := x + JsonEnd + rest;
    match Find(after, JsonStart)
    case None =>
    case Some(k) =>
      if k < |x| + |JsonEnd| { NoStartBeforeRest(x, rest, k); }
      assert after[..k][..|x| + |JsonEnd|] == x + JsonEnd;
  }

  /** A reply laid out as `md`, the start sentinel, `x`, the end sentinel and
      `rest`, with whitespace on the outer side of each sentinel, splits into
      the stripped `md` and the decoded `x`. */
  lemma SentinelRoundTrip(md: string, x: string, rest: string, v: Json, loads: Loads)
    requires !Contains(md, JsonStart) && !Contains(x, JsonStart) && !Contains(x, JsonEnd)
    requires EndsInSpace(md) && EndsInSpace(x) && StartsInSpace(rest)
    requires loads(Strip(x)) == Some(v) && Truthy(v)
    ensures SplitSentinels(md + JsonStart + x + JsonEnd + rest, loads) == Parts(Strip(md), v)
  {
    SentinelsHaveNoSpace();
    var after := x + JsonEnd + rest;
    var text := md + JsonStart + after;
    assert text == md + JsonStart + x + JsonEnd + rest;
    FirstOccurrence(md, JsonStart, after);
    assert text[|md|..|md| + |JsonStart|] == JsonStart;
    assert OccursAt(text, JsonStart, |md|);
    CutKeepsEnd(x, rest);
    var cut := Before(after, JsonStart);
    FirstOccurrence(x, JsonEnd, cut[|x| + |JsonEnd|..]);
    SentinelRegions(text, loads);
  }

  // ---------------------------------------------------------------------
  // The reply of generate_a11y_report_v5
  // ---------------------------------------------------------------------

  datatype Reply = Reply(source: string, markdown: string, json: Json)

  const EmptyReplyMarkdown: string :=
    "# Error generating V5 report: Empty response from OpenAI\n\n(Mocked content follows...)"

  /** What `generate_a11y_report_v5` returns for the content of the model's
      message: the content is stripped; an empty one raises, and the handler
      returns the mock reply; otherwise the sentinel split decides. */
  function ReplyOf(content: string, loads: Loads): Reply {
    var text := Strip(content);
    if text == "" then Reply("mock", EmptyReplyMarkdown, EmptyObject)
    else
      var sp := SplitSentinels(text, loads);
      Reply("openai", sp.markdown, sp.json)
  }

  /** A blank reply gives the mock error reply; any other reply is from the
      model, and without sentinels its markdown is the stripped content. */
  lemma ReplySpec(content: string, loads: Loads)
    ensures AllSpace(content) ==> ReplyOf(content, loads) == Reply("mock", EmptyReplyMarkdown, EmptyObject)
    ensures !AllSpace(content) ==> ReplyOf(content, loads).source == "openai"
    ensures !AllSpace(content) && !Contains(Strip(content), JsonStart) ==>
              ReplyOf(content, loads) == Reply("openai", Strip(content), EmptyObject)
  {
    StripAllSpace(content);
  }
}
