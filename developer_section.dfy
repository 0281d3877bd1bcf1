/** `_parse_developer_report_section`: the intent, the expected behaviour,
    the per-platform code snippets, the fallback good and bad examples and
    the testing steps of the "Developer Accessibility Report" section. The
    four regular expressions are scanners that follow the backtracking
    matcher; `re.search` is the first text position where the pattern
    matches, `re.findall` a left-to-right scan of non-overlapping matches. */
module DeveloperSection {
  import opened Wrappers
  import opened Text
  import OrderedDict
  import opened ReportSchema
  import SectionParsers

  const SectionTitle := "Developer Accessibility Report"

  // ---------------------------------------------------------------------
  // Character runs
  // ---------------------------------------------------------------------

  /** End of the whitespace run starting at `i` (`\s*`). */
  function SpaceRunEnd(s: string, i: nat): (e: nat)
    requires i <= |s|
    ensures i <= e <= |s| && (e < |s| ==> !IsSpace(s[e]))
    decreases |s| - i
  {
    if i < |s| && IsSpace(s[i]) then SpaceRunEnd(s, i + 1) else i
  }

  /** End of the run of ASCII letters starting at `i` (`[a-zA-Z]*`). */
  function LetterRunEnd(s: string, i: nat): (e: nat)
    requires i <= |s|
    ensures i <= e <= |s| && (e < |s| ==> !IsAsciiLetter(s[e]))
    decreases |s| - i
  {
    if i < |s| && IsAsciiLetter(s[i]) then LetterRunEnd(s, i + 1) else i
  }

  lemma {:induction false} SpaceRunEndIs(s: string, i: nat, n: nat)
    requires i <= n <= |s| && (n == |s| || !IsSpace(s[n]))
    requires forall j :: i <= j < n ==> IsSpace(s[j])
    ensures SpaceRunEnd(s, i) == n
    decreases n - i
  {
    if i < n { SpaceRunEndIs(s, i + 1, n); }
  }

  lemma {:induction false} LetterRunEndIs(s: string, i: nat, n: nat)
    requires i <= n <= |s| && (n == |s| || !IsAsciiLetter(s[n]))
    requires forall j :: i <= j < n ==> IsAsciiLetter(s[j])
    ensures LetterRunEnd(s, i) == n
    decreases n - i
  {
    if i < n { LetterRunEndIs(s, i + 1, n); }
  }

  // ---------------------------------------------------------------------
  // The patterns
  // ---------------------------------------------------------------------

  /** A fenced block at the start of `s` (DOTALL):
      "```", `[a-zA-Z]*`, "\n", then `(.+?)` up to the first "```" that
      leaves the group at least one character. The bounds of the group. */
  function FenceAt(s: string): (r: Option<(nat, nat)>)
    ensures r.Some? ==> 4 <= r.value.0 < r.value.1 && r.value.1 + 3 <= |s|
  {
    if !StartsWith(s, "```") then None
    else
      var l := LetterRunEnd(s, 3);
      if l + 2 <= |s| && s[l] == '\n' then
        match FindFrom(s, "```", l + 2)
        case None => None
        case Some(e) => Some((l + 1, e))
      else None
  }

  /** `\*\*Intent:\*\*\s*(.+)`, `\*\*Expected[^:]*:\*\*\s*(.+)` and
      `<label>:\s*```[a-zA-Z]*\n(.+?)```` (DOTALL). */
  datatype Pattern = IntentMarker | ExpectedMarker | Labelled(name: string)

  /** The group of the pattern matched at the start of `s`, if it matches
      there. `[^:]*` and `\s*` never need to give characters back before
      "```" or ":**", since the characters they give back could not start
      those; `\s*` before `(.+)` may, as `RestOfLine` describes. */
  function PatternAt(p: Pattern, s: string): Option<string> {
    match p
    case IntentMarker =>
      if !StartsWith(s, "**Intent:**") then None
      else
        (match SectionParsers.RestOfLine(s, 11)
         case None => None
         case Some(g) => Some(s[g.0..g.1]))
    case ExpectedMarker =>
      if !StartsWith(s, "**Expected") then None
      else
        var q := SectionParsers.CharFrom(s, 10, ':');
        if !StartsWith(s[q..], ":**") then None
        else
          (match SectionParsers.RestOfLine(s, q + 3)
           case None => None
           case Some(g) => Some(s[g.0..g.1]))
    case Labelled(name) =>
      if !StartsWith(s, name + ":") then None
      else
        var w := SpaceRunEnd(s, |name| + 1);
        match FenceAt(s[w..])
        case None => None
        case Some(g) => Some(s[w..][g.0..g.1])
  }

  /** `re.search`: the first position at or after `k` where the pattern
      matches. */
  function SearchFrom(p: Pattern, s: string, k: nat): (r: Option<nat>)
    requires k <= |s|
    ensures r.Some? ==> k <= r.value <= |s| && PatternAt(p, s[r.value..]).Some?
    decreases |s| - k
  {
    if PatternAt(p, s[k..]).Some? then Some(k)
    else if k == |s| then None
    else SearchFrom(p, s, k + 1)
  }

  /** The group of the first match, if any. */
  function Search(p: Pattern, s: string): Option<string> {
    match SearchFrom(p, s, 0)
    case None => None
    case Some(k) => PatternAt(p, s[k..])
  }

  /** No match starts before the one found, nor anywhere when none is. */
  lemma {:induction false} SearchFromMin(p: Pattern, s: string, k: nat, j: nat)
    requires k <= j <= |s|
    requires SearchFrom(p, s, k).Some? ==> j < SearchFrom(p, s, k).value
    ensures PatternAt(p, s[j..]).None?
    decreases |s| - k
  {
    if PatternAt(p, s[k..]).None? && k < |s| && j > k {
      SearchFromMin(p, s, k + 1, j);
    }
  }

  /** A match with none before it is the one found. */
  lemma SearchIs(p: Pattern, s: string, k: nat)
    requires k <= |s| && PatternAt(p, s[k..]).Some?
    requires forall j :: 0 <= j < k ==> PatternAt(p, s[j..]).None?
    ensures SearchFrom(p, s, 0) == Some(k)
  {
    match SearchFrom(p, s, 0)
    case None => SearchFromMin(p, s, 0, k);
    case Some(i) => if i > k { SearchFromMin(p, s, 0, k); }
  }

  /** A text that opens with a match gives that match's group. */
  lemma SearchAtStart(p: Pattern, s: string)
    requires PatternAt(p, s).Some?
    ensures Search(p, s) == PatternAt(p, s)
  {
    assert s[0..] == s;
  }

  /** `re.findall` of the fenced-block pattern: a match is tried at each
      position, and after a match the scan goes on where it ended. */
  function CodeBlocks(s: string): (r: seq<string>)
    decreases |s|
  {
    if s == [] then []
    else
      match FenceAt(s)
      case Some(g) => [s[g.0..g.1]] + CodeBlocks(s[g.1 + 3..])
      case None => CodeBlocks(s[1..])
  }

  // ---------------------------------------------------------------------
  // The section
  // ---------------------------------------------------------------------

  /** `m.group(1).strip()` when there is a match: the group without the
      whitespace around it. */
  function Stripped(o: Option<string>): (r: Option<string>)
    ensures r.Some? <==> o.Some?
    ensures o.Some? ==>
              var t := o.value;
              var n := LeadingSpace(t);
              n + |r.value| <= |t| && r.value == t[n..n + |r.value|]
              && AllSpace(t[..n]) && AllSpace(t[n + |r.value|..]) && Trimmed(r.value)
  {
    match o
    case None => None
    case Some(t) => StripSpec(t); Some(Strip(t))
  }

  /** `implementation_details` from the three searches: "web", "ios" and
      "android", in that order, each present when its block was found. */
  function Snippets(web: Option<string>, ios: Option<string>, android: Option<string>)
    : OrderedDict.Dict<string, string>
  {
    PutEach("web", Stripped(web), "ios", Stripped(ios), "android", Stripped(android))
  }

  function Details(text: string): OrderedDict.Dict<string, string> {
    Snippets(Search(Labelled("Web"), text), Search(Labelled("iOS"), text),
             Search(Labelled("Android"), text))
  }

  /** `_parse_developer_report_section(text)`. */
  function DeveloperReport(text: string): (r: DeveloperReportSection)
    ensures r.title == SectionTitle && r.testingSteps == SectionParsers.SimpleList(text)
    ensures r.implementationDetails.Some? ==> r.goodExample.None? && r.badExample.None?
    ensures r.badExample.Some? ==> r.goodExample.Some?
  {
    var details := Details(text);
    var blocks := CodeBlocks(text);
    DeveloperReportSection(
      SectionTitle,
      Stripped(Search(IntentMarker, text)),
      Stripped(Search(ExpectedMarker, text)),
      if details == [] then None else Some(details),
      if blocks != [] && details == [] then Some(Strip(blocks[0])) else None,
      if |blocks| > 1 && details == [] then Some(Strip(blocks[1])) else None,
      SectionParsers.SimpleList(text))
  }

  // ---------------------------------------------------------------------
  // Properties
  // ---------------------------------------------------------------------

  /** `d[k] = v` when there is a value to write. */
  function PutSome<K(==,!new), V>(d: OrderedDict.Dict<K, V>, k: K, o: Option<V>): OrderedDict.Dict<K, V> {
    if o.Some? then OrderedDict.Put(d, k, o.value) else d
  }

  /** Three conditional writes of distinct keys into an empty dict. */
  function PutEach<K(==,!new), V>(ka: K, a: Option<V>, kb: K, b: Option<V>, kc: K, c: Option<V>)
    : OrderedDict.Dict<K, V>
  {
    PutSome(PutSome(PutSome([], ka, a), kb, b), kc, c)
  }

  /** A conditional write reads back, leaves the other keys alone and adds
      at most its own key. */
  lemma PutSomeKeys<K(!new), V>(d: OrderedDict.Dict<K, V>, k: K, o: Option<V>)
    requires OrderedDict.DistinctKeys(d) && !OrderedDict.HasKey(d, k)
    ensures var r := PutSome(d, k, o);
            OrderedDict.Get(r, k) == o
            && (forall h :: h != k ==> OrderedDict.Get(r, h) == OrderedDict.Get(d, h))
            && (forall i :: 0 <= i < |r| ==> (r[i].0 == k || OrderedDict.HasKey(d, r[i].0)))
            && OrderedDict.DistinctKeys(r) && |r| <= |d| + 1
  {
    if o.Some? {
      OrderedDict.PutNew(d, k, o.value);
      var r := d + [(k, o.value)];
      forall i | 0 <= i < |r| ensures r[i].0 == k || OrderedDict.HasKey(d, r[i].0) {
        if i < |d| { assert d[i].0 == r[i].0; }
      }
    } else {
      assert !OrderedDict.Get(d, k).Some?;
      forall i | 0 <= i < |d| ensures OrderedDict.HasKey(d, d[i].0) {
        assert d[i].0 == d[i].0;
      }
    }
  }

  lemma PutEachKeys<K(!new), V>(ka: K, a: Option<V>, kb: K, b: Option<V>, kc: K, c: Option<V>)
    requires ka != kb && ka != kc && kb != kc
    ensures var d := PutEach(ka, a, kb, b, kc, c);
            OrderedDict.Get(d, ka) == a && OrderedDict.Get(d, kb) == b && OrderedDict.Get(d, kc) == c
            && (forall i :: 0 <= i < |d| ==> d[i].0 == ka || d[i].0 == kb || d[i].0 == kc)
            && OrderedDict.DistinctKeys(d) && |d| <= 3
  {
    var d0: OrderedDict.Dict<K, V> := [];
    PutSomeKeys(d0, ka, a);
    var d1 := PutSome(d0, ka, a);
    assert !OrderedDict.HasKey(d1, kb) by { assert OrderedDict.Get(d1, kb) == OrderedDict.Get(d0, kb); }
    PutSomeKeys(d1, kb, b);
    var d2 := PutSome(d1, kb, b);
    assert !OrderedDict.HasKey(d2, kc) by {
      assert OrderedDict.Get(d2, kc) == OrderedDict.Get(d1, kc) == OrderedDict.Get(d0, kc);
    }
    PutSomeKeys(d2, kc, c);
    var d := PutSome(d2, kc, c);
    forall i | 0 <= i < |d| ensures d[i].0 == ka || d[i].0 == kb || d[i].0 == kc {
      var h := d[i].0;
      if h != kc {
        assert OrderedDict.HasKey(d2, h);
        var j :| 0 <= j < |d2| && d2[j].0 == h;
        if h != kb {
          assert OrderedDict.HasKey(d1, h);
          var m :| 0 <= m < |d1| && d1[m].0 == h;
          assert d1[m].0 == ka || OrderedDict.HasKey(d0, h);
        }
      }
    }
  }

  lemma PlatformKeysDistinct()
    ensures "web" != "ios" && "web" != "android" && "ios" != "android"
  {
    assert "web"[0] == 'w' && "ios"[0] == 'i' && "android"[0] == 'a';
  }

  /** Each platform key is present exactly when its block was found, and
      then holds the stripped snippet; no other key appears. */
  lemma SnippetsKeys(web: Option<string>, ios: Option<string>, android: Option<string>)
    ensures var d := Snippets(web, ios, android);
            OrderedDict.Get(d, "web") == Stripped(web)
            && OrderedDict.Get(d, "ios") == Stripped(ios)
            && OrderedDict.Get(d, "android") == Stripped(android)
            && (forall i :: 0 <= i < |d| ==> d[i].0 in {"web", "ios", "android"})
            && OrderedDict.DistinctKeys(d) && |d| <= 3
  {
    PlatformKeysDistinct();
    PutEachKeys("web", Stripped(web), "ios", Stripped(ios), "android", Stripped(android));
  }

  /** The same, for the snippets of a section. */
  lemma DetailsKeys(text: string)
    ensures var d := Details(text);
            OrderedDict.Get(d, "web") == Stripped(Search(Labelled("Web"), text))
            && OrderedDict.Get(d, "ios") == Stripped(Search(Labelled("iOS"), text))
            && OrderedDict.Get(d, "android") == Stripped(Search(Labelled("Android"), text))
            && (forall i :: 0 <= i < |d| ==> d[i].0 in {"web", "ios", "android"})
  {
    SnippetsKeys(Search(Labelled("Web"), text), Search(Labelled("iOS"), text),
                 Search(Labelled("Android"), text));
  }

  /** `implementation_details or None` on the returned record: `None`
      exactly when no labelled block was found, and otherwise a dict whose
      only keys are web, ios and android, each holding its stripped snippet. */
  lemma DeveloperReportDetails(text: string)
    ensures var r := DeveloperReport(text);
            var web := Search(Labelled("Web"), text);
            var ios := Search(Labelled("iOS"), text);
            var android := Search(Labelled("Android"), text);
            (r.implementationDetails.None? <==> web.None? && ios.None? && android.None?)
            && (r.implementationDetails.Some? ==>
                  var d := r.implementationDetails.value;
                  OrderedDict.Get(d, "web") == Stripped(web)
                  && OrderedDict.Get(d, "ios") == Stripped(ios)
                  && OrderedDict.Get(d, "android") == Stripped(android)
                  && (forall i :: 0 <= i < |d| ==> d[i].0 in {"web", "ios", "android"}))
  {
    DetailsKeys(text);
  }

  /** A fenced block starting anywhere makes the scan find one. */
  lemma {:induction false} CodeBlocksFind(s: string, i: nat)
    requires i <= |s| && FenceAt(s[i..]).Some?
    ensures CodeBlocks(s) != []
    decreases i
  {
    if s == [] {
    } else if FenceAt(s).None? {
      assert i > 0 by { assert s[0..] == s; }
      assert s[1..][i - 1..] == s[i..];
      CodeBlocksFind(s[1..], i - 1);
    }
  }

  /** Where a labelled pattern matches, a fenced block starts after the
      label's whitespace. */
  lemma LabelledFenceAt(name: string, text: string, k: nat) returns (i: nat)
    requires k <= |text| && PatternAt(Labelled(name), text[k..]).Some?
    ensures i <= |text| && FenceAt(text[i..]).Some?
  {
    var s := text[k..];
    var w := SpaceRunEnd(s, |name| + 1);
    assert FenceAt(s[w..]).Some?;
    assert s[w..] == text[k + w..];
    i := k + w;
  }

  /** A labelled block is also a fenced block. */
  lemma LabelledIsBlock(text: string, name: string)
    requires Search(Labelled(name), text).Some?
    ensures CodeBlocks(text) != []
  {
    var k := SearchFrom(Labelled(name), text, 0).value;
    var i := LabelledFenceAt(name, text, k);
    CodeBlocksFind(text, i);
  }

  /** The fallback examples: when a labelled block is found, neither example
      is set; otherwise they are the first and second fenced blocks. A text
      with a fenced block therefore has snippets or a good example. */
  lemma ExamplesFallback(text: string)
    ensures var r := DeveloperReport(text);
            var blocks := CodeBlocks(text);
            (r.implementationDetails.Some? ==> r.goodExample.None? && r.badExample.None?)
            && (r.implementationDetails.None? ==>
                  r.goodExample == (if blocks != [] then Some(Strip(blocks[0])) else None)
                  && r.badExample == (if |blocks| > 1 then Some(Strip(blocks[1])) else None))
            && (blocks == [] ==> r.implementationDetails.None? && r.goodExample.None?)
  {
    DetailsKeys(text);
    var d := Details(text);
    if d != [] {
      assert d[0].0 in {"web", "ios", "android"};
      if d[0].0 == "web" {
        assert OrderedDict.HasKey(d, "web");
        LabelledIsBlock(text, "Web");
      } else if d[0].0 == "ios" {
        assert OrderedDict.HasKey(d, "ios");
        LabelledIsBlock(text, "iOS");
      } else {
        assert OrderedDict.HasKey(d, "android");
        LabelledIsBlock(text, "Android");
      }
    }
  }

  /** The testing steps are the simple list of the whole section, and the
      title never changes. */
  lemma DeveloperReportFixedParts(text: string)
    ensures DeveloperReport(text).title == "Developer Accessibility Report"
    ensures DeveloperReport(text).testingSteps == SectionParsers.SimpleList(text)
  {
  }

  /** An intent can only be found after the "**Intent:**" marker. */
  lemma {:induction false} IntentNeedsMarker(text: string)
    requires !Contains(text, "**Intent:**")
    ensures DeveloperReport(text).intent.None?
  {
    match SearchFrom(IntentMarker, text, 0)
    case None =>
    case Some(k) =>
      var s := text[k..];
      assert text[k..k + 11] == s[..11];
      assert OccursAt(text, "**Intent:**", k);
      assert false;
  }

  /** "**Intent:** " followed by a one-line stripped text opening the
      section gives that text as the intent. */
  lemma IntentLine(t: string, rest: string)
    requires t != [] && Trimmed(t) && NoNewline(t) && (rest == [] || rest[0] == '\n')
    ensures DeveloperReport("**Intent:** " + t + rest).intent == Some(t)
  {
    var s := "**Intent:** " + t + rest;
    assert s[..11] == "**Intent:**";
    assert s[12..12 + |t|] == t;
    SectionParsers.RestOfRendered(s, 11, t);
    SearchAtStart(IntentMarker, s);
    StripTrimmed(t);
  }

  /** "**Expected" followed by any words without a colon, then ":** " and a
      one-line stripped text, gives that text as the expected behaviour: the
      pattern serves "Expected Behavior" and "Expected vs Actual" alike. */
  lemma ExpectedLine(words: string, t: string, rest: string)
    requires forall j :: 0 <= j < |words| ==> words[j] != ':'
    requires t != [] && Trimmed(t) && NoNewline(t) && (rest == [] || rest[0] == '\n')
    ensures DeveloperReport("**Expected" + words + ":** " + t + rest).expectedBehavior == Some(t)
  {
    var s := "**Expected" + words + ":** " + t + rest;
    ExpectedAt(words, t, rest);
    SearchAtStart(ExpectedMarker, s);
    StripTrimmed(t);
  }

  /** The expected-behaviour pattern matches at the start of such a line,
      its group being the text after the marker. */
  lemma ExpectedAt(words: string, t: string, rest: string)
    requires forall j :: 0 <= j < |words| ==> words[j] != ':'
    requires t != [] && Trimmed(t) && NoNewline(t) && (rest == [] || rest[0] == '\n')
    ensures PatternAt(ExpectedMarker, "**Expected" + words + ":** " + t + rest) == Some(t)
  {
    var s := "**Expected" + words + ":** " + t + rest;
    var q := 10 + |words|;
    assert s[..10] == "**Expected";
    forall j | 10 <= j < q ensures s[j] != ':' { assert s[j] == words[j - 10]; }
    assert s[q] == ':';
    SectionParsers.CharFromIs(s, ':', 10, q);
    assert s[q..][..3] == ":**";
    assert s[q + 4..q + 4 + |t|] == t;
    SectionParsers.RestOfRendered(s, q + 3, t);
  }

  /** The text of one fenced block. */
  function Fence(lang: string, code: string): string {
    "```" + lang + "\n" + code + "```"
  }

  /** Code that a fence gives back: non-empty and free of backticks. */
  predicate FenceableCode(code: string) {
    code != [] && forall j :: 0 <= j < |code| ==> code[j] != '`'
  }

  predicate Letters(lang: string) {
    forall j :: 0 <= j < |lang| ==> IsAsciiLetter(lang[j])
  }

  /** A fence opening a text is matched with its code as the group. */
  lemma FenceMatch(lang: string, code: string, rest: string)
    requires Letters(lang) && FenceableCode(code)
    ensures FenceAt(Fence(lang, code) + rest) == Some((4 + |lang|, 4 + |lang| + |code|))
  {
    var s := Fence(lang, code) + rest;
    var l := 3 + |lang|;
    var e := l + 1 + |code|;
    assert s[..3] == "```";
    forall j | 3 <= j < l ensures IsAsciiLetter(s[j]) { assert s[j] == lang[j - 3]; }
    assert s[l] == '\n';
    LetterRunEndIs(s, 3, l);
    assert s[e..e + 3] == "```";
    forall j | l + 2 <= j < e ensures !OccursAt(s, "```", j) {
      assert s[j] == code[j - l - 1];
      assert s[j..j + 3][0] == s[j];
    }
    FindFromFirst(s, "```", l + 2, e);
  }

  lemma {:induction false} FindFromFirst(s: string, sub: string, i: nat, e: nat)
    requires i <= e <= |s| && OccursAt(s, sub, e)
    requires forall j :: i <= j < e ==> !OccursAt(s, sub, j)
    ensures FindFrom(s, sub, i) == Some(e)
    decreases e - i
  {
    if i < e {
      assert !OccursAt(s, sub, i);
      FindFromFirst(s, sub, i + 1, e);
    }
  }

  /** The group of a fence opening the text is its code. */
  lemma FenceGroup(lang: string, code: string, rest: string)
    requires Letters(lang) && FenceableCode(code)
    ensures var s := Fence(lang, code) + rest;
            s[4 + |lang|..4 + |lang| + |code|] == code && s[4 + |lang| + |code| + 3..] == rest
  {
  }

  /** A text that opens with a fence makes the scan take that block first
      and go on after it. */
  lemma CodeBlocksCons(lang: string, code: string, rest: string)
    requires Letters(lang) && FenceableCode(code)
    ensures CodeBlocks(Fence(lang, code) + rest) == [code] + CodeBlocks(rest)
  {
    FenceMatch(lang, code, rest);
    FenceGroup(lang, code, rest);
  }

  /** Blocks written one per line, without a language tag. */
  function Fences(codes: seq<string>): string {
    if codes == [] then ""
    else Fence("", codes[0]) + "\n" + Fences(codes[1..])
  }

  /** A line break between blocks is passed over. */
  lemma CodeBlocksNewline(rest: string)
    ensures CodeBlocks("\n" + rest) == CodeBlocks(rest)
  {
    var s := "\n" + rest;
    assert s[1..] == rest;
    assert FenceAt(s).None? by {
      if 3 <= |s| { assert s[..3][0] == '\n'; }
    }
  }

  /** The blocks of a text of fenced blocks are their codes, in order. */
  lemma {:induction false} CodeBlocksRoundTrip(codes: seq<string>)
    requires forall k :: 0 <= k < |codes| ==> FenceableCode(codes[k])
    ensures CodeBlocks(Fences(codes)) == codes
  {
    if codes != [] {
      var rest := Fences(codes[1..]);
      assert Fences(codes) == Fence("", codes[0]) + ("\n" + rest);
      CodeBlocksCons("", codes[0], "\n" + rest);
      CodeBlocksNewline(rest);
      CodeBlocksRoundTrip(codes[1..]);
    }
  }

  /** Two unlabelled blocks become the good and the bad example. */
  lemma ExamplesOfTwoBlocks(good: string, bad: string)
    requires FenceableCode(good) && FenceableCode(bad)
    requires Details(Fences([good, bad])) == []
    ensures DeveloperReport(Fences([good, bad])).goodExample == Some(Strip(good))
    ensures DeveloperReport(Fences([good, bad])).badExample == Some(Strip(bad))
  {
    CodeBlocksRoundTrip([good, bad]);
  }

  /** "Web:", whitespace and a fence opening the text give the web snippet. */
  lemma LabelledFence(name: string, ws: string, lang: string, code: string, rest: string)
    requires AllSpace(ws) && Letters(lang) && FenceableCode(code)
    ensures PatternAt(Labelled(name), name + ":" + ws + Fence(lang, code) + rest) == Some(code)
  {
    var head := name + ":" + ws;
    var s := head + Fence(lang, code) + rest;
    assert s[..|name| + 1] == name + ":";
    var w := |name| + 1 + |ws|;
    forall j | |name| + 1 <= j < w ensures IsSpace(s[j]) { assert s[j] == ws[j - |name| - 1]; }
    assert s[w] == '`';
    SpaceRunEndIs(s, |name| + 1, w);
    assert s[w..] == Fence(lang, code) + rest;
    FenceMatch(lang, code, rest);
    FenceGroup(lang, code, rest);
  }
}
