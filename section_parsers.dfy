/** The Markdown section parsers of the report generator. Each regular
    expression of the source is written out as a scanner that follows the
    backtracking matcher: greedy classes give back characters one at a time,
    lazy groups stop at the first place the rest can match. */
module SectionParsers {
  import opened Wrappers
  import opened Text
  import opened Json
  import OrderedDict
  import opened ReportSchema

  // ---------------------------------------------------------------------
  // Scanning helpers
  // ---------------------------------------------------------------------

  /** Index of the first `c` at or after `i`, or `|s|`: where `.+` stops
      at a newline and `[^:]*` at a colon. */
  function CharFrom(s: string, i: nat, c: char): (e: nat)
    requires i <= |s|
    ensures i <= e <= |s| && (e < |s| ==> s[e] == c)
    decreases |s| - i
  {
    if i == |s| || s[i] == c then i else CharFrom(s, i + 1, c)
  }

  /** No `c` lies between `i` and the position found. */
  lemma {:induction false} CharFromSpec(s: string, i: nat, c: char, j: int)
    requires i <= |s| && i <= j < CharFrom(s, i, c)
    ensures s[j] != c
    decreases |s| - i
  {
    if j > i { CharFromSpec(s, i + 1, c, j); }
  }

  lemma {:induction false} CharFromIs(s: string, c: char, i: nat, n: nat)
    requires i <= n <= |s| && (n == |s| || s[n] == c)
    requires forall j :: i <= j < n ==> s[j] != c
    ensures CharFrom(s, i, c) == n
    decreases n - i
  {
    if i < n { CharFromIs(s, c, i + 1, n); }
  }

  /** End of the run of ASCII digits starting at `i` (`\d+`). */
  function DigitRunEnd(s: string, i: nat): (e: nat)
    requires i <= |s|
    ensures i <= e <= |s|
    decreases |s| - i
  {
    if i < |s| && IsAsciiDigit(s[i]) then DigitRunEnd(s, i + 1) else i
  }

  /** The last position in `[p, q)` that is not '\n'. */
  function LastNonNewline(s: string, p: nat, q: nat): (r: Option<nat>)
    requires p <= q <= |s|
    ensures r.Some? ==> p <= r.value < q && s[r.value] != '\n'
    ensures r.Some? && r.value + 1 < q ==> s[r.value + 1] == '\n'
    decreases q
  {
    if q == p then None
    else if s[q - 1] != '\n' then Some(q - 1)
    else LastNonNewline(s, p, q - 1)
  }

  /** The tail `\s*(.+)$` (no DOTALL) matched from `p`: the bounds of the
      group `(.+)`. `\s*` first takes the whole whitespace run, which may
      cross newlines; when the text ends inside that run, it gives back
      characters until `.+` can take one that is not a newline. */
  function RestOfLine(s: string, p: nat): (r: Option<(nat, nat)>)
    requires p <= |s|
    ensures r.Some? ==> p <= r.value.0 < r.value.1 <= |s|
    ensures r.Some? && r.value.1 < |s| ==> s[r.value.1] == '\n'
  {
    var q := p + LeadingSpace(s[p..]);
    if q < |s| then
      assert s[q] == s[p..][q - p];
      LeadingSpaceSpec(s[p..]);
      Some((q, CharFrom(s, q, '\n')))
    else
      match LastNonNewline(s, p, q)
      case None => None
      case Some(k) => Some((k, k + 1))
  }

  // ---------------------------------------------------------------------
  // _parse_checklist_from_section
  //   ^(?:- \[([ xX])\]\s*|(\d+)\.\s*)(.+)$   with re.MULTILINE
  // ---------------------------------------------------------------------

  /** One match at the start of `s`: the item and where the match ends. */
  datatype Hit = Hit(item: ChecklistItem, end: nat)

  predicate IsBox(c: char) { c == ' ' || c == 'x' || c == 'X' }

  /** The text opens with a box marker `- [ ]`, `- [x]` or `- [X]`. */
  predicate BoxAt(s: string) {
    |s| >= 5 && s[0] == '-' && s[1] == ' ' && s[2] == '[' && IsBox(s[3]) && s[4] == ']'
  }

  /** The match of the checklist pattern at the start of `s`, if any. */
  function ChecklistMatch(s: string): (r: Option<Hit>)
    ensures r.Some? ==> 0 < r.value.end <= |s|
  {
    if BoxAt(s) then
      match RestOfLine(s, 5)
      case None => None
      case Some(g) => Some(Hit(ChecklistItem(Strip(s[g.0..g.1]), s[3] == 'x' || s[3] == 'X'), g.1))
    else
      var d := DigitRunEnd(s, 0);
      if 0 < d < |s| && s[d] == '.' then
        match RestOfLine(s, d + 1)
        case None => None
        case Some(g) => Some(Hit(ChecklistItem(Strip(s[g.0..g.1]), false), g.1))
      else None
  }

  /** A match ends at a newline or at the end of the text. */
  lemma ChecklistMatchEnd(s: string)
    requires ChecklistMatch(s).Some?
    ensures ChecklistMatch(s).value.end < |s| ==> s[ChecklistMatch(s).value.end] == '\n'
  {
  }

  /** Where the line-start search over `s` stops for its first line: at the
      end of the match, or at the end of the line when nothing matches. */
  function LineStop(s: string): (e: nat)
    ensures e <= |s|
  {
    match ChecklistMatch(s)
    case Some(h) => h.end
    case None => CharFrom(s, 0, '\n')
  }

  /** The item the first line start of `s` contributes. */
  function FirstItem(s: string): seq<ChecklistItem> {
    match ChecklistMatch(s)
    case Some(h) => [h.item]
    case None => []
  }

  /** `re.finditer` over the line starts of `s`: a match is tried where a line
      starts, and after a match or a failed line the search goes on at the
      next line start. */
  function Checklist(s: string): seq<ChecklistItem>
    decreases |s|
  {
    if s == [] then []
    else
      var e := LineStop(s);
      FirstItem(s) + (if e < |s| then Checklist(s[e + 1..]) else [])
  }

  lemma ChecklistStep(text: string, i: nat)
    requires i < |text|
    ensures var e := LineStop(text[i..]);
            Checklist(text[i..]) == FirstItem(text[i..]) + (if e < |text| - i then Checklist(text[i + e + 1..]) else [])
  {
    var e := LineStop(text[i..]);
    if e < |text| - i { assert text[i..][e + 1..] == text[i + e + 1..]; }
  }

  /** `_parse_checklist_from_section(text)`: the matches in text order. */
  method ParseChecklist(text: string) returns (items: seq<ChecklistItem>)
    ensures items == Checklist(text)
  {
    items := [];
    if text == "" {
      return;
    }
    var i := 0;
    while i < |text|
      invariant 0 <= i <= |text|
      invariant items + Checklist(text[i..]) == Checklist(text)
      decreases |text| - i
    {
      var rest := text[i..];
      ChecklistStep(text, i);
      var e := LineStop(rest);
      var next := if e < |rest| then i + e + 1 else |text|;
      AppendAssoc(items, FirstItem(rest), Checklist(text[next..]));
      items := items + FirstItem(rest);
      i := next;
    }
  }

  /** An item is done exactly when its box holds `x` or `X`; numbered items
      are never done. */
  lemma ChecklistDone(s: string)
    requires ChecklistMatch(s).Some?
    ensures ChecklistMatch(s).value.item.done <==> BoxAt(s) && (s[3] == 'x' || s[3] == 'X')
    ensures IsAsciiDigit(s[0]) ==> !ChecklistMatch(s).value.item.done
  {
  }

  /** A line that opens with whitespace never matches: the pattern is
      anchored at the line start. */
  lemma ChecklistIndented(s: string)
    requires s != [] && IsSpace(s[0])
    ensures ChecklistMatch(s).None?
  {
  }

  /** The text of every item is stripped. */
  lemma ChecklistTrimmed(s: string)
    requires ChecklistMatch(s).Some?
    ensures Trimmed(ChecklistMatch(s).value.item.text)
  {
    var h := RestOfLine(s, if BoxAt(s) then 5 else DigitRunEnd(s, 0) + 1);
    StripSpec(s[h.value.0..h.value.1]);
  }

  /** Every item of the whole checklist has a stripped text. */
  lemma {:induction false} ChecklistAllTrimmed(s: string)
    ensures forall k :: 0 <= k < |Checklist(s)| ==> Trimmed(Checklist(s)[k].text)
    decreases |s|
  {
    if s != [] {
      var e := LineStop(s);
      var first := FirstItem(s);
      var rest := if e < |s| then Checklist(s[e + 1..]) else [];
      assert Checklist(s) == first + rest;
      if ChecklistMatch(s).Some? { ChecklistTrimmed(s); }
      assert forall k :: 0 <= k < |first| ==> Trimmed(first[k].text);
      if e < |s| { ChecklistAllTrimmed(s[e + 1..]); }
      forall k | 0 <= k < |Checklist(s)| ensures Trimmed(Checklist(s)[k].text) {
        if k >= |first| { assert Checklist(s)[k] == rest[k - |first|]; }
      }
    }
  }

  /** The line a checklist item is written as. */
  function RenderItem(it: ChecklistItem): string {
    (if it.done then "- [x] " else "- [ ] ") + it.text
  }

  /** Items that a line renders faithfully: non-empty, stripped, one line. */
  predicate Renderable(it: ChecklistItem) {
    it.text != [] && Trimmed(it.text) && NoNewline(it.text)
  }

  /** After a space, a stripped one-line text ends the line. */
  lemma RestOfRendered(s: string, p: nat, t: string)
    requires t != [] && Trimmed(t) && NoNewline(t)
    requires p < |s| && s[p] == ' ' && p + 1 + |t| <= |s| && s[p + 1..p + 1 + |t|] == t
    requires p + 1 + |t| == |s| || s[p + 1 + |t|] == '\n'
    ensures RestOfLine(s, p) == Some((p + 1, p + 1 + |t|))
  {
    assert LeadingSpace(s[p..]) == 1 by {
      assert s[p..][0] == ' ';
      assert s[p..][1..][0] == t[0];
    }
    forall j | p + 1 <= j < p + 1 + |t| ensures s[j] != '\n' { assert s[j] == t[j - p - 1]; }
    CharFromIs(s, '\n', p + 1, p + 1 + |t|);
  }

  /** A rendered item, followed by the end of the text or a newline, is
      matched back whole. */
  lemma MatchRendered(it: ChecklistItem, rest: string)
    requires Renderable(it) && (rest == [] || rest[0] == '\n')
    ensures ChecklistMatch(RenderItem(it) + rest) == Some(Hit(it, |RenderItem(it)|))
  {
    var s := RenderItem(it) + rest;
    var t := it.text;
    assert s == (if it.done then "- [x]" else "- [ ]") + " " + t + rest;
    assert BoxAt(s);
    assert s[6..6 + |t|] == t;
    RestOfRendered(s, 5, t);
    StripTrimmed(t);
  }

  /** Rendered items, one per line. */
  function Render(items: seq<ChecklistItem>): string {
    if items == [] then ""
    else if |items| == 1 then RenderItem(items[0])
    else RenderItem(items[0]) + "\n" + Render(items[1..])
  }

  lemma ChecklistCons(it: ChecklistItem, b: string)
    requires Renderable(it)
    ensures Checklist(RenderItem(it) + "\n" + b) == [it] + Checklist(b)
  {
    var s := RenderItem(it) + "\n" + b;
    MatchRendered(it, "\n" + b);
    assert s == RenderItem(it) + ("\n" + b);
    assert s[|RenderItem(it)| + 1..] == b;
  }

  /** Rendered items parse back to the same items. */
  lemma {:induction false} ChecklistRoundTrip(items: seq<ChecklistItem>)
    requires forall k :: 0 <= k < |items| ==> Renderable(items[k])
    ensures Checklist(Render(items)) == items
  {
    if |items| == 1 {
      MatchRendered(items[0], []);
      assert RenderItem(items[0]) + [] == RenderItem(items[0]);
    } else if |items| > 1 {
      ChecklistRoundTrip(items[1..]);
      ChecklistCons(items[0], Render(items[1..]));
    }
  }

  lemma RenderTwo(x: string, y: string)
    ensures "- [x] " + x + "\n- [ ] " + y == Render([ChecklistItem(x, true), ChecklistItem(y, false)])
  {
    var items := [ChecklistItem(x, true), ChecklistItem(y, false)];
    assert items[1..] == [ChecklistItem(y, false)];
    assert "- [x] " + x + "\n- [ ] " + y == ("- [x] " + x) + "\n" + ("- [ ] " + y);
  }

  /** The example of two boxes, one ticked: `"- [x] Do A\n- [ ] Do B"`. */
  lemma ChecklistExample(x: string, y: string)
    requires x == "Do A" && y == "Do B"
    ensures Checklist("- [x] " + x + "\n- [ ] " + y) == [ChecklistItem(x, true), ChecklistItem(y, false)]
  {
    var items := [ChecklistItem(x, true), ChecklistItem(y, false)];
    assert Renderable(items[0]) && Renderable(items[1]);
    ChecklistRoundTrip(items);
    RenderTwo(x, y);
  }

  // ---------------------------------------------------------------------
  // Simple lists
  // ---------------------------------------------------------------------

  /** The characters `strip("-• ")` removes from both ends of a line. */
  const BulletChars: set<char> := {'-', '•', ' '}

  /** A line `_parse_simple_list` keeps: once stripped it opens with "-",
      "•", "*" or "1.". */
  predicate IsListLine(line: string) {
    var t := Strip(line);
    StartsWith(t, "-") || StartsWith(t, "•") || StartsWith(t, "*") || StartsWith(t, "1.")
  }

  /** What is kept of a list line: the bullet characters and then the
      whitespace around it are stripped. */
  function ListItem(line: string): string {
    Strip(StripChars(line, BulletChars))
  }

  /** The items of the list lines, in order. */
  function ListItems(lines: seq<string>): (r: seq<string>)
    ensures |r| <= |lines|
  {
    if lines == [] then []
    else
      var n := |lines| - 1;
      ListItems(lines[..n]) + (if IsListLine(lines[n]) then [ListItem(lines[n])] else [])
  }

  /** `_parse_simple_list(text)`. */
  function SimpleList(text: string): (r: seq<string>)
    ensures |r| <= |SplitLines(text)|
  {
    if text == "" then [] else ListItems(SplitLines(text))
  }

  /** The items of two runs of lines are the items of the first run followed
      by those of the second. */
  lemma {:induction false} ListItemsAppend(a: seq<string>, b: seq<string>)
    ensures ListItems(a + b) == ListItems(a) + ListItems(b)
    decreases |b|
  {
    if b == [] {
      assert a + b == a;
    } else {
      var n := |b| - 1;
      assert (a + b)[..|a + b| - 1] == a + b[..n];
      assert (a + b)[|a + b| - 1] == b[n];
      ListItemsAppend(a, b[..n]);
      var last := if IsListLine(b[n]) then [ListItem(b[n])] else [];
      AppendAssoc(ListItems(a), ListItems(b[..n]), last);
    }
  }

  /** One line gives its item exactly when it is a list line. */
  lemma ListItemsOne(line: string)
    ensures ListItems([line]) == if IsListLine(line) then [ListItem(line)] else []
  {
    assert [line][..0] == [];
  }

  /** Lines of which none is a list line give no items. */
  lemma {:induction false} ListItemsNone(lines: seq<string>)
    requires forall k :: 0 <= k < |lines| ==> !IsListLine(lines[k])
    ensures ListItems(lines) == []
  {
    if lines != [] {
      ListItemsNone(lines[..|lines| - 1]);
    }
  }

  /** Lines that are all list lines give one item each, in order. */
  lemma {:induction false} ListItemsAll(lines: seq<string>)
    requires forall k :: 0 <= k < |lines| ==> IsListLine(lines[k])
    ensures |ListItems(lines)| == |lines|
    ensures forall k :: 0 <= k < |lines| ==> ListItems(lines)[k] == ListItem(lines[k])
  {
    if lines != [] {
      var n := |lines| - 1;
      var p := lines[..n];
      ListItemsAll(p);
      assert ListItems(lines) == ListItems(p) + [ListItem(lines[n])];
      forall k | 0 <= k < n ensures ListItems(lines)[k] == ListItem(lines[k]) {
        assert ListItems(lines)[k] == ListItems(p)[k];
        assert p[k] == lines[k];
      }
    }
  }

  /** An item text that survives being written after a bullet: non-empty,
      stripped, on one line, and not opening or ending with a bullet
      character. */
  predicate Bulletable(t: string) {
    t != [] && Trimmed(t) && NoLineBreak(t) && t[0] !in BulletChars && t[|t| - 1] !in BulletChars
  }

  lemma StripCharsKeeps(t: string)
    requires t != [] && t[0] !in BulletChars && t[|t| - 1] !in BulletChars
    ensures StripChars(t, BulletChars) == t
  {
  }

  /** A "- " bullet is stripped off its item. */
  lemma DashBullet(t: string)
    requires Bulletable(t)
    ensures IsListLine("- " + t) && ListItem("- " + t) == t
  {
    var s := "- " + t;
    assert s[|s| - 1] == t[|t| - 1];
    StripTrimmed(s);
    assert s[1..][1..] == t;
    assert LStripChars(s, BulletChars) == LStripChars(t, BulletChars);
    StripCharsKeeps(t);
    StripTrimmed(t);
  }

  /** A "* " or "1. " marker is not among the stripped characters, so it
      stays in the item. */
  lemma OtherMarkersKept(t: string)
    requires Bulletable(t)
    ensures IsListLine("* " + t) && ListItem("* " + t) == "* " + t
    ensures IsListLine("1. " + t) && ListItem("1. " + t) == "1. " + t
  {
    var s := "* " + t;
    assert s[|s| - 1] == t[|t| - 1];
    StripTrimmed(s);
    StripCharsKeeps(s);
    var u := "1. " + t;
    assert u[|u| - 1] == t[|t| - 1];
    StripTrimmed(u);
    StripCharsKeeps(u);
  }

  lemma {:induction false} LStripCharsAll(s: string, cs: set<char>)
    requires forall j :: 0 <= j < |s| ==> s[j] in cs
    ensures LStripChars(s, cs) == []
  {
    if s != [] { LStripCharsAll(s[1..], cs); }
  }

  /** A Markdown rule `---` is a list line whose item is empty. */
  lemma RuleIsEmptyItem(line: string)
    requires line == "---"
    ensures SimpleList(line) == [""]
  {
    assert NoLineBreak(line);
    SplitLinesOne(line);
    ListItemsOne(line);
    assert Strip(line) == line by { StripTrimmed(line); }
    assert StartsWith(line, "-");
    LStripCharsAll(line, BulletChars);
  }

  /** Items written as "- " bullets, one per line. */
  function Bullets(ts: seq<string>): string {
    if ts == [] then ""
    else if |ts| == 1 then "- " + ts[0]
    else "- " + ts[0] + "\n" + Bullets(ts[1..])
  }

  lemma DashNoBreak(t: string)
    requires NoLineBreak(t)
    ensures NoLineBreak("- " + t)
  {
    var s := "- " + t;
    forall j | 2 <= j < |s| ensures !IsLineBreak(s[j]) { assert s[j] == t[j - 2]; }
  }

  lemma {:induction false} BulletLines(ts: seq<string>)
    requires forall k :: 0 <= k < |ts| ==> Bulletable(ts[k])
    ensures ListItems(SplitLines(Bullets(ts))) == ts
  {
    if ts != [] {
      var l := "- " + ts[0];
      DashNoBreak(ts[0]);
      DashBullet(ts[0]);
      ListItemsOne(l);
      if |ts| == 1 {
        SplitLinesOne(l);
      } else {
        BulletLines(ts[1..]);
        SplitLinesCons(l, Bullets(ts[1..]));
        ListItemsAppend([l], SplitLines(Bullets(ts[1..])));
      }
    }
  }

  /** Items written as a bullet list are read back. */
  lemma SimpleListRoundTrip(ts: seq<string>)
    requires forall k :: 0 <= k < |ts| ==> Bulletable(ts[k])
    ensures SimpleList(Bullets(ts)) == ts
  {
    BulletLines(ts);
  }

  /** Prose between the bullets is dropped. */
  lemma SimpleListSkipsProse(p: string, b: string)
    requires NoLineBreak(p) && !IsListLine(p)
    ensures SimpleList(p + "\n" + b) == SimpleList(b)
  {
    SplitLinesCons(p, b);
    ListItemsOne(p);
    ListItemsAppend([p], SplitLines(b));
  }
}
