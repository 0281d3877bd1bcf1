/** The parts of Python's `str` behaviour that the core relies on, over
    `string` (a sequence of Unicode scalar values). The functions carry only
    the bounds their callers need; what they mean is stated by the lemmas
    next to them. */
module Text {
  import opened Wrappers

  /** Python `str.isspace()`, which is also what the `\s` class of `re`
      matches in a `str` pattern. */
  predicate IsSpace(c: char) {
    c == ' ' || ('\t' <= c <= '\r') || ('\U{1c}' <= c <= '\U{1f}')
    || c == '\U{85}' || c == '\U{a0}' || c == '\U{1680}'
    || ('\U{2000}' <= c <= '\U{200a}') || c == '\U{2028}' || c == '\U{2029}'
    || c == '\U{202f}' || c == '\U{205f}' || c == '\U{3000}'
  }

  /** The characters at which Python's `str.splitlines()` ends a line. */
  predicate IsLineBreak(c: char) {
    c == '\n' || c == '\r' || c == '\U{0b}' || c == '\U{0c}'
    || ('\U{1c}' <= c <= '\U{1e}') || c == '\U{85}' || c == '\U{2028}' || c == '\U{2029}'
  }

  predicate IsAsciiDigit(c: char) { '0' <= c <= '9' }

  predicate IsAsciiLetter(c: char) { ('a' <= c <= 'z') || ('A' <= c <= 'Z') }

  predicate AllSpace(s: string) { forall i :: 0 <= i < |s| ==> IsSpace(s[i]) }

  predicate NoNewline(s: string) { forall i :: 0 <= i < |s| ==> s[i] != '\n' }

  /** No whitespace at either end: what `strip()` leaves. */
  predicate Trimmed(s: string) { s == [] || (!IsSpace(s[0]) && !IsSpace(s[|s| - 1])) }

  // ---------------------------------------------------------------------
  // strip, lstrip, rstrip
  // ---------------------------------------------------------------------

  /** Number of whitespace characters that open `s`. */
  function LeadingSpace(s: string): (n: nat)
    ensures n <= |s|
  {
    if s != [] && IsSpace(s[0]) then 1 + LeadingSpace(s[1..]) else 0
  }

  /** Number of whitespace characters that close `s`. */
  function TrailingSpace(s: string): (n: nat)
    ensures n <= |s|
  {
    if s != [] && IsSpace(s[|s| - 1]) then 1 + TrailingSpace(s[..|s| - 1]) else 0
  }

  lemma {:induction false} LeadingSpaceSpec(s: string)
    ensures AllSpace(s[..LeadingSpace(s)])
    ensures LeadingSpace(s) < |s| ==> !IsSpace(s[LeadingSpace(s)])
  {
    if s != [] && IsSpace(s[0]) {
      LeadingSpaceSpec(s[1..]);
      assert s[..LeadingSpace(s)] == [s[0]] + s[1..][..LeadingSpace(s[1..])];
    }
  }

  lemma {:induction false} TrailingSpaceSpec(s: string)
    ensures AllSpace(s[|s| - TrailingSpace(s)..])
    ensures TrailingSpace(s) < |s| ==> !IsSpace(s[|s| - TrailingSpace(s) - 1])
  {
    if s != [] && IsSpace(s[|s| - 1]) {
      var init := s[..|s| - 1];
      TrailingSpaceSpec(init);
      var m := TrailingSpace(init);
      assert TrailingSpace(s) == m + 1;
      assert s[|s| - TrailingSpace(s)..] == s[|init| - m..];
      assert s[|init| - m..] == init[|init| - m..] + [s[|s| - 1]];
    }
  }

  /** Python `s.lstrip()`. */
  function LStrip(s: string): string {
    s[LeadingSpace(s)..]
  }

  /** Python `s.rstrip()`. */
  function RStrip(s: string): string {
    s[..|s| - TrailingSpace(s)]
  }

  /** Python `s.strip()`. */
  function Strip(s: string): string {
    RStrip(LStrip(s))
  }

  /** The stripped text is the part of `s` between a whitespace prefix and a
      whitespace suffix, and it neither begins nor ends with whitespace. */
  lemma StripSpec(s: string)
    ensures LeadingSpace(s) + |Strip(s)| <= |s|
    ensures Strip(s) == s[LeadingSpace(s)..LeadingSpace(s) + |Strip(s)|]
    ensures AllSpace(s[..LeadingSpace(s)])
    ensures AllSpace(s[LeadingSpace(s) + |Strip(s)|..])
    ensures Trimmed(Strip(s))
  {
    var i := LeadingSpace(s);
    var l := s[i..];
    LeadingSpaceSpec(s);
    TrailingSpaceSpec(l);
    var r := Strip(s);
    assert s[i + |r|..] == l[|r|..];
  }

  /** `strip()` removes exactly the whitespace around a trimmed middle. */
  lemma StripAround(a: string, m: string, b: string)
    requires AllSpace(a) && AllSpace(b) && Trimmed(m)
    ensures Strip(a + m + b) == m
  {
    var s := a + m + b;
    StripSpec(s);
    var i := LeadingSpace(s);
    var r := Strip(s);
    if m != [] {
      assert s[|a|] == m[0];
      assert s[|a| + |m| - 1] == m[|m| - 1];
      assert i == |a|;
      assert |r| == |m|;
      assert s[|a|..|a| + |m|] == m;
    }
  }

  /** Stripping a text already stripped changes nothing. */
  lemma StripTrimmed(s: string)
    requires Trimmed(s)
    ensures Strip(s) == s
  {
    StripAround([], s, []);
    assert [] + s + [] == s;
  }

  lemma StripAllSpace(s: string)
    ensures Strip(s) == [] <==> AllSpace(s)
  {
    StripSpec(s);
    var i := LeadingSpace(s);
    if Strip(s) == [] {
      assert s == s[..i] + s[i..];
    } else {
      assert !IsSpace(s[i]);
    }
  }

  /** Every character of the stripped text is a character of the text. */
  lemma StripChar(s: string, k: nat)
    requires k < |Strip(s)|
    ensures Strip(s)[k] == s[LeadingSpace(s) + k]
  {
    StripSpec(s);
  }

  /** Stripping keeps a text free of newlines. */
  lemma StripNoNewline(s: string)
    requires NoNewline(s)
    ensures NoNewline(Strip(s))
  {
    forall k | 0 <= k < |Strip(s)| ensures Strip(s)[k] != '\n' {
      StripChar(s, k);
    }
  }

  /** Python `s.lstrip(chars)` for the character set `cs`. */
  function LStripChars(s: string, cs: set<char>): (r: string)
    ensures |r| <= |s|
  {
    if s != [] && s[0] in cs then LStripChars(s[1..], cs) else s
  }

  /** Python `s.rstrip(chars)`. */
  function RStripChars(s: string, cs: set<char>): (r: string)
    ensures |r| <= |s|
  {
    if s != [] && s[|s| - 1] in cs then RStripChars(s[..|s| - 1], cs) else s
  }

  /** Python `s.strip(chars)`. */
  function StripChars(s: string, cs: set<char>): string {
    RStripChars(LStripChars(s, cs), cs)
  }

  /** `lstrip(chars)` drops a prefix of characters from `cs` and stops at one
      that is not. */
  lemma {:induction false} LStripCharsSpec(s: string, cs: set<char>)
    ensures LStripChars(s, cs) == s[|s| - |LStripChars(s, cs)|..]
    ensures forall i :: 0 <= i < |s| - |LStripChars(s, cs)| ==> s[i] in cs
    ensures LStripChars(s, cs) != [] ==> LStripChars(s, cs)[0] !in cs
  {
    if s != [] && s[0] in cs {
      LStripCharsSpec(s[1..], cs);
    }
  }

  /** `rstrip(chars)` drops a suffix of characters from `cs` and stops at one
      that is not. */
  lemma {:induction false} RStripCharsSpec(s: string, cs: set<char>)
    ensures RStripChars(s, cs) == s[..|RStripChars(s, cs)|]
    ensures forall i :: |RStripChars(s, cs)| <= i < |s| ==> s[i] in cs
    ensures RStripChars(s, cs) != [] ==> RStripChars(s, cs)[|RStripChars(s, cs)| - 1] !in cs
  {
    if s != [] && s[|s| - 1] in cs {
      RStripCharsSpec(s[..|s| - 1], cs);
    }
  }

  // ---------------------------------------------------------------------
  // Searching
  // ---------------------------------------------------------------------

  predicate StartsWith(s: string, p: string) { |p| <= |s| && s[..|p|] == p }

  /** `sub` occurs in `s` at index `i`. */
  predicate OccursAt(s: string, sub: string, i: int) {
    0 <= i && i + |sub| <= |s| && s[i..i + |sub|] == sub
  }

  /** Python `sub in s`. */
  predicate Contains(s: string, sub: string) {
    exists i :: 0 <= i <= |s| && OccursAt(s, sub, i)
  }

  /** An occurrence inside a prefix is an occurrence in the whole text. */
  lemma OccursInPrefix(s: string, sub: string, n: nat, j: int)
    requires n <= |s| && OccursAt(s[..n], sub, j)
    ensures OccursAt(s, sub, j) && j + |sub| <= n
  {
    assert s[..n][j..j + |sub|] == s[j..j + |sub|];
  }

  /** Python `s.find(sub, i)`: the first occurrence at or after `i`. */
  function FindFrom(s: string, sub: string, i: nat): (r: Option<nat>)
    requires i <= |s|
    ensures r.Some? ==> i <= r.value && OccursAt(s, sub, r.value)
    decreases |s| - i
  {
    if i + |sub| > |s| then None
    else if s[i..i + |sub|] == sub then Some(i)
    else if i == |s| then None
    else FindFrom(s, sub, i + 1)
  }

  /** No occurrence lies between the starting point and the one found. */
  lemma {:induction false} FindFromMin(s: string, sub: string, i: nat, j: int)
    requires i <= |s| && i <= j
    requires FindFrom(s, sub, i).Some? ==> j < FindFrom(s, sub, i).value
    ensures !OccursAt(s, sub, j)
    decreases |s| - i
  {
    if i + |sub| > |s| {
    } else if s[i..i + |sub|] == sub {
    } else if i == |s| {
    } else if j > i {
      FindFromMin(s, sub, i + 1, j);
    }
  }

  /** Python `s.find(sub)`. */
  function Find(s: string, sub: string): (r: Option<nat>)
    ensures r.Some? ==> OccursAt(s, sub, r.value)
  {
    FindFrom(s, sub, 0)
  }

  /** The occurrence found is the first one. */
  lemma FindMin(s: string, sub: string, j: int)
    requires 0 <= j && (Find(s, sub).Some? ==> j < Find(s, sub).value)
    ensures !OccursAt(s, sub, j)
  {
    FindFromMin(s, sub, 0, j);
  }

  /** `find` fails exactly when the text does not contain `sub`. */
  lemma FindNone(s: string, sub: string)
    ensures Find(s, sub).None? <==> !Contains(s, sub)
  {
    if Find(s, sub).None? {
      forall j | 0 <= j <= |s| ensures !OccursAt(s, sub, j) {
        FindMin(s, sub, j);
      }
    }
  }

  /** An occurrence with none before it is the one `find` returns. */
  lemma FindIs(s: string, sub: string, k: nat)
    requires OccursAt(s, sub, k)
    requires forall j :: 0 <= j < k ==> !OccursAt(s, sub, j)
    ensures Find(s, sub) == Some(k)
  {
    match Find(s, sub)
    case None => FindMin(s, sub, k);
    case Some(i) =>
      if i > k { FindMin(s, sub, k); }
  }

  /** Python `s.rfind(c)` for a single character `c`. */
  function RFindChar(s: string, c: char): (r: Option<nat>)
    ensures r.Some? ==> r.value < |s| && s[r.value] == c
    ensures r.Some? ==> forall j :: r.value < j < |s| ==> s[j] != c
    ensures r.None? <==> forall j :: 0 <= j < |s| ==> s[j] != c
  {
    if s == [] then None
    else if s[|s| - 1] == c then Some(|s| - 1)
    else RFindChar(s[..|s| - 1], c)
  }

  // ---------------------------------------------------------------------
  // split and join
  // ---------------------------------------------------------------------

  /** The text before the first occurrence of `sep`, or all of `s`. */
  function Before(s: string, sep: string): string {
    match Find(s, sep)
    case None => s
    case Some(i) => s[..i]
  }

  /** The text after the first occurrence of `sep`, or nothing. */
  function After(s: string, sep: string): string {
    match Find(s, sep)
    case None => ""
    case Some(i) => s[i + |sep|..]
  }

  /** The text before a separator's first occurrence holds no copy of it. */
  lemma BeforeLacks(s: string, sep: string)
    requires sep != []
    ensures !Contains(Before(s, sep), sep)
  {
    match Find(s, sep)
    case None => FindNone(s, sep);
    case Some(i) =>
      forall j | 0 <= j <= i && OccursAt(s[..i], sep, j) ensures false {
        OccursInPrefix(s, sep, i, j);
        FindMin(s, sep, j);
      }
  }

  /** Python `s.split(sep)` for a non-empty separator. */
  function Split(s: string, sep: string): (r: seq<string>)
    requires sep != []
    ensures |r| >= 1 && r[0] == Before(s, sep)
    decreases |s|
  {
    match Find(s, sep)
    case None => [s]
    case Some(i) => [s[..i]] + Split(s[i + |sep|..], sep)
  }

  /** The second piece of a split is the text between the first and the
      second occurrence of the separator. */
  lemma SplitSecond(s: string, sep: string)
    requires sep != [] && Contains(s, sep)
    ensures |Split(s, sep)| >= 2 && Split(s, sep)[1] == Before(After(s, sep), sep)
  {
    FindNone(s, sep);
  }

  /** No piece of a split holds the separator. */
  lemma {:induction false} SplitLacks(s: string, sep: string, k: nat)
    requires sep != [] && k < |Split(s, sep)|
    ensures !Contains(Split(s, sep)[k], sep)
    decreases |s|
  {
    match Find(s, sep)
    case None => FindNone(s, sep);
    case Some(i) =>
      if k == 0 { BeforeLacks(s, sep); } else { SplitLacks(s[i + |sep|..], sep, k - 1); }
  }

  /** Python `sep.join(xs)`. */
  function Join(sep: string, xs: seq<string>): string {
    if xs == [] then "" else if |xs| == 1 then xs[0] else xs[0] + sep + Join(sep, xs[1..])
  }

  /** Splitting on a separator and joining back with it gives the input back. */
  lemma {:induction false} JoinSplit(s: string, sep: string)
    requires sep != []
    ensures Join(sep, Split(s, sep)) == s
    decreases |s|
  {
    match Find(s, sep)
    case None =>
    case Some(i) =>
      var rest := s[i + |sep|..];
      var tail := Split(rest, sep);
      JoinSplit(rest, sep);
      assert Split(s, sep) == [s[..i]] + tail;
      assert Join(sep, [s[..i]] + tail) == s[..i] + sep + Join(sep, tail);
      assert s == s[..i] + sep + rest;
  }

  /** Splitting at a one-character separator undoes joining with it, when
      no piece holds that character. */
  lemma {:induction false} SplitJoinChar(xs: seq<string>, c: char)
    requires |xs| >= 1
    requires forall k, j :: 0 <= k < |xs| && 0 <= j < |xs[k]| ==> xs[k][j] != c
    ensures Split(Join([c], xs), [c]) == xs
  {
    var s := Join([c], xs);
    var x := xs[0];
    if |xs| == 1 {
      forall j | 0 <= j <= |s| ensures !OccursAt(s, [c], j) {
        if j < |s| { assert s[j..j + 1][0] == s[j]; }
      }
      FindNone(s, [c]);
    } else {
      var rest := Join([c], xs[1..]);
      assert s == x + [c] + rest;
      assert OccursAt(s, [c], |x|) by { assert s[|x|..|x| + 1] == [c]; }
      forall j | 0 <= j < |x| ensures !OccursAt(s, [c], j) {
        assert s[j..j + 1][0] == s[j] == x[j];
      }
      FindIs(s, [c], |x|);
      assert s[..|x|] == x;
      assert s[|x| + 1..] == rest;
      SplitJoinChar(xs[1..], c);
    }
  }

  /** A character that is neither in the separator nor in any piece is not
      in their join. */
  lemma {:induction false} JoinLacks(sep: string, xs: seq<string>, c: char)
    requires forall j :: 0 <= j < |sep| ==> sep[j] != c
    requires forall k, j :: 0 <= k < |xs| && 0 <= j < |xs[k]| ==> xs[k][j] != c
    ensures forall j :: 0 <= j < |Join(sep, xs)| ==> Join(sep, xs)[j] != c
  {
    if |xs| > 1 {
      JoinLacks(sep, xs[1..], c);
      var s := Join(sep, xs);
      var r := Join(sep, xs[1..]);
      assert s == xs[0] + sep + r;
      forall j | 0 <= j < |s| ensures s[j] != c {
        if j < |xs[0]| { assert s[j] == xs[0][j]; }
        else if j < |xs[0]| + |sep| { assert s[j] == sep[j - |xs[0]|]; }
        else { assert s[j] == r[j - |xs[0]| - |sep|]; }
      }
    }
  }

  /** Joining lines without line breaks by a separator without line breaks
      gives one line. */
  lemma {:induction false} JoinNoBreak(sep: string, xs: seq<string>)
    requires forall j :: 0 <= j < |sep| ==> !IsLineBreak(sep[j])
    requires forall k, j :: 0 <= k < |xs| && 0 <= j < |xs[k]| ==> !IsLineBreak(xs[k][j])
    ensures forall j :: 0 <= j < |Join(sep, xs)| ==> !IsLineBreak(Join(sep, xs)[j])
  {
    if |xs| > 1 {
      JoinNoBreak(sep, xs[1..]);
      var s := Join(sep, xs);
      var r := Join(sep, xs[1..]);
      assert s == xs[0] + sep + r;
      forall j | 0 <= j < |s| ensures !IsLineBreak(s[j]) {
        if j < |xs[0]| { assert s[j] == xs[0][j]; }
        else if j < |xs[0]| + |sep| { assert s[j] == sep[j - |xs[0]|]; }
        else { assert s[j] == r[j - |xs[0]| - |sep|]; }
      }
    }
  }

  /** A text found inside the stripped text is found in the text. */
  lemma ContainsStrip(s: string, sub: string)
    requires Contains(Strip(s), sub)
    ensures Contains(s, sub)
  {
    StripSpec(s);
    var t := Strip(s);
    var i := LeadingSpace(s);
    var j :| 0 <= j <= |t| && OccursAt(t, sub, j);
    assert s[i + j..i + j + |sub|] == t[j..j + |sub|];
    assert OccursAt(s, sub, i + j);
  }

  /** Python `s.split(sep, 1)`. */
  function SplitOnce(s: string, sep: string): (r: seq<string>)
    ensures 1 <= |r| <= 2 && r[0] == Before(s, sep)
    ensures |r| == 2 <==> Find(s, sep).Some?
    ensures |r| == 2 ==> r[1] == After(s, sep)
  {
    if Find(s, sep).Some? then [Before(s, sep), After(s, sep)] else [s]
  }

  /** A text without the one-character string "\n" has no newline. */
  lemma NoNewlineIfLacks(s: string)
    requires !Contains(s, "\n")
    ensures NoNewline(s)
  {
    forall i | 0 <= i < |s| ensures s[i] != '\n' {
      assert !OccursAt(s, "\n", i);
      assert s[i..i + 1] == [s[i]];
    }
  }

  // ---------------------------------------------------------------------
  // Lines
  // ---------------------------------------------------------------------

  /** Index of the first line break at or after `i`, or `|s|`. */
  function LineEnd(s: string, i: nat): (e: nat)
    requires i <= |s|
    ensures i <= e <= |s| && (e < |s| ==> IsLineBreak(s[e]))
    decreases |s| - i
  {
    if i == |s| || IsLineBreak(s[i]) then i else LineEnd(s, i + 1)
  }

  lemma {:induction false} LineEndSpec(s: string, i: nat, j: int)
    requires i <= |s| && i <= j < LineEnd(s, i)
    ensures !IsLineBreak(s[j])
    decreases |s| - i
  {
    if j > i { LineEndSpec(s, i + 1, j); }
  }

  /** Where the line that ends at `e` lets the next one start: "\r\n" is one
      line break. */
  function NextLine(s: string, e: nat): (n: nat)
    requires e < |s|
    ensures e < n <= |s|
  {
    if s[e] == '\r' && e + 1 < |s| && s[e + 1] == '\n' then e + 2 else e + 1
  }

  /** Python `s.splitlines()`: a final line break does not open an empty
      line. */
  function SplitLines(s: string): (r: seq<string>)
    decreases |s|
  {
    if s == [] then []
    else
      var e := LineEnd(s, 0);
      if e == |s| then [s] else [s[..e]] + SplitLines(s[NextLine(s, e)..])
  }

  /** No line holds a line break. */
  lemma {:induction false} SplitLinesNoBreak(s: string, k: nat, j: nat)
    requires k < |SplitLines(s)| && j < |SplitLines(s)[k]|
    ensures !IsLineBreak(SplitLines(s)[k][j])
    decreases |s|
  {
    var e := LineEnd(s, 0);
    if k == 0 {
      LineEndSpec(s, 0, j);
    } else {
      SplitLinesNoBreak(s[NextLine(s, e)..], k - 1, j);
    }
  }

  predicate NoLineBreak(s: string) { forall i :: 0 <= i < |s| ==> !IsLineBreak(s[i]) }

  lemma {:induction false} LineEndNoBreak(s: string, i: nat, n: nat)
    requires i <= n <= |s| && (n == |s| || IsLineBreak(s[n]))
    requires forall j :: i <= j < n ==> !IsLineBreak(s[j])
    ensures LineEnd(s, i) == n
    decreases n - i
  {
    if i < n { LineEndNoBreak(s, i + 1, n); }
  }

  /** A line without line breaks followed by "\n" is the first line. */
  lemma SplitLinesCons(a: string, b: string)
    requires NoLineBreak(a)
    ensures SplitLines(a + "\n" + b) == [a] + SplitLines(b)
  {
    var s := a + "\n" + b;
    forall j | 0 <= j < |a| ensures !IsLineBreak(s[j]) { assert s[j] == a[j]; }
    LineEndNoBreak(s, 0, |a|);
    assert s[..|a|] == a;
    assert s[|a| + 1..] == b;
  }

  /** A non-empty text without line breaks is one line. */
  lemma SplitLinesOne(a: string)
    requires a != [] && NoLineBreak(a)
    ensures SplitLines(a) == [a]
  {
    LineEndNoBreak(a, 0, |a|);
  }

  /** Joining non-empty lines without line breaks and splitting again gives
      the lines back. */
  lemma {:induction false} SplitLinesJoin(xs: seq<string>)
    requires forall k :: 0 <= k < |xs| ==> xs[k] != [] && NoLineBreak(xs[k])
    ensures SplitLines(Join("\n", xs)) == xs
  {
    if |xs| == 1 {
      SplitLinesOne(xs[0]);
    } else if |xs| > 1 {
      SplitLinesJoin(xs[1..]);
      SplitLinesCons(xs[0], Join("\n", xs[1..]));
      assert Join("\n", xs) == xs[0] + "\n" + Join("\n", xs[1..]);
    }
  }

  // ---------------------------------------------------------------------
  // Case, slicing, replacing, numbers
  // ---------------------------------------------------------------------

  /** ASCII lowercasing, one character. */
  function LowerChar(c: char): (d: char)
    ensures 'A' <= c <= 'Z' ==> d as int == c as int + 32
    ensures !('A' <= c <= 'Z') ==> d == c
  {
    if 'A' <= c <= 'Z' then (c as int + 32) as char else c
  }

  /** `s.lower()` on ASCII letters. */
  function Lower(s: string): (r: string)
    ensures |r| == |s|
  {
    seq(|s|, i requires 0 <= i < |s| => LowerChar(s[i]))
  }

  /** Python `s[:n]`. */
  function Take(s: string, n: nat): (r: string)
    ensures |r| <= n && StartsWith(s, r)
    ensures |s| <= n ==> r == s
    ensures |s| > n ==> |r| == n
  {
    if |s| <= n then s else s[..n]
  }

  /** Python `s.replace("\r\n", "\n")`: left to right, non-overlapping. */
  function ReplaceCrlf(s: string): (r: string)
    ensures |r| <= |s|
  {
    if |s| >= 2 && s[0] == '\r' && s[1] == '\n' then "\n" + ReplaceCrlf(s[2..])
    else if s == [] then []
    else [s[0]] + ReplaceCrlf(s[1..])
  }

  /** Decimal text of an integer, as Python's `str(int)`. */
  function NatToString(n: nat): (r: string)
    ensures |r| >= 1
  {
    var d := ['0' + (n % 10) as char];
    if n < 10 then d else NatToString(n / 10) + d
  }

  function IntToString(i: int): string {
    if i < 0 then "-" + NatToString(-i) else NatToString(i)
  }
}
