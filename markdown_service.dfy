/** The file names of the Markdown download: `sanitize_filename` keeps only
    ASCII word characters and turns each run of hyphens and whitespace into
    one underscore; `default_md_filename` assembles ticket, title and
    timestamp. NFKD normalisation is the parameter `nfkd`, and the timestamp
    (`%Y%m%dT%H%M%SZ` of the current UTC time) is the parameter `timestamp`. */
module MarkdownService {
  import opened Text

  const MaxLength: nat := 200
  const DefaultName: string := "report"

  /** `\w` once only ASCII is left: letters, digits and the underscore. */
  predicate IsWordChar(c: char) { IsAsciiLetter(c) || IsAsciiDigit(c) || c == '_' }

  /** The class `[-\s]`. */
  predicate IsDash(c: char) { c == '-' || IsSpace(c) }

  predicate IsAscii(s: string) { forall i :: 0 <= i < |s| ==> s[i] as int < 128 }

  /** NFKD leaves ASCII text as it is. */
  ghost predicate KeepsAscii(nfkd: string -> string) {
    forall s :: IsAscii(s) ==> nfkd(s) == s
  }

  /** `s.encode("ascii", "ignore").decode("ascii")`. */
  function DropNonAscii(s: string): (r: string)
    ensures |r| <= |s|
  {
    if s == [] then [] else (if s[0] as int < 128 then [s[0]] else []) + DropNonAscii(s[1..])
  }

  /** `re.sub(r"[^\w\s-]", "", s)`. */
  function KeepAllowed(s: string): (r: string)
    ensures |r| <= |s|
  {
    if s == [] then []
    else (if IsWordChar(s[0]) || IsSpace(s[0]) || s[0] == '-' then [s[0]] else []) + KeepAllowed(s[1..])
  }

  /** Length of the run of hyphens and whitespace opening `s`. */
  function DashRun(s: string): (n: nat)
    ensures n <= |s|
  {
    if s != [] && IsDash(s[0]) then 1 + DashRun(s[1..]) else 0
  }

  /** `re.sub(r"[-\s]+", "_", s)`. */
  function Underscore(s: string): (r: string)
    decreases |s|
  {
    if s == [] then []
    else if IsDash(s[0]) then "_" + Underscore(s[DashRun(s)..])
    else [s[0]] + Underscore(s[1..])
  }

  /** `sanitize_filename(name)`; an empty name stands for "report". */
  function SanitizeFilename(name: string, nfkd: string -> string): (r: string)
    ensures |r| <= MaxLength
  {
    var n := if name == "" then DefaultName else name;
    Take(Underscore(Strip(KeepAllowed(DropNonAscii(nfkd(n))))), MaxLength)
  }

  predicate AllWordChars(s: string) { forall i :: 0 <= i < |s| ==> IsWordChar(s[i]) }

  lemma {:induction false} KeepAllowedSpec(s: string)
    requires IsAscii(s)
    ensures forall i :: 0 <= i < |KeepAllowed(s)| ==>
              IsWordChar(KeepAllowed(s)[i]) || IsDash(KeepAllowed(s)[i])
  {
    if s != [] {
      assert IsAscii(s[1..]) by {
        forall i | 0 <= i < |s[1..]| ensures s[1..][i] as int < 128 { assert s[1..][i] == s[i + 1]; }
      }
      KeepAllowedSpec(s[1..]);
    }
  }

  lemma {:induction false} DropNonAsciiSpec(s: string)
    ensures IsAscii(DropNonAscii(s))
  {
    if s != [] { DropNonAsciiSpec(s[1..]); }
  }

  /** With every hyphen and whitespace character replaced, only word
      characters are left. */
  lemma {:induction false} UnderscoreWordChars(s: string)
    requires forall i :: 0 <= i < |s| ==> IsWordChar(s[i]) || IsDash(s[i])
    ensures AllWordChars(Underscore(s))
    decreases |s|
  {
    if s != [] {
      var rest := if IsDash(s[0]) then s[DashRun(s)..] else s[1..];
      forall i | 0 <= i < |rest| ensures IsWordChar(rest[i]) || IsDash(rest[i]) {
        assert rest[i] == s[|s| - |rest| + i];
      }
      UnderscoreWordChars(rest);
    }
  }

  /** The result is made only of ASCII word characters: no whitespace, no
      hyphen, no punctuation. */
  lemma SanitizeWordChars(name: string, nfkd: string -> string)
    ensures AllWordChars(SanitizeFilename(name, nfkd))
  {
    var n := if name == "" then DefaultName else name;
    var a := DropNonAscii(nfkd(n));
    var k := KeepAllowed(a);
    DropNonAsciiSpec(nfkd(n));
    KeepAllowedSpec(a);
    StripSpec(k);
    var z := Strip(k);
    forall i | 0 <= i < |z| ensures IsWordChar(z[i]) || IsDash(z[i]) {
      StripChar(k, i);
    }
    UnderscoreWordChars(z);
  }

  lemma {:induction false} DashRunAll(d: string, b: string)
    requires forall i :: 0 <= i < |d| ==> IsDash(d[i])
    requires b == [] || !IsDash(b[0])
    ensures DashRun(d + b) == |d|
  {
    if d != [] {
      assert (d + b)[1..] == d[1..] + b;
      DashRunAll(d[1..], b);
    } else {
      assert d + b == b;
    }
  }

  /** A run of hyphens and whitespace becomes a single underscore. */
  lemma UnderscoreRun(d: string, b: string)
    requires d != [] && forall i :: 0 <= i < |d| ==> IsDash(d[i])
    requires b == [] || !IsDash(b[0])
    ensures Underscore(d + b) == "_" + Underscore(b)
  {
    DashRunAll(d, b);
    assert (d + b)[|d|..] == b;
  }

  /** A text without hyphens or whitespace is left as it is. */
  lemma {:induction false} UnderscoreNoDash(s: string)
    requires forall i :: 0 <= i < |s| ==> !IsDash(s[i])
    ensures Underscore(s) == s
  {
    if s != [] {
      UnderscoreNoDash(s[1..]);
      assert s == [s[0]] + s[1..];
    }
  }

  lemma {:induction false} DropNonAsciiOfAscii(s: string)
    requires IsAscii(s)
    ensures DropNonAscii(s) == s
  {
    if s != [] {
      assert IsAscii(s[1..]) by {
        forall i | 0 <= i < |s[1..]| ensures s[1..][i] as int < 128 { assert s[1..][i] == s[i + 1]; }
      }
      DropNonAsciiOfAscii(s[1..]);
      assert s == [s[0]] + s[1..];
    }
  }

  lemma {:induction false} KeepAllowedOfWords(s: string)
    requires AllWordChars(s)
    ensures KeepAllowed(s) == s
  {
    if s != [] {
      KeepAllowedOfWords(s[1..]);
      assert s == [s[0]] + s[1..];
    }
  }

  /** The cleaning steps leave a text of word characters as it is. */
  lemma CleanWords(n: string)
    requires AllWordChars(n)
    ensures Underscore(Strip(KeepAllowed(DropNonAscii(n)))) == n
  {
    assert IsAscii(n) by {
      forall i | 0 <= i < |n| ensures n[i] as int < 128 { assert IsWordChar(n[i]); }
    }
    DropNonAsciiOfAscii(n);
    KeepAllowedOfWords(n);
    assert Trimmed(n) by {
      if n != [] { WordNotDash(n[0]); WordNotDash(n[|n| - 1]); }
    }
    StripTrimmed(n);
    forall i | 0 <= i < |n| ensures !IsDash(n[i]) { WordNotDash(n[i]); }
    UnderscoreNoDash(n);
  }

  lemma WordNotDash(c: char)
    requires IsWordChar(c)
    ensures !IsDash(c) && !IsSpace(c)
  {
  }

  /** A name of at most 200 ASCII word characters comes back unchanged, and
      an empty name gives "report". */
  lemma SanitizeWordName(name: string, nfkd: string -> string)
    requires KeepsAscii(nfkd) && AllWordChars(name) && |name| <= MaxLength
    ensures SanitizeFilename(name, nfkd) == if name == "" then DefaultName else name
  {
    var n := if name == "" then DefaultName else name;
    assert AllWordChars(n);
    assert nfkd(n) == n;
    CleanWords(n);
  }

  lemma SanitizeEmpty(nfkd: string -> string)
    requires KeepsAscii(nfkd)
    ensures SanitizeFilename("", nfkd) == "report"
  {
    SanitizeWordName("", nfkd);
  }

  /** `default_md_filename(ticket_id, title)` with the formatted UTC time
      `timestamp`. */
  function DefaultMdFilename(ticketId: string, title: string, timestamp: string, nfkd: string -> string): (r: string)
    ensures |r| >= 3 && r[|r| - 3..] == ".md"
  {
    var base := if ticketId == "" then DefaultName else ticketId;
    var name := if title != "" then base + "_" + SanitizeFilename(title, nfkd) else base + "_A11y_Report";
    name + "_" + timestamp + ".md"
  }

  lemma {:induction false} Layout(base: string, stem: string, timestamp: string)
    ensures var f := base + "_" + stem + "_" + timestamp + ".md";
            && StartsWith(f, base + "_")
            && |f| == |base| + 1 + |stem| + 1 + |timestamp| + 3
            && f[|base| + 1..|base| + 1 + |stem|] == stem
            && f[|f| - |timestamp| - 4..] == "_" + timestamp + ".md"
  {
    var f := base + "_" + stem + "_" + timestamp + ".md";
    assert f == (base + "_") + stem + ("_" + timestamp + ".md");
  }

  /** The file name opens with the ticket id (or "report"), closes with the
      timestamp and the extension, and in between holds the sanitised title,
      or "A11y_Report" when there is none. */
  lemma DefaultMdFilenameSpec(ticketId: string, title: string, timestamp: string, nfkd: string -> string)
    ensures var base := if ticketId == "" then DefaultName else ticketId;
            var stem := if title != "" then SanitizeFilename(title, nfkd) else "A11y_Report";
            var f := DefaultMdFilename(ticketId, title, timestamp, nfkd);
            && StartsWith(f, base + "_")
            && |f| == |base| + 1 + |stem| + 1 + |timestamp| + 3
            && f[|base| + 1..|base| + 1 + |stem|] == stem
            && f[|f| - |timestamp| - 4..] == "_" + timestamp + ".md"
  {
    var base := if ticketId == "" then DefaultName else ticketId;
    var stem := if title != "" then SanitizeFilename(title, nfkd) else "A11y_Report";
    Layout(base, stem, timestamp);
    assert base + "_" + "A11y_Report" == base + "_A11y_Report";
  }

  /** The part between the ticket id and the timestamp holds no dot, so a
      dot-free ticket id and timestamp leave the extension's dot the only one. */
  lemma StemHasNoDot(title: string, nfkd: string -> string)
    ensures var stem := if title != "" then SanitizeFilename(title, nfkd) else "A11y_Report";
            forall i :: 0 <= i < |stem| ==> stem[i] != '.'
  {
    if title != "" { SanitizeWordChars(title, nfkd); }
  }
}
