/** `sanitize_filename` of the Markdown saver: the story title with the
    characters Windows forbids in file names removed, every run of
    whitespace written as one space, stripped, and cut to 150 characters. */
module SaveMarkdown {
  import opened Text

  const MaxLength: nat := 150

  /** The class `[<>:"/\\|?*]`. */
  predicate IsForbidden(c: char) {
    c == '<' || c == '>' || c == ':' || c == '"' || c == '/' || c == '\\' || c == '|' || c == '?' || c == '*'
  }

  /** `re.sub(r'[<>:"/\\|?*]', '', s)`. */
  function RemoveForbidden(s: string): (r: string)
    ensures |r| <= |s|
  {
    if s == [] then [] else (if IsForbidden(s[0]) then [] else [s[0]]) + RemoveForbidden(s[1..])
  }

  /** `re.sub(r'\s+', ' ', s)`: each maximal run of whitespace becomes one space. */
  function CollapseSpace(s: string): (r: string)
    ensures |r| <= |s|
    decreases |s|
  {
    if s == [] then []
    else if IsSpace(s[0]) then [' '] + CollapseSpace(LStrip(s))
    else [s[0]] + CollapseSpace(s[1..])
  }

  /** `sanitize_filename(title)`. */
  function SanitizeFilename(title: string): (r: string)
    ensures |r| <= MaxLength
  {
    Take(Strip(CollapseSpace(RemoveForbidden(title))), MaxLength)
  }

  predicate NoForbidden(s: string) { forall i :: 0 <= i < |s| ==> !IsForbidden(s[i]) }

  /** Every whitespace character is a plain space and none follows another. */
  predicate SingleSpaces(s: string) {
    forall i :: 0 <= i < |s| && IsSpace(s[i]) ==> s[i] == ' ' && (i + 1 < |s| ==> !IsSpace(s[i + 1]))
  }

  lemma {:induction false} RemoveForbiddenSpec(s: string)
    ensures NoForbidden(RemoveForbidden(s))
  {
    if s != [] { RemoveForbiddenSpec(s[1..]); }
  }

  lemma {:induction false} RemoveForbiddenClean(s: string)
    requires NoForbidden(s)
    ensures RemoveForbidden(s) == s
  {
    if s != [] {
      RemoveForbiddenClean(s[1..]);
      assert s == [s[0]] + s[1..];
    }
  }

  /** A collapsed text opens with the text's own first character, or with
      the space that replaces its leading run. */
  lemma CollapseHead(s: string)
    requires s != []
    ensures CollapseSpace(s) != []
    ensures CollapseSpace(s)[0] == if IsSpace(s[0]) then ' ' else s[0]
  {
  }

  lemma {:induction false} CollapseNoForbidden(s: string)
    requires NoForbidden(s)
    ensures NoForbidden(CollapseSpace(s))
    decreases |s|
  {
    if s != [] {
      var rest := if IsSpace(s[0]) then LStrip(s) else s[1..];
      assert NoForbidden(rest) by {
        forall i | 0 <= i < |rest| ensures !IsForbidden(rest[i]) {
          assert rest[i] == s[|s| - |rest| + i];
        }
      }
      CollapseNoForbidden(rest);
    }
  }

  lemma {:induction false} CollapseSingle(s: string)
    ensures SingleSpaces(CollapseSpace(s))
    decreases |s|
  {
    if s != [] {
      if IsSpace(s[0]) {
        var rest := LStrip(s);
        LeadingSpaceSpec(s);
        CollapseSingle(rest);
        if rest != [] {
          assert rest[0] == s[LeadingSpace(s)];
          CollapseHead(rest);
        }
      } else {
        CollapseSingle(s[1..]);
      }
    }
  }

  lemma {:induction false} CollapseClean(s: string)
    requires SingleSpaces(s)
    ensures CollapseSpace(s) == s
    decreases |s|
  {
    if s != [] {
      assert SingleSpaces(s[1..]) by {
        forall i | 0 <= i < |s[1..]| && IsSpace(s[1..][i])
          ensures s[1..][i] == ' ' && (i + 1 < |s[1..]| ==> !IsSpace(s[1..][i + 1]))
        {
          assert s[1..][i] == s[i + 1];
        }
      }
      if IsSpace(s[0]) {
        assert LeadingSpace(s) == 1 by {
          if |s| > 1 { assert !IsSpace(s[1]); }
        }
      }
      CollapseClean(s[1..]);
      assert s == [s[0]] + s[1..];
    }
  }

  /** Both properties survive taking a slice. */
  lemma SliceKeeps(s: string, a: nat, b: nat)
    requires a <= b <= |s| && NoForbidden(s) && SingleSpaces(s)
    ensures NoForbidden(s[a..b]) && SingleSpaces(s[a..b])
  {
    var t := s[a..b];
    forall i | 0 <= i < |t| ensures t[i] == s[a + i] { }
  }

  /** The result holds no forbidden character, every whitespace character in
      it is a single plain space, and it never starts with whitespace. */
  lemma SanitizeSpec(title: string)
    ensures NoForbidden(SanitizeFilename(title))
    ensures SingleSpaces(SanitizeFilename(title))
    ensures SanitizeFilename(title) != [] ==> !IsSpace(SanitizeFilename(title)[0])
  {
    var x := RemoveForbidden(title);
    var y := CollapseSpace(x);
    var z := Strip(y);
    var r := SanitizeFilename(title);
    RemoveForbiddenSpec(title);
    CollapseNoForbidden(x);
    CollapseSingle(x);
    StripSpec(y);
    SliceKeeps(y, LeadingSpace(y), LeadingSpace(y) + |z|);
    SliceKeeps(z, 0, |r|);
    assert r == z[..|r|];
  }

  /** A title that is already clean (no forbidden character, single spaces,
      trimmed, at most 150 characters) comes back unchanged. */
  lemma SanitizeClean(title: string)
    requires NoForbidden(title) && SingleSpaces(title) && Trimmed(title) && |title| <= MaxLength
    ensures SanitizeFilename(title) == title
  {
    RemoveForbiddenClean(title);
    CollapseClean(title);
    StripTrimmed(title);
  }

  /** The cut to 150 characters comes after the strip, so a clean title
      longer than that whose 150th character is a space keeps that space at
      the end of the result. */
  lemma SanitizeMayEndInSpace(title: string)
    requires NoForbidden(title) && SingleSpaces(title) && Trimmed(title)
    requires |title| > MaxLength && title[MaxLength - 1] == ' '
    ensures SanitizeFilename(title) == title[..MaxLength]
    ensures IsSpace(SanitizeFilename(title)[MaxLength - 1])
  {
    RemoveForbiddenClean(title);
    CollapseClean(title);
    StripTrimmed(title);
  }

  // ---------------------------------------------------------------------
  // The visible characters keep their order
  // ---------------------------------------------------------------------

  /** The characters of `s` that are not whitespace, in order. */
  function Visible(s: string): string {
    if s == [] then [] else (if IsSpace(s[0]) then [] else [s[0]]) + Visible(s[1..])
  }

  lemma {:induction false} VisibleConcat(a: string, b: string)
    ensures Visible(a + b) == Visible(a) + Visible(b)
  {
    if a != [] {
      assert (a + b)[1..] == a[1..] + b;
      VisibleConcat(a[1..], b);
    } else {
      assert a + b == b;
    }
  }

  lemma {:induction false} VisibleAllSpace(s: string)
    requires AllSpace(s)
    ensures Visible(s) == []
  {
    if s != [] { VisibleAllSpace(s[1..]); }
  }

  lemma {:induction false} VisibleCollapse(s: string)
    ensures Visible(CollapseSpace(s)) == Visible(s)
    decreases |s|
  {
    if s != [] {
      if IsSpace(s[0]) {
        var n := LeadingSpace(s);
        LeadingSpaceSpec(s);
        VisibleCollapse(LStrip(s));
        assert s == s[..n] + LStrip(s);
        VisibleConcat(s[..n], LStrip(s));
        VisibleAllSpace(s[..n]);
        assert CollapseSpace(s) == " " + CollapseSpace(LStrip(s));
        VisibleConcat(" ", CollapseSpace(LStrip(s)));
      } else {
        VisibleCollapse(s[1..]);
      }
    }
  }

  lemma VisibleStrip(s: string)
    ensures Visible(Strip(s)) == Visible(s)
  {
    StripSpec(s);
    var i := LeadingSpace(s);
    var j := i + |Strip(s)|;
    assert s == s[..i] + Strip(s) + s[j..];
    VisibleConcat(s[..i] + Strip(s), s[j..]);
    VisibleConcat(s[..i], Strip(s));
    VisibleAllSpace(s[..i]);
    VisibleAllSpace(s[j..]);
  }

  /** The non-whitespace characters of the result are, in order, the first
      ones of the title's non-forbidden, non-whitespace characters; all of
      them when no cut is needed. */
  lemma SanitizeOrder(title: string)
    ensures StartsWith(Visible(RemoveForbidden(title)), Visible(SanitizeFilename(title)))
    ensures |Strip(CollapseSpace(RemoveForbidden(title)))| <= MaxLength ==>
              Visible(SanitizeFilename(title)) == Visible(RemoveForbidden(title))
  {
    var x := RemoveForbidden(title);
    var z := Strip(CollapseSpace(x));
    var r := SanitizeFilename(title);
    VisibleCollapse(x);
    VisibleStrip(CollapseSpace(x));
    assert z == r + z[|r|..];
    VisibleConcat(r, z[|r|..]);
  }
}
