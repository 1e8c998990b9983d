/** Page slugs: the normaliser of `wiki/service.py`, a one-pass reference form,
    and what the two agree on. */
module Slugs {
  import opened Text

  predicate IsSeparator(c: char) { IsSpace(c) || c == '_' || c == '-' }

  predicate IsSlugKept(c: char) { IsAlnum(c) || IsSeparator(c) }

  predicate IsHyphen(c: char) { c == '-' }

  function KeepSlugChars(s: string): string {
    if s == "" then "" else (if IsSlugKept(s[0]) then [s[0]] else "") + KeepSlugChars(s[1..])
  }

  /** Replaces each run of separators by one hyphen; `inRun` says that the
      hyphen of the current run has been written. */
  function SqueezeSeparators(s: string, inRun: bool): string {
    if s == "" then ""
    else if IsSeparator(s[0]) then (if inRun then "" else "-") + SqueezeSeparators(s[1..], true)
    else [s[0]] + SqueezeSeparators(s[1..], false)
  }

  /** The normaliser, stage by stage as the program applies them. */
  function Slugify(value: string): string {
    var pagePart := Before(Before(value, '|'), '#');
    var normalized := LowerAll(Strip(pagePart));
    Trim(SqueezeSeparators(KeepSlugChars(normalized), false), IsHyphen)
  }

  /** Lower-case letters and digits, with single hyphens strictly inside. */
  ghost predicate IsSlug(s: string) {
    && (s == "" || s[0] != '-')
    && forall i :: 0 <= i < |s| ==> SlugCharAt(s, i)
  }

  predicate SlugCharAt(s: string, i: nat)
    requires i < |s|
  {
    'a' <= s[i] <= 'z' || IsDigit(s[i]) || (s[i] == '-' && i < |s| - 1 && s[i + 1] != '-')
  }

  /** The reference form: one pass that stops at `|` or `#`, drops other
      punctuation, and writes a hyphen only between two kept characters. */
  function Scan(s: string, gap: bool, started: bool): string {
    if s == "" || s[0] == '|' || s[0] == '#' then ""
    else if IsAlnum(s[0]) then (if gap && started then "-" else "") + [Lower(s[0])] + Scan(s[1..], false, true)
    else Scan(s[1..], gap || IsSeparator(s[0]), started)
  }

  // ------------------------------------- the pipeline computes the reference

  predicate IsSlugStage(s: string) { forall c :: c in s ==> IsSlugKept(c) && !IsUpper(c) }

  lemma {:induction false} GapUnusedBeforeStart(s: string, g: bool, g': bool)
    ensures Scan(s, g, false) == Scan(s, g', false)
  {
    if s != "" {
      GapUnusedBeforeStart(s[1..], g || IsSeparator(s[0]), g' || IsSeparator(s[0]));
    }
  }

  lemma {:induction false} ScanCut(s: string, g: bool, t: bool)
    ensures Scan(Before(Before(s, '|'), '#'), g, t) == Scan(s, g, t)
  {
    if s != "" && s[0] != '|' && s[0] != '#' {
      ScanCut(s[1..], false, true);
      ScanCut(s[1..], g || IsSeparator(s[0]), t);
      assert Before(Before(s, '|'), '#') == [s[0]] + Before(Before(s[1..], '|'), '#');
    }
  }

  lemma {:induction false} ScanTrimLeft(s: string, g: bool)
    ensures Scan(TrimLeft(s, IsSpace), g, false) == Scan(s, g, false)
  {
    if s != "" && IsSpace(s[0]) {
      ScanTrimLeft(s[1..], g);
      GapUnusedBeforeStart(s[1..], g, true);
    }
  }

  lemma {:induction false} ScanSnocSpace(s: string, c: char, g: bool, t: bool)
    requires IsSpace(c)
    ensures Scan(s + [c], g, t) == Scan(s, g, t)
  {
    if s != "" {
      assert (s + [c])[1..] == s[1..] + [c];
      ScanSnocSpace(s[1..], c, false, true);
      ScanSnocSpace(s[1..], c, g || IsSeparator(s[0]), t);
    }
  }

  lemma {:induction false} ScanTrimRight(s: string, g: bool, t: bool)
    ensures Scan(TrimRight(s, IsSpace), g, t) == Scan(s, g, t)
  {
    if s != "" && IsSpace(s[|s| - 1]) {
      ScanTrimRight(s[..|s| - 1], g, t);
      ScanSnocSpace(s[..|s| - 1], s[|s| - 1], g, t);
      assert s == s[..|s| - 1] + [s[|s| - 1]];
    }
  }

  lemma {:induction false} ScanLowered(s: string, g: bool, t: bool)
    ensures Scan(LowerAll(s), g, t) == Scan(s, g, t)
  {
    if s != "" {
      ScanLowered(s[1..], false, true);
      ScanLowered(s[1..], g || IsSeparator(s[0]), t);
      assert LowerAll(s)[1..] == LowerAll(s[1..]);
    }
  }

  lemma {:induction false} ScanKept(s: string, g: bool, t: bool)
    requires '|' !in s && '#' !in s
    ensures Scan(KeepSlugChars(s), g, t) == Scan(s, g, t)
  {
    if s != "" {
      ScanKept(s[1..], false, true);
      ScanKept(s[1..], g || IsSeparator(s[0]), t);
      assert "" + KeepSlugChars(s[1..]) == KeepSlugChars(s[1..]);
      assert IsSlugKept(s[0]) ==> KeepSlugChars(s)[1..] == KeepSlugChars(s[1..]);
    }
  }

  lemma {:induction false} CutShape(s: string)
    ensures var r := Before(Before(s, '|'), '#'); '|' !in r && '#' !in r
  {
    if s != "" {
      CutShape(s[1..]);
    }
  }

  lemma {:induction false} LoweredShape(s: string)
    ensures '|' !in s ==> '|' !in LowerAll(s)
    ensures '#' !in s ==> '#' !in LowerAll(s)
    ensures forall c :: c in LowerAll(s) ==> !IsUpper(c)
  {
    if s != "" {
      LoweredShape(s[1..]);
    }
  }

  lemma {:induction false} KeptShape(s: string)
    requires forall c :: c in s ==> !IsUpper(c)
    ensures IsSlugStage(KeepSlugChars(s))
  {
    if s != "" {
      KeptShape(s[1..]);
    }
  }

  lemma {:induction false} SqueezedNeverStartsWithHyphen(s: string)
    requires IsSlugStage(s)
    ensures TrimLeft(SqueezeSeparators(s, true), IsHyphen) == SqueezeSeparators(s, true)
  {
    if s != "" && IsSeparator(s[0]) {
      SqueezedNeverStartsWithHyphen(s[1..]);
      assert "" + SqueezeSeparators(s[1..], true) == SqueezeSeparators(s[1..], true);
    }
  }

  lemma {:induction false} ScanPendingGap(s: string)
    requires IsSlugStage(s)
    ensures Scan(s, true, true) == if Scan(s, true, false) == "" then "" else "-" + Scan(s, true, false)
  {
    if s != "" {
      if IsSeparator(s[0]) {
        ScanPendingGap(s[1..]);
      } else {
        assert "-" + [Lower(s[0])] + Scan(s[1..], false, true) == "-" + ([Lower(s[0])] + Scan(s[1..], false, true));
        assert "" + [Lower(s[0])] == [Lower(s[0])];
      }
    }
  }

  lemma ScanOfKept(s: string)
    requires IsSlugStage(s) && s != "" && !IsSeparator(s[0])
    ensures Scan(s, true, false) == Scan(s, false, true) == [s[0]] + Scan(s[1..], false, true)
  {
    assert s[0] in s && Lower(s[0]) == s[0];
    assert "" + [s[0]] == [s[0]];
  }

  /** Trimming what a run of separators leaves at the end is what the one-pass
      form never writes. */
  lemma {:induction false} SqueezedTrimRight(s: string)
    requires IsSlugStage(s)
    ensures TrimRight(SqueezeSeparators(s, true), IsHyphen) == Scan(s, true, false)
    ensures TrimRight(SqueezeSeparators(s, false), IsHyphen) == Scan(s, false, true)
  {
    if s != "" {
      SqueezedTrimRight(s[1..]);
      if IsSeparator(s[0]) {
        var rest := SqueezeSeparators(s[1..], true);
        assert SqueezeSeparators(s, true) == rest;
        assert SqueezeSeparators(s, false) == ['-'] + rest;
        TrimRightCons('-', rest, IsHyphen);
        ScanPendingGap(s[1..]);
      } else {
        var rest := SqueezeSeparators(s[1..], false);
        assert SqueezeSeparators(s, true) == SqueezeSeparators(s, false) == [s[0]] + rest;
        ScanOfKept(s);
        TrimRightCons(s[0], rest, IsHyphen);
      }
    }
  }

  lemma SqueezedTrim(s: string)
    requires IsSlugStage(s)
    ensures Trim(SqueezeSeparators(s, false), IsHyphen) == Scan(s, false, false)
  {
    SqueezedTrimRight(s);
    if s != "" && IsSeparator(s[0]) {
      SqueezedTrimRight(s[1..]);
      SqueezedNeverStartsWithHyphen(s[1..]);
      var rest := SqueezeSeparators(s[1..], true);
      assert ("-" + rest)[1..] == rest;
    }
  }

  /** The staged normaliser and the one-pass reference form agree on every text. */
  lemma SlugifyIsScan(value: string)
    ensures Slugify(value) == Scan(value, false, false)
  {
    var cut := Before(Before(value, '|'), '#');
    var low := LowerAll(Strip(cut));
    ScanCut(value, false, false);
    ScanTrimLeft(cut, false);
    ScanTrimRight(TrimLeft(cut, IsSpace), false, false);
    ScanLowered(Strip(cut), false, false);
    CutShape(value);
    StripShape(cut);
    LoweredShape(Strip(cut));
    ScanKept(low, false, false);
    KeptShape(low);
    SqueezedTrim(KeepSlugChars(low));
  }

  // -------------------------------------------------------- slug normal form

  /** `s` can follow the start of a slug (`started`), or be one. */
  predicate SlugTail(s: string, started: bool) {
    s == "" ||
    if s[0] == '-' then started && |s| >= 2 && s[1] != '-' && SlugTail(s[1..], true)
    else (IsAlnum(s[0]) && !IsUpper(s[0])) && SlugTail(s[1..], true)
  }

  lemma {:induction false} ScanIsSlugTail(s: string, g: bool, t: bool)
    ensures SlugTail(Scan(s, g, t), t)
    ensures !(g && t) ==> Scan(s, g, t) == "" || t || Scan(s, g, t)[0] != '-'
  {
    if s != "" && s[0] != '|' && s[0] != '#' {
      if IsAlnum(s[0]) {
        ScanIsSlugTail(s[1..], false, true);
        var tail := [Lower(s[0])] + Scan(s[1..], false, true);
        assert tail[1..] == Scan(s[1..], false, true);
        assert ("-" + tail)[1..] == tail;
        assert "" + [Lower(s[0])] == [Lower(s[0])];
        assert "-" + [Lower(s[0])] + Scan(s[1..], false, true) == "-" + tail;
      } else {
        ScanIsSlugTail(s[1..], g || IsSeparator(s[0]), t);
      }
    }
  }

  lemma {:induction false} SlugTailIsScanned(s: string, t: bool)
    requires SlugTail(s, t)
    ensures Scan(s, false, t) == s
    ensures s != "" && s[0] != '-' ==> Scan(s, true, true) == "-" + s
  {
    if s != "" {
      SlugTailIsScanned(s[1..], true);
      assert s == [s[0]] + s[1..];
      assert "-" + [s[0]] + s[1..] == "-" + s;
    }
  }

  lemma {:induction false} SlugTailMeaning(s: string, t: bool)
    ensures SlugTail(s, t) <==>
            (s == "" || s[0] != '-' || t) && forall i :: 0 <= i < |s| ==> SlugCharAt(s, i)
  {
    if s != "" {
      SlugTailMeaning(s[1..], true);
      var rest := s[1..];
      assert forall i :: 0 <= i < |rest| ==> SlugCharAt(rest, i) == SlugCharAt(s, i + 1);
      assert forall i :: 0 < i < |s| ==> SlugCharAt(s, i) == SlugCharAt(rest, i - 1);
      assert (forall i :: 0 <= i < |s| ==> SlugCharAt(s, i)) <==>
             SlugCharAt(s, 0) && forall i :: 0 <= i < |rest| ==> SlugCharAt(rest, i);
    }
  }

  /** Every output is in slug normal form, and the fixed points of the
      normaliser are exactly the slugs. */
  lemma SlugifyNormalForm(value: string)
    ensures IsSlug(Slugify(value))
    ensures Slugify(value) == value <==> IsSlug(value)
  {
    SlugifyIsScan(value);
    ScanIsSlugTail(value, false, false);
    SlugTailMeaning(Slugify(value), false);
    SlugTailMeaning(value, false);
    if IsSlug(value) {
      SlugTailIsScanned(value, false);
    }
  }

  lemma SlugifyIdempotent(value: string)
    ensures Slugify(Slugify(value)) == Slugify(value)
  {
    SlugifyNormalForm(value);
    SlugifyNormalForm(Slugify(value));
  }

  // -------------------------------------------- edits that keep the same slug

  lemma {:induction false} ScanRemove(s: string, c: char, g: bool, t: bool)
    requires !IsSlugKept(c) && c != '|' && c != '#'
    ensures Scan(Remove(s, c), g, t) == Scan(s, g, t)
  {
    if s != "" {
      ScanRemove(s[1..], c, false, true);
      ScanRemove(s[1..], c, g || IsSeparator(s[0]), t);
      assert s[0] != c ==> Remove(s, c)[1..] == Remove(s[1..], c);
      assert "" + Remove(s[1..], c) == Remove(s[1..], c);
    }
  }

  lemma {:induction false} ScanReplaceSpace(s: string, c: char, g: bool, t: bool)
    requires IsSeparator(c)
    ensures Scan(Replace(s, c, ' '), g, t) == Scan(s, g, t)
  {
    if s != "" {
      ScanReplaceSpace(s[1..], c, false, true);
      ScanReplaceSpace(s[1..], c, g || IsSeparator(s[0]), t);
      assert Replace(s, c, ' ')[1..] == Replace(s[1..], c, ' ');
    }
  }

  lemma {:induction false} ScanCollapse(s: string, g: bool, t: bool)
    requires !t || g || s == "" || !IsSpace(s[0])
    ensures Scan(Collapse(s), g, t) == Scan(s, g, t)
  {
    if s != "" {
      CollapseStep(s);
      var rest := s[1..];
      if IsSpace(s[0]) {
        ScanCollapse(rest, true, t);
        if !t {
          GapUnusedBeforeStart(Collapse(rest), g, true);
        }
      } else if s[0] != '|' && s[0] != '#' {
        var g', t' := if IsAlnum(s[0]) then false else g || IsSeparator(s[0]), t || IsAlnum(s[0]);
        assert Collapse(s) != "" && Collapse(s)[0] == s[0];
        assert Scan(Collapse(s)[1..], g', t') == Scan(rest, g', t') by {
          if |s| == 1 {
            assert rest == "" && Collapse(s)[1..] == "";
          } else if IsSpace(s[1]) {
            ScanCollapse(rest, true, t');
            CollapseStep(rest);
            assert Scan(rest, g', t') == Scan(rest, true, t');
            if Collapse(rest) == "" {
              assert Collapse(s)[1..] == "";
            } else {
              assert Collapse(s)[1..] == " " + Collapse(rest);
              assert (" " + Collapse(rest))[1..] == Collapse(rest);
            }
          } else {
            ScanCollapse(rest, g', t');
            assert Collapse(s)[1..] == Collapse(rest);
          }
        }
      }
    }
  }

  /** The edits a printed wikilink makes to a page name keep its slug. */
  lemma SlugSurvivesPrinting(value: string)
    ensures Slugify(Collapse(Strip(Replace(Remove(Remove(value, '['), ']'), '\n', ' ')))) == Slugify(value)
    ensures Slugify(Collapse(value)) == Slugify(value)
  {
    var bare := Remove(Remove(value, '['), ']');
    var flat := Replace(bare, '\n', ' ');
    ScanRemove(value, '[', false, false);
    ScanRemove(Remove(value, '['), ']', false, false);
    ScanReplaceSpace(bare, '\n', false, false);
    CollapseOfStrip(flat);
    ScanCollapse(flat, false, false);
    ScanCollapse(value, false, false);
    SlugifyIsScan(value);
    SlugifyIsScan(Collapse(value));
    SlugifyIsScan(Collapse(Strip(flat)));
  }
}
