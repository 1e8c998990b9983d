/** Wikilinks in page text: the pattern `[[target]]` of `wiki/service.py`, the
    scan for its matches, and the slugs a text links to. */
module Wikilinks {
  import opened Sequences
  import opened Slugs

  predicate IsLinkChar(c: char) { c != '[' && c != ']' && c != '\n' }

  /** The length of the longest prefix of link characters. */
  function LinkRun(s: string): (n: nat)
    ensures n <= |s|
  {
    if s == "" || !IsLinkChar(s[0]) then 0 else 1 + LinkRun(s[1..])
  }

  /** The length of the captured target of a match that starts `s`; 0 when none does. */
  function TargetLength(s: string): (n: nat)
    ensures n > 0 ==> n + 4 <= |s|
  {
    if |s| < 2 || s[0] != '[' || s[1] != '[' then 0
    else
      var n := LinkRun(s[2..]);
      if n + 4 <= |s| && s[2 + n] == ']' && s[3 + n] == ']' then n else 0
  }

  /** The captured targets of the matches, left to right, never overlapping. */
  function Targets(s: string): seq<string>
    decreases |s|
  {
    if s == "" then []
    else
      var n := TargetLength(s);
      if n > 0 then [s[2..2 + n]] + Targets(s[n + 4..]) else Targets(s[1..])
  }

  /** The non-empty slugs of `targets`, in order. */
  function SlugsOf(targets: seq<string>): seq<string> {
    if targets == [] then []
    else
      var init, slug := targets[..|targets| - 1], Slugify(targets[|targets| - 1]);
      SlugsOf(init) + (if slug == "" then [] else [slug])
  }

  /** The slug of every match that has one, repetitions included. */
  function LinkSlugs(markdown: string): seq<string> { SlugsOf(Targets(markdown)) }

  /** The distinct link slugs, in first-occurrence order. */
  function LinkedSlugs(markdown: string): seq<string> { Dedupe(LinkSlugs(markdown)) }

  method ExtractWikilinks(markdown: string) returns (slugs: seq<string>)
    ensures slugs == LinkedSlugs(markdown)
  {
    var matches := Targets(markdown);
    slugs := [];
    var seen: set<string> := {};
    for i := 0 to |matches|
      invariant slugs == Dedupe(SlugsOf(matches[..i]))
      invariant forall x :: x in seen <==> x in slugs
    {
      var slug := Slugify(matches[i]);
      ExtractOneMore(matches, i);
      if slug == "" || slug in seen {
        continue;
      }
      seen := seen + {slug};
      slugs := slugs + [slug];
    }
    assert matches[..|matches|] == matches;
  }

  lemma ExtractOneMore(matches: seq<string>, i: nat)
    requires i < |matches|
    ensures var slug, d := Slugify(matches[i]), Dedupe(SlugsOf(matches[..i]));
            Dedupe(SlugsOf(matches[..i + 1])) == if slug == "" || slug in d then d else d + [slug]
  {
    var slug, before := Slugify(matches[i]), SlugsOf(matches[..i]);
    assert matches[..i + 1][..i] == matches[..i];
    assert SlugsOf(matches[..i + 1]) == before + (if slug == "" then [] else [slug]);
    assert before + [] == before;
    DedupeSnoc(before, slug);
    DedupeMembers(before);
  }

  lemma {:induction false} SlugsOfConcat(a: seq<string>, b: seq<string>)
    ensures SlugsOf(a + b) == SlugsOf(a) + SlugsOf(b)
  {
    if b == [] {
      assert a + b == a;
    } else {
      assert (a + b)[..|a + b| - 1] == a + b[..|b| - 1];
      SlugsOfConcat(a, b[..|b| - 1]);
    }
  }

  lemma {:induction false} SlugsOfMember(targets: seq<string>, slug: string)
    ensures slug in SlugsOf(targets) ==> slug != "" && exists i :: 0 <= i < |targets| && Slugify(targets[i]) == slug
  {
    if targets != [] && slug in SlugsOf(targets) {
      var init, last := targets[..|targets| - 1], targets[|targets| - 1];
      SlugsOfMember(init, slug);
      if slug !in SlugsOf(init) {
        assert Slugify(targets[|targets| - 1]) == slug;
      }
    }
  }

  /** What is extracted is a set of non-empty slugs in normal form. */
  lemma LinkedSlugsAreSlugs(markdown: string, slug: string)
    requires slug in LinkedSlugs(markdown)
    ensures slug != "" && IsSlug(slug) && Slugify(slug) == slug
    ensures Distinct(LinkedSlugs(markdown))
  {
    DedupeMembers(LinkSlugs(markdown));
    var targets := Targets(markdown);
    SlugsOfMember(targets, slug);
    var i :| 0 <= i < |targets| && Slugify(targets[i]) == slug;
    SlugifyNormalForm(targets[i]);
    SlugifyIdempotent(targets[i]);
  }

  // ------------------------------------------------------- scanning by lines

  lemma {:induction false} LinkRunStopsAtNewline(a: string, b: string)
    ensures LinkRun(a + "\n" + b) == LinkRun(a)
  {
    if a != "" {
      assert (a + "\n" + b)[1..] == a[1..] + "\n" + b;
      LinkRunStopsAtNewline(a[1..], b);
    }
  }

  lemma TargetLengthInLine(a: string, b: string)
    requires a != ""
    ensures TargetLength(a + "\n" + b) == TargetLength(a)
  {
    if |a| >= 2 {
      assert (a + "\n" + b)[2..] == a[2..] + "\n" + b;
      LinkRunStopsAtNewline(a[2..], b);
    }
  }

  lemma ScanPastMatch(s: string, a: string, n: nat, rest: string, more: seq<string>)
    requires s != "" && a != "" && n > 0 && TargetLength(s) == TargetLength(a) == n
    requires s[2..2 + n] == a[2..2 + n] && s[n + 4..] == rest && Targets(rest) == Targets(a[n + 4..]) + more
    ensures Targets(s) == Targets(a) + more
  {
    ConcatAssoc([a[2..2 + n]], Targets(a[n + 4..]), more);
  }

  lemma ScanPastChar(s: string, a: string, rest: string, more: seq<string>)
    requires s != "" && a != "" && TargetLength(s) == TargetLength(a) == 0
    requires s[1..] == rest && Targets(rest) == Targets(a[1..]) + more
    ensures Targets(s) == Targets(a) + more
  {
  }

  /** No match crosses a newline: a text is scanned line by line. */
  lemma {:induction false} TargetsByLine(a: string, b: string)
    ensures Targets(a + "\n" + b) == Targets(a) + Targets(b)
    decreases |a|
  {
    var s := a + "\n" + b;
    if a == "" {
      ScanPastNewline(s, b);
    } else if TargetLength(a) > 0 {
      var n := TargetLength(a);
      MatchInLine(a, b);
      TargetsByLine(a[n + 4..], b);
      ScanPastMatch(s, a, n, a[n + 4..] + "\n" + b, Targets(b));
    } else {
      TargetLengthInLine(a, b);
      TargetsByLine(a[1..], b);
      ScanPastChar(s, a, a[1..] + "\n" + b, Targets(b));
    }
  }

  lemma MatchInLine(a: string, b: string)
    requires a != "" && TargetLength(a) > 0
    ensures var s, n := a + "\n" + b, TargetLength(a);
            TargetLength(s) == n && s[2..2 + n] == a[2..2 + n] && s[n + 4..] == a[n + 4..] + "\n" + b
  {
    TargetLengthInLine(a, b);
  }

  lemma ScanPastNewline(s: string, b: string)
    requires s == "" + "\n" + b
    ensures Targets(s) == Targets("") + Targets(b)
  {
    assert s[0] == '\n' && s[1..] == b;
    ConcatUnit(Targets(b));
  }

  lemma LinkSlugsByLine(a: string, b: string)
    ensures LinkSlugs(a + "\n" + b) == LinkSlugs(a) + LinkSlugs(b)
  {
    TargetsByLine(a, b);
    SlugsOfConcat(Targets(a), Targets(b));
  }

  lemma {:induction false} NoTargetsWithoutBracket(s: string)
    requires '[' !in s
    ensures Targets(s) == []
    ensures LinkSlugs(s) == []
  {
    if s != "" {
      NoTargetsWithoutBracket(s[1..]);
    }
  }

  lemma {:induction false} LinkRunOfLinkText(a: string, b: string)
    requires forall c :: c in a ==> IsLinkChar(c)
    requires b == "" || !IsLinkChar(b[0])
    ensures LinkRun(a + b) == |a|
  {
    if a == "" {
      assert a + b == b;
    } else {
      assert (a + b)[1..] == a[1..] + b;
      LinkRunOfLinkText(a[1..], b);
    }
  }

  // ----------------------------------------------------- what is a wikilink

  /** `[[target]]` stands at position `i`: the target is not empty and holds no bracket and no newline. */
  predicate LinkAt(s: string, i: nat, target: string) {
    && target != "" && i + |target| + 4 <= |s|
    && s[i] == '[' && s[i + 1] == '[' && s[i + 2..i + 2 + |target|] == target
    && s[i + 2 + |target|] == ']' && s[i + 3 + |target|] == ']'
    && forall k :: 0 <= k < |target| ==> target[k] != '[' && target[k] != ']' && target[k] != '\n'
  }

  ghost predicate HasLink(s: string, target: string) { exists i: nat :: LinkAt(s, i, target) }

  lemma {:induction false} LinkRunFacts(s: string)
    ensures forall k :: 0 <= k < LinkRun(s) ==> IsLinkChar(s[k])
    ensures LinkRun(s) < |s| ==> !IsLinkChar(s[LinkRun(s)])
  {
    if s != "" && IsLinkChar(s[0]) {
      LinkRunFacts(s[1..]);
    }
  }

  lemma MatchIsLink(s: string, target: string)
    ensures LinkAt(s, 0, target) <==> TargetLength(s) > 0 && target == s[2..2 + TargetLength(s)]
  {
    if |s| >= 2 {
      var n := LinkRun(s[2..]);
      LinkRunFacts(s[2..]);
      forall k | 2 <= k < n + 2 ensures IsLinkChar(s[k]) {
        assert s[2..][k - 2] == s[k];
      }
      assert n + 2 < |s| ==> s[2..][n] == s[n + 2];
      if LinkAt(s, 0, target) {
        assert forall k :: 0 <= k < |target| ==> s[k + 2] == target[k];
        assert s[|target| + 2] == ']';
      }
    }
  }

  lemma LinkAtLater(s: string, d: nat, i: nat, target: string)
    requires d <= |s|
    ensures LinkAt(s[d..], i, target) <==> LinkAt(s, i + d, target)
  {
    var t := s[d..];
    assert forall k :: 0 <= k < |t| ==> t[k] == s[k + d];
    if i + |target| + 4 <= |t| {
      assert t[i + 2..i + 2 + |target|] == s[i + d + 2..i + d + 2 + |target|];
    }
  }

  /** No link starts inside another one. */
  lemma LinksAreApart(s: string, target: string, i: nat, other: string)
    requires LinkAt(s, 0, target) && LinkAt(s, i, other) && i > 0
    ensures i >= |target| + 4
  {
    assert forall k :: 0 <= k < |target| ==> s[k + 2] == target[k];
    assert target[0] == s[2];
  }

  /** The scan finds exactly the wikilinks of a text: nothing that its skipping passes over is one. */
  lemma {:induction false} TargetsAreTheLinks(s: string, target: string)
    ensures target in Targets(s) <==> HasLink(s, target)
    decreases |s|
  {
    if s != "" {
      var n := TargetLength(s);
      FirstOrLater(s, target);
      TargetsAreTheLinks(s[if n > 0 then n + 4 else 1..], target);
    }
  }

  lemma FirstOrLater(s: string, target: string)
    requires s != ""
    ensures var n := TargetLength(s);
            var d := if n > 0 then n + 4 else 1;
            HasLink(s, target) <==> (n > 0 && target == s[2..2 + n]) || HasLink(s[d..], target)
  {
    var n := TargetLength(s);
    var d := if n > 0 then n + 4 else 1;
    MatchIsLink(s, target);
    if HasLink(s, target) && !LinkAt(s, 0, target) {
      var i: nat :| LinkAt(s, i, target);
      if n > 0 {
        MatchIsLink(s, s[2..2 + n]);
        LinksAreApart(s, s[2..2 + n], i, target);
      }
      LinkAtLater(s, d, i - d, target);
    }
    if HasLink(s[d..], target) {
      var i: nat :| LinkAt(s[d..], i, target);
      LinkAtLater(s, d, i, target);
    }
  }

  /** A printed link is read back as its target. */
  lemma LinkTargets(target: string)
    requires target != "" && forall c :: c in target ==> IsLinkChar(c)
    ensures Targets("[[" + target + "]]") == [target]
    ensures Slugify(target) != "" ==> LinkSlugs("[[" + target + "]]") == [Slugify(target)]
  {
    var link := "[[" + target + "]]";
    assert link[2..] == target + "]]";
    LinkRunOfLinkText(target, "]]");
    assert TargetLength(link) == |target|;
    assert link[2..2 + |target|] == target && link[|target| + 4..] == "";
    assert Targets(link) == [target] + Targets("");
    assert SlugsOf([target]) == SlugsOf([]) + (if Slugify(target) == "" then [] else [Slugify(target)]);
  }

  /** And so is a bullet that holds one. */
  lemma BulletTargets(target: string)
    requires target != "" && forall c :: c in target ==> IsLinkChar(c)
    ensures Targets("- [[" + target + "]]") == [target]
    ensures Slugify(target) != "" ==> LinkSlugs("- [[" + target + "]]") == [Slugify(target)]
  {
    var s := "- [[" + target + "]]";
    var link := "[[" + target + "]]";
    assert s[1..] == " " + link;
    assert s[1..][1..] == link;
    LinkTargets(target);
    assert Targets(s) == Targets(s[1..]) == Targets(link);
  }
}
