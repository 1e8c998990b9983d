/** What cleaning a line of Markdown drops: the whitespace around it, one heading
    marker, one bullet and one list number, in this order; and what is left of a claim. */
module MarkdownNoise {
  import opened Text
  import opened Extraction

  /** `#` up to six times, and whitespace after it; or nothing. */
  predicate HeadingMark(mark: string, gap: string) {
    |mark| <= 6 && (forall i :: 0 <= i < |mark| ==> mark[i] == '#') && Gap(mark, gap)
  }

  /** `-`, `*` or `+`, and whitespace after it; or nothing. */
  predicate BulletMark(mark: string, gap: string) {
    (mark == "" || mark == "-" || mark == "*" || mark == "+") && Gap(mark, gap)
  }

  /** Digits, `.` or `)`, and whitespace after that; or nothing. */
  predicate NumberMark(digits: string, dot: string, gap: string) {
    && (forall i :: 0 <= i < |digits| ==> '0' <= digits[i] <= '9')
    && (if digits == "" then dot == "" else dot == "." || dot == ")")
    && Gap(digits, gap)
  }

  /** A marker is followed by whitespace, and no marker by nothing. */
  predicate Gap(mark: string, gap: string) {
    (forall i :: 0 <= i < |gap| ==> IsSpace(gap[i])) && (mark == "" <==> gap == "")
  }

  /** Text that starts with none of the markers and has no whitespace around it. */
  predicate Plain(text: string) {
    && text != "" && !IsSpace(text[0]) && !IsSpace(text[|text| - 1])
    && text[0] != '#' && text[0] != '-' && text[0] != '*' && text[0] != '+' && !('0' <= text[0] <= '9')
  }

  /** What is left of stripped text: nothing of a short label, and otherwise its words. */
  function Left(text: string): string {
    if text != "" && text[|text| - 1] == ':' && |Words(text)| <= 5 then "" else Collapse(text)
  }

  lemma {:induction false} PrefixOfRun(run: string, rest: string, p: char -> bool)
    requires forall i :: 0 <= i < |run| ==> p(run[i])
    requires rest == "" || !p(rest[0])
    ensures Prefix(run + rest, p) == |run|
  {
    if run != "" {
      assert (run + rest)[1..] == run[1..] + rest;
      PrefixOfRun(run[1..], rest, p);
    } else {
      assert run + rest == rest;
    }
  }

  lemma {:induction false} TrimGap(gap: string, rest: string)
    requires forall i :: 0 <= i < |gap| ==> IsSpace(gap[i])
    requires rest != "" && !IsSpace(rest[0])
    ensures TrimLeft(gap + rest, IsSpace) == rest
  {
    if gap != "" {
      assert (gap + rest)[1..] == gap[1..] + rest;
      TrimGap(gap[1..], rest);
    } else {
      assert gap + rest == rest;
    }
  }

  lemma HeadingDropped(mark: string, gap: string, rest: string)
    requires HeadingMark(mark, gap) && rest != "" && !IsSpace(rest[0]) && rest[0] != '#'
    ensures DropHeading(mark + gap + rest) == rest
  {
    var s := mark + gap + rest;
    assert s == mark + (gap + rest);
    PrefixOfRun(mark, gap + rest, c => c == '#');
    if mark != "" {
      assert s[|mark|..] == gap + rest;
      assert s[|mark|] == gap[0];
      TrimGap(gap, rest);
    } else {
      assert s == rest;
    }
  }

  lemma BulletDropped(mark: string, gap: string, rest: string)
    requires BulletMark(mark, gap) && rest != "" && !IsSpace(rest[0])
    requires rest[0] != '-' && rest[0] != '*' && rest[0] != '+'
    ensures DropBullet(mark + gap + rest) == rest
  {
    var s := mark + gap + rest;
    if mark != "" {
      assert s[0] == mark[0] && s[1] == gap[0];
      assert TrimLeft(s, IsSpace) == s;
      assert s[1..] == gap + rest;
      TrimGap(gap, rest);
    } else {
      assert s == rest;
    }
  }

  lemma NumberDropped(digits: string, dot: string, gap: string, rest: string)
    requires NumberMark(digits, dot, gap) && rest != "" && !IsSpace(rest[0]) && !('0' <= rest[0] <= '9')
    ensures DropNumber(digits + dot + gap + rest) == rest
  {
    if digits == "" {
      assert digits + dot + gap + rest == rest;
      assert Prefix(rest, IsDigit) == 0;
    } else {
      TrimGap(gap, rest);
      NumberCut(digits + dot + gap + rest, digits, dot + gap + rest, gap + rest);
    }
  }

  lemma NumberCut(s: string, digits: string, tail: string, rest: string)
    requires digits != "" && forall i :: 0 <= i < |digits| ==> IsDigit(digits[i])
    requires s == digits + tail && |tail| >= 2 && (tail[0] == '.' || tail[0] == ')') && IsSpace(tail[1]) && tail[1..] == rest
    ensures DropNumber(s) == TrimLeft(rest, IsSpace)
  {
    PrefixOfRun(digits, tail, IsDigit);
    assert TrimLeft(s, IsSpace) == s by { assert s[0] == digits[0]; }
    assert s[|digits|] == tail[0] && s[|digits| + 1] == tail[1];
    assert s[|digits| + 1..] == rest;
  }

  /** Cleaning takes away the whitespace around a line and each kind of marker once, for every
      heading, bullet and number that can precede the text, and keeps the words of the text. */
  lemma MarkersAreDropped(before: string, hashes: string, gap1: string, bullet: string, gap2: string,
                          digits: string, dot: string, gap3: string, text: string, after: string)
    requires HeadingMark(hashes, gap1) && BulletMark(bullet, gap2) && NumberMark(digits, dot, gap3) && Plain(text)
    requires forall c :: c in before || c in after ==> IsSpace(c)
    ensures StripMarkdownNoise(before + (hashes + gap1 + (bullet + gap2 + (digits + dot + gap3 + text))) + after) == Left(text)
  {
    var numbered := NumberStage(digits, dot, gap3, text);
    var bulleted := BulletStage(bullet, gap2, numbered);
    var headed := HeadingStage(hashes, gap1, bulleted);
    CleanedInStages(before, headed, bulleted, numbered, text, after);
  }

  lemma NumberStage(digits: string, dot: string, gap: string, text: string) returns (s: string)
    requires NumberMark(digits, dot, gap) && Plain(text)
    ensures s == digits + dot + gap + text && DropNumber(s) == text
    ensures s != "" && !IsSpace(s[0]) && s[0] != '#' && s[0] != '-' && s[0] != '*' && s[0] != '+' && !IsSpace(s[|s| - 1])
  {
    NumberDropped(digits, dot, gap, text);
    s := digits + dot + gap + text;
    assert s[0] == if digits == "" then text[0] else digits[0];
    assert s[|s| - 1] == text[|text| - 1];
  }

  lemma BulletStage(mark: string, gap: string, rest: string) returns (s: string)
    requires BulletMark(mark, gap) && rest != "" && !IsSpace(rest[0]) && !IsSpace(rest[|rest| - 1])
    requires rest[0] != '#' && rest[0] != '-' && rest[0] != '*' && rest[0] != '+'
    ensures s == mark + gap + rest && DropBullet(s) == rest
    ensures s != "" && !IsSpace(s[0]) && s[0] != '#' && !IsSpace(s[|s| - 1])
  {
    BulletDropped(mark, gap, rest);
    s := mark + gap + rest;
    assert s[0] == if mark == "" then rest[0] else mark[0];
    assert s[|s| - 1] == rest[|rest| - 1];
  }

  lemma HeadingStage(mark: string, gap: string, rest: string) returns (s: string)
    requires HeadingMark(mark, gap) && rest != "" && !IsSpace(rest[0]) && !IsSpace(rest[|rest| - 1]) && rest[0] != '#'
    ensures s == mark + gap + rest && DropHeading(s) == rest
    ensures s != "" && !IsSpace(s[0]) && !IsSpace(s[|s| - 1])
  {
    HeadingDropped(mark, gap, rest);
    s := mark + gap + rest;
    assert s[0] == if mark == "" then rest[0] else mark[0];
    assert s[|s| - 1] == rest[|rest| - 1];
  }

  lemma CleanedInStages(before: string, headed: string, bulleted: string, numbered: string, text: string, after: string)
    requires DropHeading(headed) == bulleted && DropBullet(bulleted) == numbered && DropNumber(numbered) == text && Plain(text)
    requires forall c :: c in before || c in after ==> IsSpace(c)
    requires headed != "" && !IsSpace(headed[0]) && !IsSpace(headed[|headed| - 1])
    ensures StripMarkdownNoise(before + headed + after) == Left(text)
  {
    var s := before + headed + after;
    StripPadded(before, headed, after);
    assert Strip(s) == headed;
    StripFixed(text);
    CleanedFrom(s, text);
  }

  lemma CleanedFrom(s: string, text: string)
    requires Strip(DropNumber(DropBullet(DropHeading(Strip(s))))) == text
    ensures StripMarkdownNoise(s) == Left(text)
  {
  }

  /** Hashes that are no heading marker stay: more than six, or with no whitespace after them. */
  lemma HashesStay(hashes: string, rest: string)
    requires hashes != "" && forall i :: 0 <= i < |hashes| ==> hashes[i] == '#'
    requires rest != "" && rest[0] != '#' && !IsSpace(rest[|rest| - 1]) && (|hashes| > 6 || !IsSpace(rest[0]))
    ensures StripMarkdownNoise(hashes + rest) == Left(hashes + rest)
  {
    var s := hashes + rest;
    assert s[0] == '#' && s[|s| - 1] == rest[|rest| - 1];
    StripFixed(s);
    PrefixOfRun(hashes, rest, c => c == '#');
    assert s[|hashes|] == rest[0];
    assert DropHeading(s) == s;
    assert TrimLeft(s, IsSpace) == s;
    assert Prefix(s, IsDigit) == 0;
  }

  /** A bullet or a number with no whitespace after it stays. */
  lemma TightMarkersStay(text: string)
    requires |text| >= 2 && !IsSpace(text[0]) && !IsSpace(text[|text| - 1]) && text[0] != '#'
    requires text[0] == '-' || text[0] == '*' || text[0] == '+' ==> !IsSpace(text[1])
    requires forall i :: 0 < i < |text| - 1 && (forall k :: 0 <= k < i ==> '0' <= text[k] <= '9') ==>
               (text[i] != '.' && text[i] != ')') || !IsSpace(text[i + 1])
    ensures StripMarkdownNoise(text) == Left(text)
  {
    StripFixed(text);
    assert Prefix(text, c => c == '#') == 0;
    assert DropHeading(text) == text;
    assert TrimLeft(text, IsSpace) == text;
    assert DropBullet(text) == text;
    var n := Prefix(text, IsDigit);
    assert forall k :: 0 <= k < n ==> IsDigit(text[k]);
    assert DropNumber(text) == text;
  }

  lemma CleanedIsCollapsed(value: string)
    ensures Collapsed(StripMarkdownNoise(value)) && Collapse(StripMarkdownNoise(value)) == StripMarkdownNoise(value)
  {
    CollapseIsCollapsed(Strip(DropNumber(DropBullet(DropHeading(Strip(value))))));
    CollapseOfCollapsed(StripMarkdownNoise(value));
  }

  /** A cleaned claim is dropped below 12 characters, kept as it is up to 700, and otherwise cut
      after 698 or 699 of its characters and marked with three dots. */
  lemma CleanClaimByLength(value: string)
    ensures var text, claim := StripMarkdownNoise(value), CleanClaim(value);
            if |text| < 12 then claim == ""
            else if |text| <= 700 then claim == text
            else claim == text[..698] + "..." || claim == text[..699] + "..."
  {
    CleanedIsCollapsed(value);
    CutIsPrefix(StripMarkdownNoise(value), 700);
  }

  /** Cut text is the longest beginning of the text, one character short of the limit, that does
      not end in whitespace, and three dots. */
  lemma CutIsPrefix(text: string, max: nat)
    requires Collapsed(text) && Collapse(text) == text && max >= 2
    ensures Truncate(text, max) == if |text| <= max then text
                                   else text[..if IsSpace(text[max - 2]) then max - 2 else max - 1] + "..."
  {
    if |text| > max {
      var cut := text[..max - 1];
      assert cut[max - 2] == text[max - 2];
      if IsSpace(text[max - 2]) {
        assert cut[..max - 2] == text[..max - 2];
        assert !IsSpace(text[max - 3]);
        assert TrimRight(cut[..max - 2], IsSpace) == cut[..max - 2];
      }
    }
  }

  /** The summary is never empty: the cleaned answer, cut at 1200 characters, or a fixed sentence. */
  lemma SummaryIsCleanedAnswer(answer: string)
    ensures var text, summary := StripMarkdownNoise(answer), SummaryFromAnswer(answer);
            && summary != "" && |summary| <= 1202
            && (text == "" ==> summary == "No summary was returned by the RAG evidence query.")
            && (text != "" && |text| <= 1200 ==> summary == text)
            && (|text| > 1200 ==> summary == text[..1198] + "..." || summary == text[..1199] + "...")
  {
    CleanedIsCollapsed(answer);
    CutIsPrefix(StripMarkdownNoise(answer), 1200);
  }
}
