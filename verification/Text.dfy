/** The string operations of the program, on ASCII text: stripping, splitting
    into words, joining, and the character classes of its regular expressions. */
module Text {

  predicate IsSpace(c: char) {
    '\t' <= c <= '\r' || '\U{1C}' <= c <= ' '
  }

  predicate IsUpper(c: char) { 'A' <= c <= 'Z' }

  predicate IsDigit(c: char) { '0' <= c <= '9' }

  predicate IsAlnum(c: char) { IsUpper(c) || 'a' <= c <= 'z' || IsDigit(c) }

  function Lower(c: char): char {
    if IsUpper(c) then c - 'A' + 'a' else c
  }

  function LowerAll(s: string): string {
    if s == "" then "" else [Lower(s[0])] + LowerAll(s[1..])
  }

  /** Drops the longest prefix of characters satisfying `p`. */
  function TrimLeft(s: string, p: char -> bool): string {
    if s != "" && p(s[0]) then TrimLeft(s[1..], p) else s
  }

  /** Drops the longest suffix of characters satisfying `p`. */
  function TrimRight(s: string, p: char -> bool): string {
    if s != "" && p(s[|s| - 1]) then TrimRight(s[..|s| - 1], p) else s
  }

  function Trim(s: string, p: char -> bool): string {
    TrimRight(TrimLeft(s, p), p)
  }

  function Strip(s: string): string { Trim(s, IsSpace) }

  /** The part of `s` before the first `c`, or all of it. */
  function Before(s: string, c: char): string {
    if s == "" || s[0] == c then "" else [s[0]] + Before(s[1..], c)
  }

  function Remove(s: string, c: char): string {
    if s == "" then ""
    else (if s[0] == c then "" else [s[0]]) + Remove(s[1..], c)
  }

  function Replace(s: string, c: char, d: char): string {
    if s == "" then "" else [if s[0] == c then d else s[0]] + Replace(s[1..], c, d)
  }

  /** Splits at runs of whitespace; no word is empty. */
  function Words(s: string): (ws: seq<string>)
    ensures forall i :: 0 <= i < |ws| ==> ws[i] != ""
    ensures s != "" && !IsSpace(s[0]) ==> ws != []
  {
    if s == "" then []
    else if IsSpace(s[0]) then Words(s[1..])
    else if |s| == 1 || IsSpace(s[1]) then [[s[0]]] + Words(s[1..])
    else
      var ws := Words(s[1..]);
      [[s[0]] + ws[0]] + ws[1..]
  }

  function Join(parts: seq<string>, sep: string): string {
    if parts == [] then ""
    else if |parts| == 1 then parts[0]
    else parts[0] + sep + Join(parts[1..], sep)
  }

  /** Whitespace normal form: the words of `s`, one space between two of them. */
  function Collapse(s: string): string { Join(Words(s), " ") }

  ghost predicate Collapsed(s: string) {
    && (forall i :: 0 <= i < |s| && IsSpace(s[i]) ==> s[i] == ' ' && 0 < i < |s| - 1 && !IsSpace(s[i - 1]))
  }

  function Contains(s: string, t: string): bool {
    |t| <= |s| && (s[..|t|] == t || (s != "" && Contains(s[1..], t)))
  }

  predicate AllDigits(s: string) { s != "" && forall i :: 0 <= i < |s| ==> IsDigit(s[i]) }

  function ParseDigits(s: string): nat
    requires forall i :: 0 <= i < |s| ==> IsDigit(s[i])
  {
    if s == "" then 0 else ParseDigits(s[..|s| - 1]) * 10 + DigitValue(s[|s| - 1])
  }

  function DigitValue(c: char): nat
    requires IsDigit(c)
  {
    c as int - '0' as int
  }

  /** A number in decimal, without leading zeros. */
  function Digits(n: nat): (s: string)
    ensures s != ""
  {
    (if n < 10 then "" else Digits(n / 10)) + ['0' + (n % 10) as char]
  }

  /** A printed number is read back. */
  lemma {:induction false} DigitsReadBack(n: nat)
    ensures AllDigits(Digits(n)) && ParseDigits(Digits(n)) == n
    ensures n > 0 ==> Digits(n)[0] != '0'
  {
    var last := '0' + (n % 10) as char;
    if n < 10 {
      assert Digits(n) == [last];
      assert [last][..0] == "";
    } else {
      DigitsReadBack(n / 10);
      assert Digits(n)[..|Digits(n)| - 1] == Digits(n / 10);
    }
  }

  // ---------------------------------------------------------------- stripping

  lemma {:induction false} TrimRightCons(c: char, s: string, p: char -> bool)
    ensures TrimRight([c] + s, p) ==
            if TrimRight(s, p) != "" then [c] + TrimRight(s, p) else if p(c) then "" else [c]
  {
    if s == "" {
      assert [c] + s == [c];
    } else {
      var t := [c] + s;
      assert t[..|t| - 1] == [c] + s[..|s| - 1];
      if p(s[|s| - 1]) {
        TrimRightCons(c, s[..|s| - 1], p);
      }
    }
  }

  lemma {:induction false} StripFixed(s: string)
    requires s == "" || (!IsSpace(s[0]) && !IsSpace(s[|s| - 1]))
    ensures Strip(s) == s
  {
  }

  lemma {:induction false} TrimLeftShape(s: string, p: char -> bool)
    ensures TrimLeft(s, p) == "" || !p(TrimLeft(s, p)[0])
    ensures forall c :: c in TrimLeft(s, p) ==> c in s
  {
    if s != "" && p(s[0]) {
      TrimLeftShape(s[1..], p);
    }
  }

  lemma {:induction false} TrimRightShape(s: string, p: char -> bool)
    ensures TrimRight(s, p) <= s
    ensures TrimRight(s, p) == "" || !p(TrimRight(s, p)[|TrimRight(s, p)| - 1])
  {
    if s != "" && p(s[|s| - 1]) {
      TrimRightShape(s[..|s| - 1], p);
      assert s[..|s| - 1] <= s;
    }
  }

  lemma StripShape(s: string)
    ensures var r := Strip(s); r == "" || (!IsSpace(r[0]) && !IsSpace(r[|r| - 1]))
    ensures forall c :: c in Strip(s) ==> c in s
    ensures Strip(Strip(s)) == Strip(s)
  {
    TrimLeftShape(s, IsSpace);
    TrimRightShape(TrimLeft(s, IsSpace), IsSpace);
    StripFixed(Strip(s));
  }

  /** Stripping takes away exactly the whitespace around a text. */
  lemma {:induction false} StripPadded(before: string, s: string, after: string)
    requires forall c :: c in before || c in after ==> IsSpace(c)
    requires s != "" && !IsSpace(s[0]) && !IsSpace(s[|s| - 1])
    ensures Strip(before + s + after) == s
    decreases |before| + |after|
  {
    var t := before + s + after;
    if before != "" {
      assert t[0] == before[0] && t[0] in before;
      assert t[1..] == before[1..] + s + after;
      StripPadded(before[1..], s, after);
    } else if after != "" {
      assert TrimLeft(t, IsSpace) == t by { assert t[0] == s[0]; }
      assert t[|t| - 1] == after[|after| - 1] && t[|t| - 1] in after;
      assert t[..|t| - 1] == before + s + after[..|after| - 1];
      StripPadded(before, s, after[..|after| - 1]);
      assert TrimLeft(t[..|t| - 1], IsSpace) == t[..|t| - 1];
    } else {
      assert t == s;
    }
  }

  // -------------------------------------------------------------- normalising

  lemma {:induction false} JoinCons(c: char, w: string, ws: seq<string>, sep: string)
    ensures Join([[c] + w] + ws, sep) == [c] + Join([w] + ws, sep)
  {
    if ws != [] {
      assert ([[c] + w] + ws)[1..] == ws == ([w] + ws)[1..];
      assert ([c] + w) + sep + Join(ws, sep) == [c] + (w + sep + Join(ws, sep));
    }
  }

  /** One step of `Collapse`, read from the left. */
  lemma CollapseStep(s: string)
    requires s != ""
    ensures Collapse(s) ==
            if IsSpace(s[0]) then Collapse(s[1..])
            else if |s| == 1 then [s[0]]
            else if IsSpace(s[1]) then [s[0]] + (if Collapse(s[1..]) == "" then "" else " " + Collapse(s[1..]))
            else [s[0]] + Collapse(s[1..])
  {
    if IsSpace(s[0]) {
    } else if |s| == 1 || IsSpace(s[1]) {
      var ws := Words(s[1..]);
      assert ([[s[0]]] + ws)[1..] == ws;
      if ws != [] {
        assert ws[0] != "";
        assert Collapse(s[1..]) != "";
        assert [s[0]] + " " + Join(ws, " ") == [s[0]] + (" " + Join(ws, " "));
      }
    } else {
      var ws := Words(s[1..]);
      assert ws == [ws[0]] + ws[1..];
      JoinCons(s[0], ws[0], ws[1..], " ");
    }
  }

  lemma {:induction false} CollapseIsCollapsed(s: string)
    ensures Collapsed(Collapse(s))
    ensures s != "" && !IsSpace(s[0]) ==> Collapse(s) != "" && Collapse(s)[0] == s[0]
    ensures Collapse(s) == "" || !IsSpace(Collapse(s)[0])
    ensures forall c :: c in Collapse(s) ==> c == ' ' || c in s
    ensures |Collapse(s)| <= |s| && (s != "" && IsSpace(s[0]) ==> |Collapse(s)| < |s|)
  {
    if s != "" {
      CollapseStep(s);
      CollapseIsCollapsed(s[1..]);
    }
  }

  lemma {:induction false} CollapseOfCollapsed(s: string)
    requires Collapsed(s)
    ensures Collapse(s) == s
  {
    if s != "" {
      CollapseStep(s);
      if |s| > 1 && IsSpace(s[1]) {
        var t := s[2..];
        forall i | 0 <= i < |t| && IsSpace(t[i]) ensures t[i] == ' ' && 0 < i < |t| - 1 && !IsSpace(t[i - 1]) {
          assert t[i] == s[i + 2];
        }
        assert s[1..][1..] == t;
        CollapseStep(s[1..]);
        CollapseOfCollapsed(t);
        assert s == [s[0]] + (" " + t);
      } else {
        var t := s[1..];
        forall i | 0 <= i < |t| && IsSpace(t[i]) ensures t[i] == ' ' && 0 < i < |t| - 1 && !IsSpace(t[i - 1]) {
          assert t[i] == s[i + 1];
        }
        CollapseOfCollapsed(t);
        assert s == [s[0]] + t;
      }
    }
  }


  /** Stripping first changes nothing: `value.strip().split()` is `value.split()`. */
  lemma {:induction false} CollapseOfStrip(s: string)
    ensures Collapse(Strip(s)) == Collapse(s)
  {
    CollapseOfTrimLeft(s);
    CollapseOfTrimRight(TrimLeft(s, IsSpace));
  }

  lemma {:induction false} CollapseOfTrimLeft(s: string)
    ensures Collapse(TrimLeft(s, IsSpace)) == Collapse(s)
  {
    if s != "" && IsSpace(s[0]) {
      CollapseStep(s);
      CollapseOfTrimLeft(s[1..]);
    }
  }

  lemma {:induction false} CollapseOfTrimRight(s: string)
    ensures Collapse(TrimRight(s, IsSpace)) == Collapse(s)
  {
    if s != "" && IsSpace(s[|s| - 1]) {
      var t := s[..|s| - 1];
      CollapseOfTrimRight(t);
      CollapseSnocSpace(t, s[|s| - 1]);
      assert s == t + [s[|s| - 1]];
    }
  }

  lemma {:induction false} CollapseSnocSpace(s: string, c: char)
    requires IsSpace(c)
    ensures Collapse(s + [c]) == Collapse(s)
  {
    if s == "" {
      assert s + [c] == [c];
    } else {
      CollapseStep(s);
      CollapseStep(s + [c]);
      assert (s + [c])[1..] == s[1..] + [c];
      CollapseSnocSpace(s[1..], c);
      if |s| == 1 {
        assert s[1..] == "";
      }
    }
  }
}
