/** The title that the compiler makes from a slug when a page has no other: its words,
    capitalised. It leads back to the slug. */
module SlugTitles {
  import opened Sequences
  import opened Text
  import opened Slugs
  import opened WikiStore
  import opened Compiler

  predicate NoUpper(s: string) { forall i :: 0 <= i < |s| ==> !IsUpper(s[i]) }

  lemma {:induction false} LowerOfLower(s: string)
    requires NoUpper(s)
    ensures LowerAll(s) == s
  {
    if s != "" {
      LowerOfLower(s[1..]);
      assert [s[0]] + s[1..] == s;
    }
  }

  lemma {:induction false} LowerConcat(a: string, b: string)
    ensures LowerAll(a + b) == LowerAll(a) + LowerAll(b)
  {
    if a == "" {
      assert a + b == b;
    } else {
      assert (a + b)[1..] == a[1..] + b;
      LowerConcat(a[1..], b);
    }
  }

  lemma LowerOfCapitalized(word: string)
    requires NoUpper(word)
    ensures LowerAll(Capitalize(word)) == word
  {
    if word != "" {
      LowerOfLower(word[1..]);
      assert Capitalize(word)[1..] == word[1..];
      assert [word[0]] + word[1..] == word;
    }
  }

  /** Capitalising changes letter case alone: the first letter is none of the small ones, and no
      other is a capital. */
  lemma CapitalizedIs(word: string)
    ensures var title := Capitalize(word);
            && |title| == |word| && LowerAll(title) == LowerAll(word)
            && (word != "" ==> !('a' <= title[0] <= 'z') && NoUpper(title[1..]))
  {
    if word != "" {
      LowerAllNoUpper(word[1..]);
      LowerOfLower(LowerAll(word[1..]));
      assert Capitalize(word)[1..] == LowerAll(word[1..]);
    }
  }

  lemma {:induction false} LowerAllNoUpper(s: string)
    ensures NoUpper(LowerAll(s)) && |LowerAll(s)| == |s|
  {
    if s != "" {
      LowerAllNoUpper(s[1..]);
    }
  }

  /** Lowering the capitalised words gives the words back. */
  lemma {:induction false} LowerOfTitle(words: seq<string>)
    requires forall i :: 0 <= i < |words| ==> NoUpper(words[i])
    ensures LowerAll(Join(CapitalizeAll(words), " ")) == Join(words, " ")
  {
    if words != [] {
      LowerOfCapitalized(words[0]);
      if |words| > 1 {
        var rest := Join(CapitalizeAll(words[1..]), " ");
        assert CapitalizeAll(words)[1..] == CapitalizeAll(words[1..]);
        LowerOfTitle(words[1..]);
        LowerConcat(Capitalize(words[0]) + " ", rest);
        LowerConcat(Capitalize(words[0]), " ");
        LowerOfLower(" ");
      }
    }
  }

  lemma {:induction false} WordsNoUpper(s: string)
    requires NoUpper(s)
    ensures forall i :: 0 <= i < |Words(s)| ==> NoUpper(Words(s)[i])
  {
    if s != "" {
      WordsNoUpper(s[1..]);
    }
  }

  lemma {:induction false} ReplaceNoUpper(s: string, c: char)
    requires NoUpper(s)
    ensures NoUpper(Replace(s, c, ' '))
  {
    if s != "" {
      ReplaceNoUpper(s[1..], c);
    }
  }

  lemma {:induction false} NothingReplaced(s: string, c: char)
    requires c !in s
    ensures Replace(s, c, ' ') == s
  {
    if s != "" {
      NothingReplaced(s[1..], c);
      assert [s[0]] + s[1..] == s;
    }
  }

  lemma {:induction false} ReplacedAll(s: string, c: char)
    requires '_' !in s
    ensures '_' !in Replace(s, c, ' ')
  {
    if s != "" {
      ReplacedAll(s[1..], c);
    }
  }

  /** For every slug, the title made from it is its words, each capitalised, and it has that slug. */
  lemma TitleHasItsSlug(slug: string)
    requires slug != "" && IsSlug(slug)
    ensures TitleFromSlug(slug) == Join(CapitalizeAll(Words(Replace(slug, '-', ' '))), " ")
    ensures Slugify(TitleFromSlug(slug)) == slug
  {
    var words := Replace(slug, '-', ' ');
    assert forall i :: 0 <= i < |slug| && SlugCharAt(slug, i) ==> !IsUpper(slug[i]) && slug[i] != '_';
    ReplacedAll(slug, '-');
    NothingReplaced(words, '_');
    ReplaceNoUpper(slug, '-');
    WordsNoUpper(words);
    LowerOfTitle(Words(words));
    TitleScans(slug, words, Join(CapitalizeAll(Words(words)), " "));
  }

  lemma TitleScans(slug: string, words: string, title: string)
    requires slug != "" && IsSlug(slug) && words == Replace(slug, '-', ' ') == Replace(Replace(slug, '-', ' '), '_', ' ')
    requires LowerAll(title) == Collapse(words) && title == Join(CapitalizeAll(Words(words)), " ")
    ensures TitleFromSlug(slug) == title && Slugify(title) == slug
  {
    ScanLowered(title, false, false);
    ScanCollapse(words, false, false);
    ScanReplaceSpace(slug, '-', false, false);
    SlugifyIsScan(slug);
    SlugifyNormalForm(slug);
    SlugifyIsScan(title);
    assert Scan("", false, false) == "";
    assert title != "";
  }

  /** A page that is compiled without a title keeps the one it has, and a new one gets a title that
      leads back to its slug. */
  lemma UntitledPageIsFound(db: Db, tenant: string, slug: string, fallback: Option<string>)
    requires slug != "" && IsSlug(slug) && (fallback == None || fallback == Some(""))
    ensures var title := ResolvePageTitle(db, tenant, slug, fallback);
            match FindPage(db.pages, tenant, slug)
            case Some(p) => title == db.pages[p].title
            case None => title == TitleFromSlug(slug) && Slugify(title) == slug
  {
    TitleHasItsSlug(slug);
  }
}
