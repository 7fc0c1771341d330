/** What `trim`, `toLowerCase` and `slugify` keep of a text. */
module SlugLaws {
  import opened Slugs

  /** The white space of ECMAScript: WhiteSpace and LineTerminator of section 12. */
  lemma SpacesAre(c: char)
    ensures IsSpace(c) <==> c in [
              '\U{0009}', '\U{000A}', '\U{000B}', '\U{000C}', '\U{000D}', '\U{0020}', '\U{00A0}', '\U{1680}',
              '\U{2000}', '\U{2001}', '\U{2002}', '\U{2003}', '\U{2004}', '\U{2005}', '\U{2006}', '\U{2007}',
              '\U{2008}', '\U{2009}', '\U{200A}', '\U{2028}', '\U{2029}', '\U{202F}', '\U{205F}', '\U{3000}', '\U{FEFF}']
  {
  }

  predicate AllSpace(s: string) {
    forall i :: 0 <= i < |s| ==> IsSpace(s[i])
  }

  lemma {:induction false} TrimStartMeaning(s: string) returns (k: nat)
    ensures k <= |s| && TrimStart(s) == s[k..] && AllSpace(s[..k])
    ensures k < |s| ==> !IsSpace(s[k])
  {
    if s != "" && IsSpace(s[0]) {
      var j := TrimStartMeaning(s[1..]);
      k := j + 1;
      assert s[1..][j..] == s[k..] && s[..k] == [s[0]] + s[1..][..j];
    } else {
      k := 0;
    }
  }

  lemma {:induction false} TrimEndMeaning(s: string) returns (k: nat)
    ensures k <= |s| && TrimEnd(s) == s[..k] && AllSpace(s[k..])
    ensures k > 0 ==> !IsSpace(s[k - 1])
  {
    var n := |s|;
    if s != "" && IsSpace(s[n - 1]) {
      k := TrimEndMeaning(s[..n - 1]);
      assert s[..n - 1][..k] == s[..k] && s[k..] == s[..n - 1][k..] + [s[n - 1]];
    } else {
      k := n;
    }
  }

  /** Trimming takes white space off both ends, all of it, and nothing else. */
  lemma {:induction false} TrimMeaning(s: string) returns (before: string, after: string)
    ensures s == before + Trim(s) + after && AllSpace(before) && AllSpace(after)
    ensures Trim(s) != "" ==> !IsSpace(Trim(s)[0]) && !IsSpace(Trim(s)[|Trim(s)| - 1])
  {
    var j := TrimStartMeaning(s);
    var rest := s[j..];
    var k := TrimEndMeaning(rest);
    before, after := s[..j], rest[k..];
    assert s == s[..j] + s[j..] && rest == rest[..k] + rest[k..];
  }

  // ----- The words of a slug -------------------------------------------------------------------

  /** The maximal runs of letters and digits; `word` is the one being read. */
  function Words(s: string, word: string): seq<string> {
    if s == "" then (if word == "" then [] else [word])
    else if 'a' <= s[0] <= 'z' || '0' <= s[0] <= '9' then Words(s[1..], word + [s[0]])
    else (if word == "" then [] else [word]) + Words(s[1..], "")
  }

  function Dashes(words: seq<string>): string {
    if words == [] then ""
    else if |words| == 1 then words[0]
    else words[0] + "-" + Dashes(words[1..])
  }

  /** The dashed text without a dash at its end. */
  function Unended(t: string): string {
    if t != "" && t[|t| - 1] == '-' then t[..|t| - 1] else t
  }

  lemma {:induction false} WordsNonEmpty(s: string, word: string)
    ensures forall i :: 0 <= i < |Words(s, word)| ==> Words(s, word)[i] != ""
    decreases |s|
  {
    if s != "" {
      if 'a' <= s[0] <= 'z' || '0' <= s[0] <= '9' {
        WordsNonEmpty(s[1..], word + [s[0]]);
      } else {
        WordsNonEmpty(s[1..], "");
      }
    }
  }

  lemma {:induction false} DashesCons(word: string, words: seq<string>)
    ensures Dashes([word] + words) == if words == [] then word else word + "-" + Dashes(words)
  {
    assert ([word] + words)[1..] == words;
  }

  lemma {:induction false} UnendedConcat(a: string, b: string)
    requires b != ""
    ensures Unended(a + b) == a + Unended(b)
  {
  }

  lemma {:induction false} LetterStep(s: string, word: string)
    requires s != "" && IsAlnum(s[0])
    ensures word + Dashed(s, false) == (word + [s[0]]) + Dashed(s[1..], false)
    ensures Dashed(s, true) == [s[0]] + Dashed(s[1..], false)
    ensures Words(s, word) == Words(s[1..], word + [s[0]])
  {
    assert word + ([s[0]] + Dashed(s[1..], false)) == (word + [s[0]]) + Dashed(s[1..], false);
  }

  lemma {:induction false} GapStep(s: string)
    requires s != "" && !IsAlnum(s[0])
    ensures Dashed(s, true) == Dashed(s[1..], true) && Words(s, "") == Words(s[1..], "")
  {
  }

  lemma {:induction false} NothingLeft(word: string)
    requires word != "" ==> word[|word| - 1] != '-'
    ensures Unended(word + Dashed("", false)) == Dashes(Words("", word)) && Unended(Dashed("", true)) == Dashes(Words("", ""))
  {
    assert word + "" == word && |[word]| == 1;
  }

  /** Reading on inside a word, or after a dash: the dashed text is the words joined. */
  lemma {:induction false} DashedIsWords(s: string, word: string)
    requires word != "" ==> word[|word| - 1] != '-'
    ensures if word != "" then Unended(word + Dashed(s, false)) == Dashes(Words(s, word))
            else Unended(Dashed(s, true)) == Dashes(Words(s, ""))
    decreases |s|
  {
    hide Dashed, Words, Unended, Dashes;
    if s == "" {
      NothingLeft(word);
    } else if IsAlnum(s[0]) {
      LetterStep(s, word);
      DashedIsWords(s[1..], word + [s[0]]);
      assert "" + [s[0]] == [s[0]];
    } else {
      DashedIsWords(s[1..], "");
      GapStep(s);
      if word != "" {
        EndOfWord(s, word);
      }
    }
  }

  /** A word, a dash, and what the rest of the text becomes. */
  lemma {:induction false} EndOfWord(s: string, word: string)
    requires s != "" && !IsAlnum(s[0]) && word != ""
    requires Unended(Dashed(s[1..], true)) == Dashes(Words(s[1..], ""))
    ensures Unended(word + Dashed(s, false)) == Dashes(Words(s, word))
  {
    var rest, words := Dashed(s[1..], true), Words(s[1..], "");
    DashesCons(word, words);
    WordsNonEmpty(s[1..], "");
    DashedIsSingle(s[1..], true);
    assert word + Dashed(s, false) == word + "-" + rest;
    NoWordsNoText(words);
    if rest == "" {
      assert (word + "-")[..|word|] == word;
    } else {
      UnendedConcat(word + "-", rest);
      assert Unended(rest) != "";
    }
  }

  lemma NoWordsNoText(words: seq<string>)
    requires forall i :: 0 <= i < |words| ==> words[i] != ""
    ensures Dashes(words) == "" <==> words == []
  {
  }

  /** Trimming first makes no difference: white space belongs to no word. */
  lemma {:induction false} SpaceBefore(a: string, s: string)
    requires AllSpace(a)
    ensures Words(a + s, "") == Words(s, "")
  {
    if a == "" {
      assert a + s == s;
    } else {
      assert (a + s)[1..] == a[1..] + s && IsSpace(a[0]);
      SpaceBefore(a[1..], s);
    }
  }

  lemma {:induction false} SpaceAfter(s: string, b: string, word: string)
    requires AllSpace(b)
    ensures Words(s + b, word) == Words(s, word)
    decreases |s|
  {
    if s == "" {
      assert s + b == b;
      OnlySpace(b, word);
    } else {
      assert (s + b)[1..] == s[1..] + b;
      SpaceAfter(s[1..], b, if 'a' <= s[0] <= 'z' || '0' <= s[0] <= '9' then word + [s[0]] else "");
    }
  }

  lemma {:induction false} OnlySpace(b: string, word: string)
    requires AllSpace(b)
    ensures Words(b, word) == if word == "" then [] else [word]
  {
    if b != "" {
      assert IsSpace(b[0]);
      OnlySpace(b[1..], "");
    }
  }

  /** A slug is the text's words in lower case, in order, joined by single dashes. */
  lemma {:induction false} SlugifyIsWords(s: string)
    ensures Slugify(s) == Dashes(Words(Lower(s), ""))
  {
    var low := Lower(s);
    var text := Trim(low);
    var before, after := TrimMeaning(low);
    assert low == before + (text + after);
    SpaceBefore(before, text + after);
    SpaceAfter(text, after, "");
    StripIsUnended(text);
    DashedIsWords(text, "");
  }

  /** A name with no word in it gets the slug `product`. */
  lemma {:induction false} BaseSlugIsWords(name: string)
    ensures BaseSlug(name) == if Words(Lower(name), "") == [] then "product" else Dashes(Words(Lower(name), ""))
  {
    SlugifyIsWords(name);
    WordsNonEmpty(Lower(name), "");
    NoWordsNoText(Words(Lower(name), ""));
  }

  /** Without its leading dash the dashed text is what is read after a dash. */
  lemma {:induction false} StripIsUnended(s: string)
    ensures StripDashes(Dashed(s, false)) == Unended(Dashed(s, true))
  {
    DashedIsSingle(s, true);
    if s != "" && !IsAlnum(s[0]) {
      assert Dashed(s, false) == "-" + Dashed(s[1..], true);
      assert Dashed(s, false)[1..] == Dashed(s[1..], true);
    }
  }

  lemma {:induction false} LowerMeaning(s: string)
    ensures |Lower(s)| == |s|
    ensures forall i :: 0 <= i < |s| ==>
              Lower(s)[i] == if 'A' <= s[i] <= 'Z' then (s[i] as int + 32) as char else s[i]
  {
    if s != "" {
      LowerMeaning(s[1..]);
      assert forall i :: 0 < i < |s| ==> Lower(s)[i] == Lower(s[1..])[i - 1] && s[i] == s[1..][i - 1];
    }
  }
}
