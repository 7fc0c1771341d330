/** `escapeHtml`: five replacements one after another. */
module Escaping {
  function ReplaceAll(text: string, c: char, with: string): string {
    if text == "" then ""
    else (if text[0] == c then with else [text[0]]) + ReplaceAll(text[1..], c, with)
  }

  function EscapeHtml(text: string): string {
    var amp := ReplaceAll(text, '&', "&amp;");
    var lt := ReplaceAll(amp, '<', "&lt;");
    var gt := ReplaceAll(lt, '>', "&gt;");
    var quot := ReplaceAll(gt, '"', "&quot;");
    ReplaceAll(quot, '\'', "&#39;")
  }

  function Entity(c: char): string {
    match c
    case '&' => "&amp;"
    case '<' => "&lt;"
    case '>' => "&gt;"
    case '"' => "&quot;"
    case '\'' => "&#39;"
    case _ => [c]
  }

  function EscapeOnce(text: string): string {
    if text == "" then "" else Entity(text[0]) + EscapeOnce(text[1..])
  }

  predicate Starts(text: string, prefix: string) {
    |prefix| <= |text| && text[..|prefix|] == prefix
  }

  /** Reads the five entities back; any other character stands for itself. */
  function Unescape(text: string): string {
    if text == "" then ""
    else if Starts(text, "&amp;") then "&" + Unescape(text[5..])
    else if Starts(text, "&lt;") then "<" + Unescape(text[4..])
    else if Starts(text, "&gt;") then ">" + Unescape(text[4..])
    else if Starts(text, "&quot;") then "\"" + Unescape(text[6..])
    else if Starts(text, "&#39;") then "'" + Unescape(text[5..])
    else [text[0]] + Unescape(text[1..])
  }

  lemma {:induction false} ReplaceConcat(a: string, b: string, c: char, with: string)
    ensures ReplaceAll(a + b, c, with) == ReplaceAll(a, c, with) + ReplaceAll(b, c, with)
    ensures c !in a ==> ReplaceAll(a, c, with) == a
  {
    if a == "" {
      assert a + b == b;
    } else {
      ReplaceConcat(a[1..], b, c, with);
      assert (a + b)[1..] == a[1..] + b;
      assert ReplaceAll(a + b, c, with) == (if a[0] == c then with else [a[0]]) + (ReplaceAll(a[1..], c, with) + ReplaceAll(b, c, with));
    }
  }

  lemma {:induction false} EscapeConcat(a: string, b: string)
    ensures EscapeHtml(a + b) == EscapeHtml(a) + EscapeHtml(b)
  {
    var a1, b1 := ReplaceAll(a, '&', "&amp;"), ReplaceAll(b, '&', "&amp;");
    var a2, b2 := ReplaceAll(a1, '<', "&lt;"), ReplaceAll(b1, '<', "&lt;");
    var a3, b3 := ReplaceAll(a2, '>', "&gt;"), ReplaceAll(b2, '>', "&gt;");
    var a4, b4 := ReplaceAll(a3, '"', "&quot;"), ReplaceAll(b3, '"', "&quot;");
    ReplaceConcat(a, b, '&', "&amp;");
    ReplaceConcat(a1, b1, '<', "&lt;");
    ReplaceConcat(a2, b2, '>', "&gt;");
    ReplaceConcat(a3, b3, '"', "&quot;");
    ReplaceConcat(a4, b4, '\'', "&#39;");
  }

  lemma ReplaceOne(d: char, c: char, with: string)
    ensures ReplaceAll([d], c, with) == if d == c then with else [d]
  {
    assert ReplaceAll([d], c, with) == (if d == c then with else [d]) + ReplaceAll([], c, with);
  }

  /** What one pass does to a text that lacks `c` or is just `c`. */
  predicate Pass(text: string, c: char, with: string, out: string) {
    (c !in text && out == text) || (text == [c] && out == with)
  }

  lemma {:induction false} PassIsReplace(text: string, c: char, with: string, out: string)
    requires Pass(text, c, with, out)
    ensures ReplaceAll(text, c, with) == out
  {
    if c !in text {
      ReplaceConcat(text, "", c, with);
    } else {
      ReplaceOne(c, c, with);
    }
  }

  lemma {:induction false} FivePasses(c: char, s1: string, s2: string, s3: string, s4: string, s5: string)
    requires Pass([c], '&', "&amp;", s1) && Pass(s1, '<', "&lt;", s2) && Pass(s2, '>', "&gt;", s3)
    requires Pass(s3, '"', "&quot;", s4) && Pass(s4, '\'', "&#39;", s5)
    ensures EscapeHtml([c]) == s5
  {
    PassIsReplace([c], '&', "&amp;", s1);
    PassIsReplace(s1, '<', "&lt;", s2);
    PassIsReplace(s2, '>', "&gt;", s3);
    PassIsReplace(s3, '"', "&quot;", s4);
    PassIsReplace(s4, '\'', "&#39;", s5);
  }

  lemma {:induction false} EscapeOneChar(c: char)
    ensures EscapeHtml([c]) == Entity(c)
  {
    var e := Entity(c);
    match c {
      case '&' => FivePasses(c, e, e, e, e, e);
      case '<' => FivePasses(c, [c], e, e, e, e);
      case '>' => FivePasses(c, [c], [c], e, e, e);
      case '"' => FivePasses(c, [c], [c], [c], e, e);
      case _ => FivePasses(c, [c], [c], [c], [c], e);
    }
  }

  /** The five passes are one simultaneous substitution. */
  lemma {:induction false} FivePassesAreOne(text: string)
    ensures EscapeHtml(text) == EscapeOnce(text)
  {
    if text != "" {
      FivePassesAreOne(text[1..]);
      assert text == [text[0]] + text[1..];
      EscapeConcat([text[0]], text[1..]);
      EscapeOneChar(text[0]);
    }
  }

  predicate Raw(c: char) {
    c == '<' || c == '>' || c == '"' || c == '\''
  }

  lemma {:induction false} EscapeOnceClean(text: string)
    ensures forall c :: c in EscapeOnce(text) ==> !Raw(c)
  {
    if text != "" {
      EscapeOnceClean(text[1..]);
    }
  }

  lemma StartsNot(text: string, prefix: string, i: nat)
    requires i < |prefix| && i < |text| && text[i] != prefix[i]
    ensures !Starts(text, prefix)
  {
    assert |prefix| <= |text| ==> text[..|prefix|][i] == text[i];
  }

  lemma {:induction false} UnescapePlain(c: char, rest: string)
    requires c != '&'
    ensures Unescape([c] + rest) == [c] + Unescape(rest)
  {
    var text := [c] + rest;
    assert text[1..] == rest;
    StartsNot(text, "&amp;", 0);
    StartsNot(text, "&lt;", 0);
    StartsNot(text, "&gt;", 0);
    StartsNot(text, "&quot;", 0);
    StartsNot(text, "&#39;", 0);
  }

  lemma {:induction false} UnescapeEntity(c: char, rest: string)
    ensures Unescape(Entity(c) + rest) == [c] + Unescape(rest)
  {
    var text := Entity(c) + rest;
    assert text[|Entity(c)|..] == rest;
    if |Entity(c)| == 1 {
      UnescapePlain(c, rest);
    } else {
      assert Starts(text, Entity(c));
      if c != '&' { StartsNot(text, "&amp;", 1); }
      if c != '<' { StartsNot(text, "&lt;", 1); }
      if c != '>' { StartsNot(text, "&gt;", 1); }
      if c != '"' { StartsNot(text, "&quot;", 1); }
    }
  }

  lemma {:induction false} UnescapeEscapeOnce(text: string)
    ensures Unescape(EscapeOnce(text)) == text
  {
    if text != "" {
      UnescapeEscapeOnce(text[1..]);
      UnescapeEntity(text[0], EscapeOnce(text[1..]));
      assert text == [text[0]] + text[1..];
    }
  }

  /** No raw markup character is left, and decoding gives the input back. */
  lemma EscapeIsSafeAndReversible(text: string)
    ensures forall c :: c in EscapeHtml(text) ==> !Raw(c)
    ensures Unescape(EscapeHtml(text)) == text
  {
    FivePassesAreOne(text);
    EscapeOnceClean(text);
    UnescapeEscapeOnce(text);
  }
}
