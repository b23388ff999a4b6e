/** The admin pages: escaping of what is shown. */
module Admin {
  import opened Text

  /** Three replacements, one after the other over the whole text. */
  function HtmlEscape(s: string): string {
    ReplaceAll(ReplaceAll(ReplaceAll(s, "&", "&amp;"), "<", "&lt;"), ">", "&gt;")
  }

  function Entity(c: char): string {
    match c
    case '&' => "&amp;"
    case '<' => "&lt;"
    case '>' => "&gt;"
    case _ => [c]
  }

  /** One pass: each character on its own. */
  function EscapeChars(s: string): string {
    if s == "" then "" else Entity(s[0]) + EscapeChars(s[1..])
  }

  lemma {:induction false} ReplaceConcat(a: string, b: string, c: char, with: string)
    ensures ReplaceAll(a + b, [c], with) == ReplaceAll(a, [c], with) + ReplaceAll(b, [c], with)
  {
    if a == "" {
      assert a + b == b;
    } else {
      assert (a + b)[1..] == a[1..] + b;
      ReplaceConcat(a[1..], b, c, with);
    }
  }

  lemma {:induction false} ReplaceChar(d: char, c: char, with: string)
    ensures ReplaceAll([d], [c], with) == if d == c then with else [d]
  {
    assert [d][1..] == "";
    assert [d][..1] == [d];
  }

  /** What the later replacements do to the entities of the earlier ones: nothing. */
  lemma {:induction false} EntitiesSurvive()
    ensures ReplaceAll("&amp;", "<", "&lt;") == "&amp;" && ReplaceAll("&amp;", ">", "&gt;") == "&amp;"
    ensures ReplaceAll("&lt;", ">", "&gt;") == "&lt;"
  {
    ReplaceNothing("&amp;", "<", "&lt;");
    ReplaceNothing("&amp;", ">", "&gt;");
    ReplaceNothing("&lt;", ">", "&gt;");
  }

  lemma {:induction false} EscapeOne(c: char)
    ensures HtmlEscape([c]) == Entity(c)
  {
    EntitiesSurvive();
    ReplaceChar(c, '&', "&amp;");
    if c != '&' {
      ReplaceChar(c, '<', "&lt;");
      if c != '<' {
        ReplaceChar(c, '>', "&gt;");
      }
    }
  }

  /** The three characters and what becomes of them. */
  lemma {:induction false} EscapesAre(c: char)
    ensures HtmlEscape("&") == "&amp;" && HtmlEscape("<") == "&lt;" && HtmlEscape(">") == "&gt;"
    ensures c !in "&<>" ==> HtmlEscape([c]) == [c]
  {
    EscapeOne('&');
    EscapeOne('<');
    EscapeOne('>');
    EscapeOne(c);
  }

  lemma {:induction false} EscapeConcat(a: string, b: string)
    ensures HtmlEscape(a + b) == HtmlEscape(a) + HtmlEscape(b)
  {
    ReplaceConcat(a, b, '&', "&amp;");
    var a1, b1 := ReplaceAll(a, "&", "&amp;"), ReplaceAll(b, "&", "&amp;");
    ReplaceConcat(a1, b1, '<', "&lt;");
    ReplaceConcat(ReplaceAll(a1, "<", "&lt;"), ReplaceAll(b1, "<", "&lt;"), '>', "&gt;");
  }

  /** The three sequential replacements are one substitution per character. */
  lemma {:induction false} EscapeIsPerCharacter(s: string)
    ensures HtmlEscape(s) == EscapeChars(s)
  {
    if s == "" {
    } else {
      assert s == [s[0]] + s[1..];
      EscapeConcat([s[0]], s[1..]);
      EscapeOne(s[0]);
      EscapeIsPerCharacter(s[1..]);
    }
  }

  predicate StartsEntity(s: string) {
    StartsWith(s, "&amp;") || StartsWith(s, "&lt;") || StartsWith(s, "&gt;")
  }

  /** Escaped text can stand between tags: it has no angle brackets, and every ampersand in
      it starts one of the three entities. */
  ghost predicate IsEscaped(s: string) {
    && '<' !in s && '>' !in s
    && forall i :: 0 <= i < |s| && s[i] == '&' ==> StartsEntity(s[i..])
  }

  lemma {:induction false} EntityThenEscaped(c: char, rest: string)
    requires IsEscaped(rest)
    ensures IsEscaped(Entity(c) + rest)
  {
    var s, n := Entity(c) + rest, |Entity(c)|;
    forall i | 0 <= i < |s| && s[i] == '&'
      ensures StartsEntity(s[i..])
    {
      if i >= n {
        assert s[i..] == rest[i - n..];
      } else {
        assert i == 0 && s[0..][..n] == Entity(c);
      }
    }
  }

  lemma {:induction false} EscapedIsSafe(s: string)
    ensures IsEscaped(HtmlEscape(s))
  {
    EscapeIsPerCharacter(s);
    EscapeCharsSafe(s);
  }

  lemma {:induction false} EscapeCharsSafe(s: string)
    ensures IsEscaped(EscapeChars(s))
  {
    if s == "" {
    } else {
      EscapeCharsSafe(s[1..]);
      EntityThenEscaped(s[0], EscapeChars(s[1..]));
    }
  }

  /** Reading entities back, left to right. */
  function Unescape(s: string): string {
    if s == "" then ""
    else if StartsWith(s, "&amp;") then "&" + Unescape(s[5..])
    else if StartsWith(s, "&lt;") then "<" + Unescape(s[4..])
    else if StartsWith(s, "&gt;") then ">" + Unescape(s[4..])
    else [s[0]] + Unescape(s[1..])
  }

  lemma {:induction false} UnescapeEntity(c: char, rest: string)
    ensures Unescape(Entity(c) + rest) == [c] + Unescape(rest)
  {
    var s, e := Entity(c) + rest, Entity(c);
    assert s[|e|..] == rest && s[..|e|] == e && s[0] == e[0];
    if c == '<' || c == '>' {
      assert |s| >= 5 ==> s[..5][1] == e[1];
      assert s[..4][1] == e[1];
    }
  }

  /** Nothing is lost: unescaping gives back the text. */
  lemma {:induction false} EscapeRoundTrip(s: string)
    ensures Unescape(HtmlEscape(s)) == s
  {
    EscapeIsPerCharacter(s);
    UnescapeChars(s);
  }

  lemma {:induction false} UnescapeChars(s: string)
    ensures Unescape(EscapeChars(s)) == s
  {
    if s == "" {
    } else {
      UnescapeChars(s[1..]);
      UnescapeEntity(s[0], EscapeChars(s[1..]));
    }
  }
}
