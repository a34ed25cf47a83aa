/**
 * `escapeHtml`: every one of eight markup-significant characters is replaced
 * by a fixed character reference and every other character is copied.  The
 * decoder `Unescape` reads those eight references back, and the lemmas show
 * that escaping is a per-character map that loses nothing and leaves no raw
 * markup character behind.
 */
module HtmlEscape {
  import opened Wrappers
  import opened Text

  /** The characters the escaper rewrites. */
  predicate IsSpecial(c: char)
  {
    c == '&' || c == '<' || c == '>' || c == '"' || c == '\'' || c == '`' || c == '=' || c == '/'
  }

  /** The special characters other than `&`: after escaping none of them is left at all. */
  predicate IsMarkup(c: char)
  {
    IsSpecial(c) && c != '&'
  }

  /** The replacement table. */
  function Entity(c: char): (e: string)
    requires IsSpecial(c)
    ensures 4 <= |e| <= 6 && e[0] == '&' && e[|e| - 1] == ';'
    ensures forall i :: 0 < i < |e| ==> e[i] != '&' && !IsMarkup(e[i])
  {
    match c
    case '&' => "&amp;"
    case '<' => "&lt;"
    case '>' => "&gt;"
    case '"' => "&quot;"
    case '\'' => "&#39;"
    case '`' => "&#96;"
    case '=' => "&#61;"
    case '/' => "&#47;"
  }

  function EscapeChar(c: char): (r: string)
    ensures IsSpecial(c) ==> r == Entity(c)
    ensures !IsSpecial(c) ==> r == [c]
    ensures forall i :: 0 <= i < |r| ==> !IsMarkup(r[i])
  {
    if IsSpecial(c) then Entity(c) else [c]
  }

  /**
   * `escapeHtml(text)`.  The empty string escapes to the empty string; a
   * non-empty one is its first character's replacement followed by the rest,
   * escaped, which is what a global regular-expression replace computes.
   */
  function EscapeHtml(text: string): (r: string)
    ensures text == [] ==> r == []
    ensures |r| >= |text|
  {
    if text == [] then [] else EscapeChar(text[0]) + EscapeHtml(text[1..])
  }

  /** No raw `<`, `>`, `"`, `'`, backquote, `=` or `/` survives escaping. */
  lemma {:induction false} EscapeNoMarkup(s: string)
    ensures forall i :: 0 <= i < |EscapeHtml(s)| ==> !IsMarkup(EscapeHtml(s)[i])
  {
    if s != [] {
      EscapeNoMarkup(s[1..]);
      var head, rest := EscapeChar(s[0]), EscapeHtml(s[1..]);
      assert EscapeHtml(s) == head + rest;
      forall i | 0 <= i < |EscapeHtml(s)|
        ensures !IsMarkup(EscapeHtml(s)[i])
      {
        if i >= |head| {
          assert EscapeHtml(s)[i] == rest[i - |head|];
        }
      }
    }
  }

  /** The special character whose reference `t` starts with, if any. */
  function EntityPrefix(t: string): (r: Option<char>)
    ensures r.Some? ==> IsSpecial(r.value) && IsPrefix(Entity(r.value), t)
    ensures t == [] || t[0] != '&' ==> r == None
  {
    if IsPrefix("&amp;", t) then Some('&')
    else if IsPrefix("&lt;", t) then Some('<')
    else if IsPrefix("&gt;", t) then Some('>')
    else if IsPrefix("&quot;", t) then Some('"')
    else if IsPrefix("&#39;", t) then Some('\'')
    else if IsPrefix("&#96;", t) then Some('`')
    else if IsPrefix("&#61;", t) then Some('=')
    else if IsPrefix("&#47;", t) then Some('/')
    else None
  }

  /** No reference is a prefix of another, so the decoder recognises exactly the one that was written. */
  lemma EntityPrefixOf(c: char, rest: string)
    requires IsSpecial(c)
    ensures EntityPrefix(Entity(c) + rest) == Some(c)
  {
    var t := Entity(c) + rest;
    assert t[..|Entity(c)|] == Entity(c);
    assert t[0] == '&' && t[1] == Entity(c)[1] && t[2] == Entity(c)[2] && t[3] == Entity(c)[3];
  }

  /** Decodes the eight references and copies everything else. */
  function Unescape(t: string): (s: string)
    ensures |s| <= |t|
    decreases |t|
  {
    if t == [] then []
    else match EntityPrefix(t)
      case Some(c) => [c] + Unescape(t[|Entity(c)|..])
      case None => [t[0]] + Unescape(t[1..])
  }

  /** Escaping is a homomorphism on strings: it works character by character, in order. */
  lemma {:induction false} EscapeConcat(a: string, b: string)
    ensures EscapeHtml(a + b) == EscapeHtml(a) + EscapeHtml(b)
  {
    if a == [] {
      assert a + b == b;
    } else {
      assert (a + b)[0] == a[0];
      assert (a + b)[1..] == a[1..] + b;
      EscapeConcat(a[1..], b);
    }
  }

  /** Round trip: decoding the escaped text gives back the original. */
  lemma {:induction false} UnescapeEscape(s: string)
    ensures Unescape(EscapeHtml(s)) == s
  {
    if s != [] {
      var r := EscapeHtml(s);
      var rest := EscapeHtml(s[1..]);
      assert r == EscapeChar(s[0]) + rest;
      if IsSpecial(s[0]) {
        EntityPrefixOf(s[0], rest);
        assert r[|Entity(s[0])|..] == rest;
      } else {
        assert r[0] == s[0] && r[1..] == rest;
      }
      UnescapeEscape(s[1..]);
    }
  }

  lemma EscapeInjective(s: string, t: string)
    requires EscapeHtml(s) == EscapeHtml(t)
    ensures s == t
  {
    UnescapeEscape(s);
    UnescapeEscape(t);
  }

  /** Every `&` in escaped text is the start of one of the eight references. */
  lemma {:induction false} AmpersandBeginsEntity(s: string, i: nat)
    requires i < |EscapeHtml(s)| && EscapeHtml(s)[i] == '&'
    ensures EntityPrefix(EscapeHtml(s)[i..]).Some?
  {
    var head := EscapeChar(s[0]);
    var rest := EscapeHtml(s[1..]);
    assert EscapeHtml(s) == head + rest;
    if i < |head| {
      assert head[i] == '&';
      assert IsSpecial(s[0]) && i == 0;
      EntityPrefixOf(s[0], rest);
    } else {
      assert rest[i - |head|] == '&';
      AmpersandBeginsEntity(s[1..], i - |head|);
      assert EscapeHtml(s)[i..] == rest[i - |head|..];
    }
  }

  /** Escaping changes nothing exactly when there is nothing to escape; otherwise it lengthens the text. */
  lemma {:induction false} EscapeIdentityIff(s: string)
    ensures EscapeHtml(s) == s <==> forall i :: 0 <= i < |s| ==> !IsSpecial(s[i])
    ensures |EscapeHtml(s)| == |s| <==> forall i :: 0 <= i < |s| ==> !IsSpecial(s[i])
  {
    if s != [] {
      EscapeIdentityIff(s[1..]);
      assert forall i :: 1 <= i < |s| ==> s[i] == s[1..][i - 1];
      assert s == [s[0]] + s[1..];
    }
  }
}
