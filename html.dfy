/** The client's `escapeHtml` (static/script.js): assigning a string to a
    fresh element's `textContent` and reading back `innerHTML` yields the
    "escaping a string" algorithm of section 13.3 (Serializing HTML
    fragments) of the WHATWG HTML Living Standard, in its text (not
    attribute) mode. */
module Html {

  const NoBreakSpace: char := '\U{00A0}'

  predicate StartsWith(s: string, prefix: string) {
    |prefix| <= |s| && s[..|prefix|] == prefix
  }

  /** One of the four character references the text-mode escape produces
      begins at index i of s. */
  predicate EntityAt(s: string, i: nat)
    requires i <= |s|
  {
    StartsWith(s[i..], "&amp;") || StartsWith(s[i..], "&nbsp;")
    || StartsWith(s[i..], "&lt;") || StartsWith(s[i..], "&gt;")
  }

  /** Markup-free text: no raw `<`, `>` or no-break space, and every `&`
      begins a character reference. */
  predicate Neutral(s: string) {
    forall i :: 0 <= i < |s| ==>
      s[i] != '<' && s[i] != '>' && s[i] != NoBreakSpace && (s[i] == '&' ==> EntityAt(s, i))
  }

  function EscapeChar(c: char): string {
    if c == '&' then "&amp;"
    else if c == NoBreakSpace then "&nbsp;"
    else if c == '<' then "&lt;"
    else if c == '>' then "&gt;"
    else [c]
  }

  function EscapeText(s: string): string
    decreases |s|
  {
    if s == [] then [] else EscapeChar(s[0]) + EscapeText(s[1..])
  }

  /** Decoding of the four character references, the inverse of the escape. */
  function UnescapeText(s: string): string
    decreases |s|
  {
    if s == [] then []
    else if StartsWith(s, "&amp;") then ['&'] + UnescapeText(s[5..])
    else if StartsWith(s, "&nbsp;") then [NoBreakSpace] + UnescapeText(s[6..])
    else if StartsWith(s, "&lt;") then ['<'] + UnescapeText(s[4..])
    else if StartsWith(s, "&gt;") then ['>'] + UnescapeText(s[4..])
    else [s[0]] + UnescapeText(s[1..])
  }

  lemma EscapeCharIsNeutral(c: char)
    ensures Neutral(EscapeChar(c))
  {
    var e := EscapeChar(c);
    if c == '&' || c == NoBreakSpace || c == '<' || c == '>' {
      assert e[0..] == e;
      assert EntityAt(e, 0);
    }
  }

  /** A reference at index i of a stays one when text follows. */
  lemma EntityAtAppend(a: string, b: string, i: nat)
    requires i < |a| && EntityAt(a, i)
    ensures EntityAt(a + b, i)
  {
    var s := a + b;
    assert s[i..] == a[i..] + b;
    forall p: string | StartsWith(a[i..], p)
      ensures StartsWith(s[i..], p)
    {
      assert s[i..][..|p|] == a[i..][..|p|];
    }
  }

  /** A reference at index i of b stays one when text precedes. */
  lemma EntityAtPrepend(a: string, b: string, i: nat)
    requires i < |b| && EntityAt(b, i)
    ensures EntityAt(a + b, |a| + i)
  {
    assert (a + b)[|a| + i..] == b[i..];
  }

  lemma NeutralConcat(a: string, b: string)
    requires Neutral(a) && Neutral(b)
    ensures Neutral(a + b)
  {
    var s := a + b;
    forall i | 0 <= i < |s| && s[i] == '&'
      ensures EntityAt(s, i)
    {
      if i < |a| {
        assert a[i] == '&';
        EntityAtAppend(a, b, i);
      } else {
        assert b[i - |a|] == '&';
        EntityAtPrepend(a, b, i - |a|);
      }
    }
  }

  /** The escaped text contains no markup. */
  lemma {:induction false} EscapeIsNeutral(s: string)
    ensures Neutral(EscapeText(s))
    decreases |s|
  {
    if s != [] {
      EscapeCharIsNeutral(s[0]);
      EscapeIsNeutral(s[1..]);
      NeutralConcat(EscapeChar(s[0]), EscapeText(s[1..]));
    }
  }

  lemma UnescapeAmp(t: string)
    ensures UnescapeText("&amp;" + t) == ['&'] + UnescapeText(t)
  {
    var s := "&amp;" + t;
    assert StartsWith(s, "&amp;") && s[5..] == t;
  }

  lemma UnescapeNbsp(t: string)
    ensures UnescapeText("&nbsp;" + t) == [NoBreakSpace] + UnescapeText(t)
  {
    var s := "&nbsp;" + t;
    assert s[1] == 'n';
    assert !StartsWith(s, "&amp;");
    assert StartsWith(s, "&nbsp;") && s[6..] == t;
  }

  lemma UnescapeLt(t: string)
    ensures UnescapeText("&lt;" + t) == ['<'] + UnescapeText(t)
  {
    var s := "&lt;" + t;
    assert s[1] == 'l';
    assert !StartsWith(s, "&amp;") && !StartsWith(s, "&nbsp;");
    assert StartsWith(s, "&lt;") && s[4..] == t;
  }

  lemma UnescapeGt(t: string)
    ensures UnescapeText("&gt;" + t) == ['>'] + UnescapeText(t)
  {
    var s := "&gt;" + t;
    assert s[1] == 'g';
    assert !StartsWith(s, "&amp;") && !StartsWith(s, "&nbsp;") && !StartsWith(s, "&lt;");
    assert StartsWith(s, "&gt;") && s[4..] == t;
  }

  lemma UnescapePlain(c: char, t: string)
    requires c != '&'
    ensures UnescapeText([c] + t) == [c] + UnescapeText(t)
  {
    var s := [c] + t;
    assert s[0] == c && s[1..] == t;
    assert !StartsWith(s, "&amp;") && !StartsWith(s, "&nbsp;");
    assert !StartsWith(s, "&lt;") && !StartsWith(s, "&gt;");
  }

  lemma UnescapeEscapeChar(c: char, t: string)
    ensures UnescapeText(EscapeChar(c) + t) == [c] + UnescapeText(t)
  {
    if c == '&' {
      UnescapeAmp(t);
    } else if c == NoBreakSpace {
      UnescapeNbsp(t);
    } else if c == '<' {
      UnescapeLt(t);
    } else if c == '>' {
      UnescapeGt(t);
    } else {
      UnescapePlain(c, t);
    }
  }

  /** Escaping loses nothing: decoding the references gives the text back. */
  lemma {:induction false} EscapeRoundTrip(s: string)
    ensures UnescapeText(EscapeText(s)) == s
    decreases |s|
  {
    if s != [] {
      UnescapeEscapeChar(s[0], EscapeText(s[1..]));
      EscapeRoundTrip(s[1..]);
    }
  }
}
