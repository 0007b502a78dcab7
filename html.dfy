/** The two HTML escapers of the vanilla pages (`escapeHtml` in script.js
    and admin.js, `escapeAttr` in admin.js), and a decoder for the five
    character references they emit, used to state what escaping preserves. */
module Html {
  import opened Js

  /** The characters `escapeHtml` rewrites. */
  predicate IsSpecial(c: char) {
    c == '&' || c == '<' || c == '>' || c == '"' || c == '\''
  }

  /** The replacement `escapeHtml` writes for one character. */
  function HtmlEntity(c: char): (e: string)
    ensures !IsSpecial(c) ==> e == [c]
    ensures IsSpecial(c) ==> |e| > 1 && e[0] == '&'
  {
    match c
    case '&' => "&amp;"
    case '<' => "&lt;"
    case '>' => "&gt;"
    case '"' => "&quot;"
    case '\'' => "&#39;"
    case _ => [c]
  }

  /** `s.replace(/[&<>"']/g, ...)`: each character replaced by its entity. */
  function EscapeText(s: string): (r: string)
    ensures forall i :: 0 <= i < |r| ==> r[i] != '<' && r[i] != '>' && r[i] != '"' && r[i] != '\''
    ensures |r| >= |s|
  {
    if s == [] then [] else HtmlEntity(s[0]) + EscapeText(s[1..])
  }

  /** `escapeHtml(s)`: a missing or empty argument gives the empty string. */
  function EscapeHtml(v: Field): (r: string)
    ensures !Truthy(v) ==> r == ""
    ensures Truthy(v) ==> r == EscapeText(v.value)
  {
    EscapeText(OrElse(v, ""))
  }

  /** Escaping distributes over concatenation. */
  lemma {:induction false} EscapeTextAppend(a: string, b: string)
    ensures EscapeText(a + b) == EscapeText(a) + EscapeText(b)
  {
    if a == [] {
      assert a + b == b;
    } else {
      assert (a + b)[0] == a[0];
      assert (a + b)[1..] == a[1..] + b;
      EscapeTextAppend(a[1..], b);
      assert EscapeText(a + b) == HtmlEntity(a[0]) + (EscapeText(a[1..]) + EscapeText(b));
    }
  }

  /** `escapeHtml` works character by character, left to right: escaping one
      more character appends exactly that character's entity. */
  lemma EscapeTextStep(s: string, i: nat)
    requires i < |s|
    ensures EscapeText(s[..i + 1]) == EscapeText(s[..i]) + HtmlEntity(s[i])
  {
    assert s[..i + 1] == s[..i] + [s[i]];
    EscapeTextAppend(s[..i], [s[i]]);
  }

  /** Text with none of the five characters is copied unchanged. */
  lemma {:induction false} EscapeTextOfPlain(s: string)
    requires forall i :: 0 <= i < |s| ==> !IsSpecial(s[i])
    ensures EscapeText(s) == s
  {
    if s != [] {
      EscapeTextOfPlain(s[1..]);
    }
  }

  // ---------------------------------------------------------------------
  // decoding of the five references

  /** Replaces `&amp; &lt; &gt; &quot; &#39;` by the characters they stand
      for, as an HTML parser does inside text and attribute values; every
      other character is copied. */
  function HtmlDecode(s: string): string
    decreases |s|
  {
    if s == [] then ""
    else if StartsWith(s, "&amp;") then "&" + HtmlDecode(s[5..])
    else if StartsWith(s, "&lt;") then "<" + HtmlDecode(s[4..])
    else if StartsWith(s, "&gt;") then ">" + HtmlDecode(s[4..])
    else if StartsWith(s, "&quot;") then "\"" + HtmlDecode(s[6..])
    else if StartsWith(s, "&#39;") then "'" + HtmlDecode(s[5..])
    else [s[0]] + HtmlDecode(s[1..])
  }

  /** A string is decoded as its first character first unless that
      character is `&`. */
  lemma DecodePlainHead(c: char, t: string)
    requires c != '&'
    ensures HtmlDecode([c] + t) == [c] + HtmlDecode(t)
  {
    var s := [c] + t;
    forall p: string | p != [] && p[0] == '&' ensures !StartsWith(s, p) {
    }
    assert s[1..] == t;
  }

  lemma DecodeEntityHead(c: char, t: string)
    ensures HtmlDecode(HtmlEntity(c) + t) == [c] + HtmlDecode(t)
  {
    var e := HtmlEntity(c);
    var s := e + t;
    if IsSpecial(c) {
      assert s[..|e|] == e;
      assert s[|e|..] == t;
      assert forall i :: 0 <= i < |e| ==> s[i] == e[i];
      if c != '&' {
        assert s[1] != 'a';
        assert !StartsWith(s, "&amp;");
      }
      if c != '&' && c != '<' {
        assert !StartsWith(s, "&lt;");
      }
      if c == '"' || c == '\'' {
        assert !StartsWith(s, "&gt;");
      }
      if c == '\'' {
        assert !StartsWith(s, "&quot;");
      }
    } else {
      DecodePlainHead(c, t);
    }
  }

  /** Decoding undoes `escapeHtml`: text escaped into a table cell reads back,
      as the cell's text, exactly as it was. */
  lemma {:induction false} DecodeEscapeText(s: string)
    ensures HtmlDecode(EscapeText(s)) == s
  {
    if s != [] {
      DecodeEntityHead(s[0], EscapeText(s[1..]));
      DecodeEscapeText(s[1..]);
      assert s == [s[0]] + s[1..];
    }
  }

  // ---------------------------------------------------------------------
  // escapeAttr, as written and corrected

  /** The replacement admin.js's `escapeAttr` writes: only the two quotes. */
  function AttrEntity(c: char): (e: string)
    ensures c == '"' ==> e == "&quot;"
    ensures c == '\'' ==> e == "&#39;"
    ensures c != '"' && c != '\'' ==> e == [c]
  {
    match c
    case '"' => "&quot;"
    case '\'' => "&#39;"
    case _ => [c]
  }

  function EscapeAttrText(s: string): (r: string)
    ensures forall i :: 0 <= i < |r| ==> r[i] != '"' && r[i] != '\''
  {
    if s == [] then [] else AttrEntity(s[0]) + EscapeAttrText(s[1..])
  }

  /** `escapeAttr(s)` as written in admin.js. */
  function EscapeAttr(v: Field): (r: string)
    ensures !Truthy(v) ==> r == ""
    ensures Truthy(v) ==> r == EscapeAttrText(v.value)
  {
    EscapeAttrText(OrElse(v, ""))
  }

  /** `escapeAttr` leaves `&`, `<` and `>` alone: text without quotes comes
      out unchanged. */
  lemma {:induction false} EscapeAttrOfUnquoted(s: string)
    requires forall i :: 0 <= i < |s| ==> s[i] != '"' && s[i] != '\''
    ensures EscapeAttrText(s) == s
  {
    if s != [] {
      EscapeAttrOfUnquoted(s[1..]);
    }
  }

  /** `escapeAttr` works character by character: escaping distributes over
      concatenation. */
  lemma {:induction false} EscapeAttrTextAppend(a: string, b: string)
    ensures EscapeAttrText(a + b) == EscapeAttrText(a) + EscapeAttrText(b)
  {
    if a == [] {
      assert a + b == b;
    } else {
      assert (a + b)[0] == a[0];
      assert (a + b)[1..] == a[1..] + b;
      EscapeAttrTextAppend(a[1..], b);
      assert EscapeAttrText(a + b) == AttrEntity(a[0]) + (EscapeAttrText(a[1..]) + EscapeAttrText(b));
    }
  }

  /** What `escapeAttr` does get right: text without `&` reads back from the
      attribute exactly as it was, the quotes included. */
  lemma {:induction false} DecodeEscapeAttr(s: string)
    requires forall i :: 0 <= i < |s| ==> s[i] != '&'
    ensures HtmlDecode(EscapeAttrText(s)) == s
  {
    if s != [] {
      var c, t := s[0], EscapeAttrText(s[1..]);
      if c == '"' || c == '\'' {
        assert AttrEntity(c) == HtmlEntity(c);
        DecodeEntityHead(c, t);
      } else {
        DecodePlainHead(c, t);
      }
      DecodeEscapeAttr(s[1..]);
      assert s == [c] + s[1..];
    }
  }

  /** A stored comment that reads `&amp;` is written into the `value`
      attribute as it is, and the browser reads it back as `&`: the value
      shown in the comment input is not the stored comment. */
  lemma EscapeAttrDoesNotRoundTrip()
    ensures EscapeAttr(Some("&amp;")) == "&amp;"
    ensures HtmlDecode(EscapeAttr(Some("&amp;"))) == "&"
  {
    EscapeAttrOfUnquoted("&amp;");
    assert "&amp;"[5..] == "";
  }

  /** The corrected replacement: `&` is escaped too. */
  function AttrEntityFixed(c: char): (e: string)
    ensures c == '&' ==> e == "&amp;"
    ensures c == '"' ==> e == "&quot;"
    ensures c == '\'' ==> e == "&#39;"
    ensures c != '&' && c != '"' && c != '\'' ==> e == [c]
  {
    match c
    case '&' => "&amp;"
    case '"' => "&quot;"
    case '\'' => "&#39;"
    case _ => [c]
  }

  function EscapeAttrFixedText(s: string): (r: string)
    ensures forall i :: 0 <= i < |r| ==> r[i] != '"' && r[i] != '\''
  {
    if s == [] then [] else AttrEntityFixed(s[0]) + EscapeAttrFixedText(s[1..])
  }

  /** `escapeAttr` corrected to escape `&` as well. */
  function EscapeAttrFixed(v: Field): (r: string)
    ensures !Truthy(v) ==> r == ""
    ensures Truthy(v) ==> r == EscapeAttrFixedText(v.value)
  {
    EscapeAttrFixedText(OrElse(v, ""))
  }

  /** The corrected `escapeAttr` round-trips: the browser reads back exactly
      the text that was escaped. */
  lemma {:induction false} DecodeEscapeAttrFixed(s: string)
    ensures HtmlDecode(EscapeAttrFixedText(s)) == s
  {
    if s != [] {
      var c, t := s[0], EscapeAttrFixedText(s[1..]);
      if c == '&' || c == '"' || c == '\'' {
        assert AttrEntityFixed(c) == HtmlEntity(c);
        DecodeEntityHead(c, t);
      } else {
        DecodePlainHead(c, t);
      }
      DecodeEscapeAttrFixed(s[1..]);
      assert s == [s[0]] + s[1..];
    }
  }
}
