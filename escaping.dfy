/** XML text escaping as done by `xml.sax.saxutils.escape` with no extra
    entities, its inverse, and the CDATA element builder of the converter. */
module Escaping {

  function EscapeChar(c: char): string {
    if c == '&' then "&amp;"
    else if c == '<' then "&lt;"
    else if c == '>' then "&gt;"
    else [c]
  }

  /** `escape(s)`: replaces `&`, then `>`, then `<` by their entities. Replacing
      `&` first means no entity is escaped twice, so the three passes equal one
      left-to-right pass replacing each character by its entity. */
  function Escape(s: string): (r: string)
    ensures '<' !in r && '>' !in r
    ensures '&' !in s && '<' !in s && '>' !in s ==> r == s
    ensures |r| >= |s|
  {
    if s == [] then [] else EscapeChar(s[0]) + Escape(s[1..])
  }

  /** Entity decoding as an XML reader does it for `&amp;`, `&lt;` and `&gt;`;
      any other character is kept. */
  function Unescape(s: string): string
    decreases |s|
  {
    if s == [] then []
    else if |s| >= 5 && s[..5] == "&amp;" then "&" + Unescape(s[5..])
    else if |s| >= 4 && s[..4] == "&lt;" then "<" + Unescape(s[4..])
    else if |s| >= 4 && s[..4] == "&gt;" then ">" + Unescape(s[4..])
    else [s[0]] + Unescape(s[1..])
  }

  lemma UnescapeAmp(rest: string)
    ensures Unescape("&amp;" + rest) == "&" + Unescape(rest)
  {
    var e := "&amp;" + rest;
    assert e[..5] == "&amp;" && e[5..] == rest;
  }

  /** `&lt;` and `&gt;`: the four-character entities, told apart by their
      second character. */
  lemma UnescapeAngle(c: char, rest: string)
    requires c == '<' || c == '>'
    ensures Unescape(EscapeChar(c) + rest) == [c] + Unescape(rest)
  {
    var e := EscapeChar(c) + rest;
    assert e[1] == (if c == '<' then 'l' else 'g');
    assert e[..4] == EscapeChar(c) && e[4..] == rest;
  }

  lemma UnescapePlain(c: char, rest: string)
    requires c != '&'
    ensures Unescape([c] + rest) == [c] + Unescape(rest)
  {
    var e := [c] + rest;
    assert e[0] == c && e[1..] == rest;
  }

  /** Decoding an escaped character and then the rest. */
  lemma UnescapeStep(c: char, rest: string)
    ensures Unescape(EscapeChar(c) + rest) == [c] + Unescape(rest)
  {
    if c == '&' {
      UnescapeAmp(rest);
    } else if c == '<' || c == '>' {
      UnescapeAngle(c, rest);
    } else {
      UnescapePlain(c, rest);
    }
  }

  /** Decoding `&amp;`, `&lt;` and `&gt;` undoes `escape`: no character is lost
      or confused with another by escaping. */
  lemma {:induction false} UnescapeEscape(s: string)
    ensures Unescape(Escape(s)) == s
  {
    if s != [] {
      UnescapeEscape(s[1..]);
      UnescapeStep(s[0], Escape(s[1..]));
      assert s == [s[0]] + s[1..];
    }
  }

  /** `create_cdata_element(tag, content)`: `<tag><![CDATA[content]]></tag>`. */
  function CdataElement(tag: string, content: string): (r: string)
    ensures |r| == 2 * |tag| + |content| + 17
    ensures r[..|tag| + 11] == "<" + tag + "><![CDATA["
    ensures r[|tag| + 11..|tag| + 11 + |content|] == content
    ensures r[|tag| + 11 + |content|..] == "]]></" + tag + ">"
  {
    "<" + tag + "><![CDATA[" + content + "]]></" + tag + ">"
  }

  /** `]]>` starts at position `i` of `s`. */
  predicate CdataEndAt(s: string, i: int) {
    0 <= i <= |s| - 3 && s[i] == ']' && s[i + 1] == ']' && s[i + 2] == '>'
  }

  /** With escaped content, the CDATA section opened by `CdataElement` closes
      exactly where the content ends: no `]]>` starts inside the content, so the
      text between the markers is the escaped text. */
  lemma CdataClosesAfterEscapedText(tag: string, s: string)
    ensures var r := CdataElement(tag, Escape(s));
            var start := |tag| + 11;
            CdataEndAt(r, start + |Escape(s)|) &&
            forall i :: start <= i < start + |Escape(s)| ==> !CdataEndAt(r, i)
  {
    var e := Escape(s);
    var r := CdataElement(tag, e);
    var start := |tag| + 11;
    var tail := r[start + |e|..];
    assert tail[0] == ']' && tail[1] == ']' && tail[2] == '>';
    forall i | start <= i < start + |e| ensures !CdataEndAt(r, i) {
      if i + 2 < start + |e| {
        assert r[i + 2] == e[i + 2 - start];
      } else {
        assert r[i + 2] == tail[i + 2 - start - |e|];
      }
    }
  }
}
