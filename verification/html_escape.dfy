/**
 * escapeHtml (js/main.js): every occurrence of the five characters & < > " '
 * is replaced by its HTML entity, everything else is copied unchanged.
 */
module HtmlEscape {
  import opened Text

  /** The characters matched by the class [&<>"']. */
  predicate IsSpecial(c: char) {
    c == '&' || c == '<' || c == '>' || c == '"' || c == '\''
  }

  /** The markup-significant characters that never survive escaping. */
  predicate IsMarkupChar(c: char) {
    c == '<' || c == '>' || c == '"' || c == '\''
  }

  /** The replacement the lookup table gives one character. */
  function EscapeChar(c: char): (e: string)
    ensures IsSpecial(c) ==> |e| >= 4 && e[0] == '&' && e[|e| - 1] == ';'
    ensures !IsSpecial(c) ==> e == [c]
  {
    if c == '&' then "&amp;"
    else if c == '<' then "&lt;"
    else if c == '>' then "&gt;"
    else if c == '"' then "&quot;"
    else if c == '\'' then "&#039;"
    else [c]
  }

  /** No entry of the table holds a markup character. */
  lemma EscapeCharNoMarkup(c: char)
    ensures forall i :: 0 <= i < |EscapeChar(c)| ==> !IsMarkupChar(EscapeChar(c)[i])
  {
  }

  /** escapeHtml: each character replaced by its entry in the table. */
  function Escape(s: string): string
    decreases |s|
  {
    if s == [] then [] else EscapeChar(s[0]) + Escape(s[1..])
  }

  /** None of < > " ' is left in the output. */
  lemma {:induction false} EscapeRemovesMarkup(s: string)
    ensures forall i :: 0 <= i < |Escape(s)| ==> !IsMarkupChar(Escape(s)[i])
    decreases |s|
  {
    if s != [] {
      EscapeRemovesMarkup(s[1..]);
      EscapeCharNoMarkup(s[0]);
      var e, rest := EscapeChar(s[0]), Escape(s[1..]);
      forall i | 0 <= i < |e + rest| ensures !IsMarkupChar((e + rest)[i]) {
        if i >= |e| {
          assert (e + rest)[i] == rest[i - |e|];
        }
      }
    }
  }

  /** Text with none of the five special characters is left as it is. */
  lemma {:induction false} EscapePlainUnchanged(s: string)
    requires forall i :: 0 <= i < |s| ==> !IsSpecial(s[i])
    ensures Escape(s) == s
    decreases |s|
  {
    if s != [] {
      EscapePlainUnchanged(s[1..]);
      assert [s[0]] + s[1..] == s;
    }
  }

  /** Escaping never shortens the text. */
  lemma {:induction false} EscapeLength(s: string)
    ensures |s| <= |Escape(s)|
    decreases |s|
  {
    if s != [] {
      EscapeLength(s[1..]);
    }
  }

  /** Escaping works one character at a time. */
  lemma {:induction false} EscapeConcat(a: string, b: string)
    ensures Escape(a + b) == Escape(a) + Escape(b)
    decreases |a|
  {
    if a == [] {
      assert a + b == b;
    } else {
      var e := EscapeChar(a[0]);
      TailOfConcat(a, b);
      EscapeConcat(a[1..], b);
      calc {
        Escape(a + b);
        e + Escape(a[1..] + b);
        e + (Escape(a[1..]) + Escape(b));
        { AppendAssoc(e, Escape(a[1..]), Escape(b)); }
        (e + Escape(a[1..])) + Escape(b);
        Escape(a) + Escape(b);
      }
    }
  }

  lemma AppendAssoc(x: string, y: string, z: string)
    ensures (x + y) + z == x + (y + z)
  {
  }

  lemma TailOfConcat(a: string, b: string)
    requires a != []
    ensures (a + b)[0] == a[0] && (a + b)[1..] == a[1..] + b
  {
  }

  /** A one-character string is replaced by exactly its entity, or copied. */
  lemma EscapeSingle(c: char)
    ensures Escape([c]) == EscapeChar(c)
  {
    assert [c][1..] == [];
  }

  /** Decoding of the five entities, used to show that escaping loses nothing. */
  function Unescape(s: string): string
    decreases |s|
  {
    if s == [] then []
    else if StartsWith(s, "&amp;") then "&" + Unescape(s[5..])
    else if StartsWith(s, "&lt;") then "<" + Unescape(s[4..])
    else if StartsWith(s, "&gt;") then ">" + Unescape(s[4..])
    else if StartsWith(s, "&quot;") then "\"" + Unescape(s[6..])
    else if StartsWith(s, "&#039;") then "'" + Unescape(s[6..])
    else [s[0]] + Unescape(s[1..])
  }

  lemma UnescapeStep(c: char, rest: string)
    ensures Unescape(EscapeChar(c) + rest) == [c] + Unescape(rest)
  {
    var e := EscapeChar(c);
    var s := e + rest;
    assert s[..|e|] == e;
    assert s[|e|..] == rest;
    if !IsSpecial(c) {
      assert s[0] == c;
      NotStartsWithOtherHead(s, "&amp;");
      NotStartsWithOtherHead(s, "&lt;");
      NotStartsWithOtherHead(s, "&gt;");
      NotStartsWithOtherHead(s, "&quot;");
      NotStartsWithOtherHead(s, "&#039;");
      assert s[1..] == rest;
    } else if c == '<' {
      assert !StartsWith(s, "&amp;") by { assert s[1] != "&amp;"[1]; }
    } else if c == '>' {
      assert !StartsWith(s, "&amp;") by { assert s[1] != "&amp;"[1]; }
      assert !StartsWith(s, "&lt;") by { assert s[1] != "&lt;"[1]; }
    } else if c == '"' {
      assert !StartsWith(s, "&amp;") by { assert s[1] != "&amp;"[1]; }
      assert !StartsWith(s, "&lt;") by { assert s[1] != "&lt;"[1]; }
      assert !StartsWith(s, "&gt;") by { assert s[1] != "&gt;"[1]; }
    } else if c == '\'' {
      assert !StartsWith(s, "&amp;") by { assert s[1] != "&amp;"[1]; }
      assert !StartsWith(s, "&lt;") by { assert s[1] != "&lt;"[1]; }
      assert !StartsWith(s, "&gt;") by { assert s[1] != "&gt;"[1]; }
      assert !StartsWith(s, "&quot;") by { assert s[1] != "&quot;"[1]; }
    }
  }

  /** Escaping is injective: the entities decode back to the original text. */
  lemma {:induction false} UnescapeEscape(s: string)
    ensures Unescape(Escape(s)) == s
    decreases |s|
  {
    if s != [] {
      UnescapeStep(s[0], Escape(s[1..]));
      UnescapeEscape(s[1..]);
      assert [s[0]] + s[1..] == s;
    }
  }
}
