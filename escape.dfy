/** escapeHtml of the mail relay (server.js): every occurrence of one of the five
    HTML metacharacters is replaced by its entity, every other character is kept. */
module HtmlEscape {
  import opened JsRuntime

  /** The characters the replacement pattern `[&<>"']` matches. */
  predicate IsMeta(c: char) {
    c == '&' || c == '<' || c == '>' || c == '"' || c == '\''
  }

  /** The metacharacters that open or close markup; '&' is the escape itself. */
  predicate IsMarkup(c: char) {
    c == '<' || c == '>' || c == '"' || c == '\''
  }

  /** The replacement table. */
  function Entity(c: char): string
    requires IsMeta(c)
  {
    match c
    case '&' => "&amp;"
    case '<' => "&lt;"
    case '>' => "&gt;"
    case '"' => "&quot;"
    case '\'' => "&#039;"
  }

  function EscapeChar(c: char): string {
    if IsMeta(c) then Entity(c) else [c]
  }

  /** escapeHtml: the output never contains a raw markup character and is at
      least as long as the input. */
  function Escape(s: string): (r: string)
    ensures |r| >= |s|
    ensures forall i :: 0 <= i < |r| ==> !IsMarkup(r[i])
  {
    if s == [] then [] else EscapeChar(s[0]) + Escape(s[1..])
  }

  /** `t` starts with one of the five entities escapeHtml produces. */
  predicate BeginsEntity(t: string) {
    IsPrefix("&amp;", t) || IsPrefix("&lt;", t) || IsPrefix("&gt;", t)
    || IsPrefix("&quot;", t) || IsPrefix("&#039;", t)
  }

  /** Every '&' in the output is the start of an entity: a raw ampersand of
      the input never survives. */
  lemma {:induction false} EscapeAmpersands(s: string)
    ensures forall i :: 0 <= i < |Escape(s)| && Escape(s)[i] == '&' ==> BeginsEntity(Escape(s)[i..])
  {
    if s != [] {
      var e := EscapeChar(s[0]);
      var rest := Escape(s[1..]);
      var r := Escape(s);
      assert r == e + rest;
      EscapeAmpersands(s[1..]);
      forall i | 0 <= i < |r| && r[i] == '&' ensures BeginsEntity(r[i..]) {
        if i < |e| {
          assert i == 0 && IsMeta(s[0]);
          assert r[i..] == e + rest;
        } else {
          assert r[i..] == rest[i - |e|..];
        }
      }
    }
  }

  /** A string without metacharacters is left exactly as it is. */
  lemma {:induction false} EscapeIdentity(s: string)
    requires forall i :: 0 <= i < |s| ==> !IsMeta(s[i])
    ensures Escape(s) == s
  {
    if s != [] {
      EscapeIdentity(s[1..]);
      assert s == [s[0]] + s[1..];
    }
  }

  /** Escaping works character by character, so it distributes over concatenation. */
  lemma {:induction false} EscapeConcat(a: string, b: string)
    ensures Escape(a + b) == Escape(a) + Escape(b)
  {
    if a == [] {
      assert a + b == b;
    } else {
      assert (a + b)[0] == a[0];
      assert (a + b)[1..] == a[1..] + b;
      EscapeConcat(a[1..], b);
    }
  }

  /** Decoding of the five entities; every other character stands for itself. */
  function Unescape(r: string): string
    decreases |r|
  {
    if r == [] then []
    else if IsPrefix("&amp;", r) then "&" + Unescape(r[5..])
    else if IsPrefix("&lt;", r) then "<" + Unescape(r[4..])
    else if IsPrefix("&gt;", r) then ">" + Unescape(r[4..])
    else if IsPrefix("&quot;", r) then "\"" + Unescape(r[6..])
    else if IsPrefix("&#039;", r) then "'" + Unescape(r[6..])
    else [r[0]] + Unescape(r[1..])
  }

  /** A prefix test fails as soon as one position differs. */
  lemma DiffersAt(p: string, t: string, k: nat)
    requires k < |p| && k < |t| && t[k] != p[k]
    ensures !IsPrefix(p, t)
  {
  }

  /** Decoding undoes the escaping of one character in front of any text. */
  lemma UnescapeStep(c: char, rest: string)
    ensures Unescape(EscapeChar(c) + rest) == [c] + Unescape(rest)
  {
    var r := EscapeChar(c) + rest;
    if !IsMeta(c) {
      DiffersAt("&amp;", r, 0);
      DiffersAt("&lt;", r, 0);
      DiffersAt("&gt;", r, 0);
      DiffersAt("&quot;", r, 0);
      DiffersAt("&#039;", r, 0);
      assert r[1..] == rest;
    } else {
      var e := Entity(c);
      assert r[..|e|] == e && r[|e|..] == rest;
      if c != '&' { DiffersAt("&amp;", r, 1); }
      if c != '<' { DiffersAt("&lt;", r, 1); }
      if c != '>' { DiffersAt("&gt;", r, 1); }
      if c != '"' { DiffersAt("&quot;", r, 1); }
    }
  }

  /** Escaping loses no information: decoding the entities gives the input back,
      so two different texts never escape to the same text. */
  lemma {:induction false} UnescapeEscape(s: string)
    ensures Unescape(Escape(s)) == s
  {
    if s != [] {
      UnescapeStep(s[0], Escape(s[1..]));
      UnescapeEscape(s[1..]);
      assert s == [s[0]] + s[1..];
    }
  }

  /** Escaped text adds no markup character to the document it is placed in. */
  lemma EscapeAddsNoMarkup(s: string, c: char)
    requires IsMarkup(c)
    ensures Count(Escape(s), c) == 0
  {
    CountAbsent(Escape(s), c);
  }
}
