/** The few pieces of JavaScript semantics that the portfolio's scripts and its
    server depend on: optional values, parsed JSON values and their truthiness,
    String.prototype.substring, includes and trim, and the decimal rendering
    of a non-negative integer. Strings are sequences of Unicode scalar values. */
module JsRuntime {

  datatype Option<T> = None | Some(value: T)

  /** A value produced by JSON.parse. The members of arrays and objects play no
      part in this model, only that such a value is always truthy. */
  datatype Json = JNull | JBool(b: bool) | JNumber(n: real) | JString(s: string) | JArray | JObject

  /** `!!v` for a property that may be missing (None stands for `undefined`). */
  predicate Truthy(v: Option<Json>) {
    match v
    case None => false
    case Some(JNull) => false
    case Some(JBool(b)) => b
    case Some(JNumber(n)) => n != 0.0
    case Some(JString(s)) => s != ""
    case Some(JArray) => true
    case Some(JObject) => true
  }

  /** The value is a JSON string (what escapeHtml can be applied to). */
  function StringOf(v: Option<Json>): (r: Option<string>)
    ensures r.Some? <==> v.Some? && v.value.JString?
    ensures r.Some? ==> (r.value != "" <==> Truthy(v))
  {
    if v.Some? && v.value.JString? then Some(v.value.s) else None
  }

  function Clamp(x: int, lo: int, hi: int): (r: int)
    requires lo <= hi
    ensures lo <= r <= hi
    ensures lo <= x <= hi ==> r == x
  {
    if x < lo then lo else if x > hi then hi else x
  }

  /** String.prototype.substring: both indices are clamped to [0, |s|] and
      swapped when the first exceeds the second. */
  function Substring(s: string, start: int, end: int): (r: string)
    ensures |r| <= |s|
    ensures start <= 0 ==> r == s[..Clamp(end, 0, |s|)]
    ensures start <= 0 && end < 0 ==> r == ""
    ensures start <= 0 && end > |s| ==> r == s
  {
    var a := Clamp(start, 0, |s|);
    var b := Clamp(end, 0, |s|);
    if a <= b then s[a..b] else s[b..a]
  }

  predicate IsPrefix(p: string, s: string) {
    |p| <= |s| && s[..|p|] == p
  }

  /** String.prototype.includes. */
  predicate Includes(s: string, t: string)
    decreases |s|
  {
    IsPrefix(t, s) || (|s| > 0 && Includes(s[1..], t))
  }

  /** A string includes whatever it was assembled around. */
  lemma {:induction false} IncludesMiddle(a: string, t: string, b: string)
    ensures Includes(a + t + b, t)
  {
    if a == [] {
      assert a + t + b == t + b;
      assert (t + b)[..|t|] == t;
    } else {
      assert (a + t + b)[1..] == a[1..] + t + b;
      IncludesMiddle(a[1..], t, b);
    }
  }

  /** The number of occurrences of `c` in `s`. */
  function Count(s: string, c: char): nat {
    if s == [] then 0 else (if s[0] == c then 1 else 0) + Count(s[1..], c)
  }

  lemma {:induction false} CountConcat(a: string, b: string, c: char)
    ensures Count(a + b, c) == Count(a, c) + Count(b, c)
  {
    if a == [] {
      assert a + b == b;
    } else {
      assert (a + b)[0] == a[0];
      assert (a + b)[1..] == a[1..] + b;
      CountConcat(a[1..], b, c);
    }
  }

  /** A character that never occurs is counted zero times. */
  lemma {:induction false} CountAbsent(s: string, c: char)
    requires forall i :: 0 <= i < |s| ==> s[i] != c
    ensures Count(s, c) == 0
  {
    if s != [] {
      CountAbsent(s[1..], c);
    }
  }

  /** A template literal `p0${v0}p1${v1}...pn`: the fixed parts with the
      values placed between them. */
  function Template(parts: seq<string>, values: seq<string>): string
    requires |parts| == |values| + 1
  {
    if values == [] then parts[0] else parts[0] + values[0] + Template(parts[1..], values[1..])
  }

  /** The total number of occurrences of `c` in the fixed parts. */
  function CountAll(parts: seq<string>, c: char): nat {
    if parts == [] then 0 else Count(parts[0], c) + CountAll(parts[1..], c)
  }

  /** Values without `c` add no `c` to a template. */
  lemma {:induction false} TemplateCount(parts: seq<string>, values: seq<string>, c: char)
    requires |parts| == |values| + 1
    requires forall i :: 0 <= i < |values| ==> Count(values[i], c) == 0
    ensures Count(Template(parts, values), c) == CountAll(parts, c)
  {
    if values != [] {
      TemplateCount(parts[1..], values[1..], c);
      CountConcat(parts[0], values[0], c);
      CountConcat(parts[0] + values[0], Template(parts[1..], values[1..]), c);
    } else {
      assert parts[1..] == [];
    }
  }

  lemma {:induction false} IncludesAfter(a: string, s: string, t: string)
    requires Includes(s, t)
    ensures Includes(a + s, t)
  {
    if a == [] {
      assert a + s == s;
    } else {
      assert (a + s)[1..] == a[1..] + s;
      IncludesAfter(a[1..], s, t);
    }
  }

  /** Every value placed in a template occurs in the result. */
  lemma {:induction false} TemplateIncludes(parts: seq<string>, values: seq<string>, i: nat)
    requires |parts| == |values| + 1 && i < |values|
    ensures Includes(Template(parts, values), values[i])
  {
    var rest := Template(parts[1..], values[1..]);
    if i == 0 {
      IncludesMiddle(parts[0], values[0], rest);
    } else {
      TemplateIncludes(parts[1..], values[1..], i - 1);
      IncludesAfter(parts[0] + values[0], rest, values[i]);
    }
  }

  /** The code points that trim removes: WhiteSpace and LineTerminator of the
      ECMAScript grammar (section 12.2 and 12.3 of ECMA-262). */
  predicate IsWhitespace(c: char) {
    var n := c as int;
    n == 0x09 || n == 0x0A || n == 0x0B || n == 0x0C || n == 0x0D || n == 0x20
    || n == 0xA0 || n == 0x1680 || (0x2000 <= n <= 0x200A) || n == 0x2028
    || n == 0x2029 || n == 0x202F || n == 0x205F || n == 0x3000 || n == 0xFEFF
  }

  /** The number of whitespace characters `s` begins with. */
  function LeadingWhitespace(s: string): (n: nat)
    ensures n <= |s|
    ensures forall k :: 0 <= k < n ==> IsWhitespace(s[k])
    ensures n < |s| ==> !IsWhitespace(s[n])
    decreases |s|
  {
    if s != [] && IsWhitespace(s[0]) then
      assert forall k :: 1 <= k < |s| ==> s[k] == s[1..][k - 1];
      1 + LeadingWhitespace(s[1..])
    else 0
  }

  /** String.prototype.trim: leading and trailing whitespace is removed one
      character at a time. The result neither begins nor ends with whitespace,
      and it is empty exactly when every character of `s` is whitespace. */
  function Trim(s: string): (r: string)
    ensures |r| <= |s|
    ensures r == [] || (!IsWhitespace(r[0]) && !IsWhitespace(r[|r| - 1]))
    ensures r == [] <==> forall i :: 0 <= i < |s| ==> IsWhitespace(s[i])
    decreases |s|
  {
    if s != [] && IsWhitespace(s[0]) then
      var r := Trim(s[1..]);
      assert forall i :: 1 <= i < |s| ==> s[i] == s[1..][i - 1];
      r
    else if s != [] && IsWhitespace(s[|s| - 1]) then
      var r := Trim(s[..|s| - 1]);
      assert forall i :: 0 <= i < |s| - 1 ==> s[i] == s[..|s| - 1][i];
      r
    else
      s
  }

  lemma NoLeadingWhitespace(s: string)
    requires s != [] && !IsWhitespace(s[0])
    ensures LeadingWhitespace(s) == 0
    ensures |s| >= 2 ==> LeadingWhitespace(s[..|s| - 1]) == 0
  {
    if |s| >= 2 {
      assert s[..|s| - 1][0] == s[0];
    }
  }

  /** `s` is `n` characters, then `r`, then whitespace only. */
  predicate Around(s: string, n: nat, r: string) {
    && n + |r| <= |s|
    && (forall k :: 0 <= k < |r| ==> r[k] == s[n + k])
    && (forall k :: n + |r| <= k < |s| ==> IsWhitespace(s[k]))
  }

  /** Trim keeps the input's own characters: the result is the part of `s`
      right after its leading whitespace, and everything after the result is
      whitespace too. */
  predicate KeepsMiddle(s: string) {
    Around(s, LeadingWhitespace(s), Trim(s))
  }

  lemma AroundShift(s: string, n: nat, r: string)
    requires s != [] && Around(s[1..], n, r)
    ensures Around(s, n + 1, r)
  {
    forall k | 0 <= k < |r| ensures r[k] == s[n + 1 + k] {
      assert s[1..][n + k] == s[n + 1 + k];
    }
    forall k | n + 1 + |r| <= k < |s| ensures IsWhitespace(s[k]) {
      assert s[1..][k - 1] == s[k];
    }
  }

  lemma AroundExtend(s: string, r: string)
    requires s != [] && IsWhitespace(s[|s| - 1]) && Around(s[..|s| - 1], 0, r)
    ensures Around(s, 0, r)
  {
    var t := s[..|s| - 1];
    forall k | 0 <= k < |r| ensures r[k] == s[k] {
      assert t[k] == s[k];
    }
    forall k | |r| <= k < |s| ensures IsWhitespace(s[k]) {
      if k < |t| {
        assert t[k] == s[k];
      }
    }
  }

  lemma TrimDropsFirst(s: string)
    requires s != [] && IsWhitespace(s[0])
    ensures Trim(s) == Trim(s[1..])
    ensures LeadingWhitespace(s) == 1 + LeadingWhitespace(s[1..])
  {
  }

  lemma TrimDropsLast(s: string)
    requires s != [] && !IsWhitespace(s[0]) && IsWhitespace(s[|s| - 1])
    ensures Trim(s) == Trim(s[..|s| - 1])
    ensures LeadingWhitespace(s) == 0 && LeadingWhitespace(s[..|s| - 1]) == 0
  {
    NoLeadingWhitespace(s);
  }

  /** Trim cuts off only the surrounding whitespace, for every string. */
  lemma {:induction false} TrimKeepsMiddle(s: string)
    ensures KeepsMiddle(s)
    decreases |s|
  {
    if s != [] && IsWhitespace(s[0]) {
      TrimKeepsMiddle(s[1..]);
      TrimDropsFirst(s);
      AroundShift(s, LeadingWhitespace(s[1..]), Trim(s[1..]));
    } else if s != [] && IsWhitespace(s[|s| - 1]) {
      TrimKeepsMiddle(s[..|s| - 1]);
      TrimDropsLast(s);
      AroundExtend(s, Trim(s[..|s| - 1]));
    } else if s != [] {
      NoLeadingWhitespace(s);
    }
  }

  /** Trimming twice trims nothing more. */
  lemma TrimIdempotent(s: string)
    ensures Trim(Trim(s)) == Trim(s)
  {
  }

  function DigitChar(d: nat): (c: char)
    requires d < 10
  {
    "0123456789"[d]
  }

  predicate IsDigit(c: char) {
    '0' <= c <= '9'
  }

  function DigitValue(c: char): (d: nat)
    requires IsDigit(c)
    ensures d < 10 && DigitChar(d) == c
  {
    (c as int) - ('0' as int)
  }

  /** The decimal string JavaScript produces for a non-negative integer: at
      least one digit, and no leading zero unless the number is zero. */
  function NatToString(n: nat): (r: string)
    ensures |r| > 0
    ensures forall i :: 0 <= i < |r| ==> IsDigit(r[i])
    ensures r[0] == '0' ==> n == 0
  {
    if n < 10 then [DigitChar(n)] else NatToString(n / 10) + [DigitChar(n % 10)]
  }

  /** Reads a string of decimal digits back as a number. */
  function ParseDigits(s: string): nat
    requires forall i :: 0 <= i < |s| ==> IsDigit(s[i])
  {
    if s == [] then 0 else ParseDigits(s[..|s| - 1]) * 10 + DigitValue(s[|s| - 1])
  }

  /** The decimal rendering loses nothing: its digits read back as the number. */
  lemma {:induction false} ParseNatToString(n: nat)
    ensures ParseDigits(NatToString(n)) == n
  {
    var r := NatToString(n);
    if n >= 10 {
      var head := NatToString(n / 10);
      assert r == head + [DigitChar(n % 10)];
      assert r[..|r| - 1] == head;
      ParseNatToString(n / 10);
    }
  }
}
