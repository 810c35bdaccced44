/** The JavaScript values a JSON request can carry, and the coercions the
    handlers apply to them: truthiness, `Number(...)`, `parseInt(..., 10)`,
    `trim()`, `toLowerCase()`, `includes(...)` and number-to-string rendering. */
module JsValues {
  import opened Wrappers

  /** A request field: absent (`undefined`), `null`, a boolean, an integral
      number, a string, or an object or array. */
  datatype JsValue = Undefined | Null | Bool(b: bool) | Num(n: int) | Str(s: string) | Obj

  /** The falsy values among those a JSON body can carry. */
  predicate IsFalsy(v: JsValue) {
    v.Undefined? || v.Null? || v == Bool(false) || v == Num(0) || v == Str("")
  }

  /** White space and line terminators, which `trim()` removes. */
  predicate IsWhitespace(c: char) {
    || c == ' ' || c == '\t' || c == '\n' || c == '\r' || c == '\U{B}' || c == '\U{C}'
    || c == '\U{A0}' || c == '\U{1680}' || ('\U{2000}' <= c <= '\U{200A}')
    || c == '\U{2028}' || c == '\U{2029}' || c == '\U{202F}' || c == '\U{205F}'
    || c == '\U{3000}' || c == '\U{FEFF}'
  }

  function TrimStart(s: string): (r: string)
    ensures |r| <= |s| && r == s[|s| - |r|..]
    ensures forall i :: 0 <= i < |s| - |r| ==> IsWhitespace(s[i])
    ensures r != [] ==> !IsWhitespace(r[0])
  {
    if s != [] && IsWhitespace(s[0]) then TrimStart(s[1..]) else s
  }

  function TrimEnd(s: string): (r: string)
    ensures |r| <= |s| && r == s[..|r|]
    ensures forall i :: |r| <= i < |s| ==> IsWhitespace(s[i])
    ensures r != [] ==> !IsWhitespace(r[|r| - 1])
  {
    if s != [] && IsWhitespace(s[|s| - 1]) then TrimEnd(s[..|s| - 1]) else s
  }

  /** `s.trim()`: empty exactly when `s` is all white space; otherwise it
      neither starts nor ends with white space. */
  function Trim(s: string): (r: string)
    ensures |r| <= |s|
    ensures r == [] <==> forall i :: 0 <= i < |s| ==> IsWhitespace(s[i])
    ensures r != [] ==> !IsWhitespace(r[0]) && !IsWhitespace(r[|r| - 1])
  {
    var t := TrimStart(s);
    var r := TrimEnd(t);
    r
  }

  predicate IsDigit(c: char) {
    '0' <= c <= '9'
  }

  predicate AllDigits(s: string) {
    forall i :: 0 <= i < |s| ==> IsDigit(s[i])
  }

  /** The value of a string of decimal digits, most significant first. */
  function DigitsValue(s: string): nat
    requires AllDigits(s)
  {
    if s == [] then 0
    else 10 * DigitsValue(s[..|s| - 1]) + (s[|s| - 1] as int - '0' as int)
  }

  function ParseUnsigned(t: string): Option<int> {
    if t != [] && AllDigits(t) then Some(DigitsValue(t)) else None
  }

  /** `Number(s)` for a string, restricted to integral decimal literals: the
      trimmed text is empty (0) or an optional sign followed by digits; every
      other text is NaN (`None`). */
  function StringToNumber(s: string): Option<int> {
    NumberOfTrimmed(Trim(s))
  }

  /** What `Number` reads from already trimmed text. */
  function NumberOfTrimmed(t: string): Option<int> {
    if t == [] then Some(0)
    else if t[0] == '-' then
      (match ParseUnsigned(t[1..])
       case Some(n) => Some(-n)
       case None => None)
    else if t[0] == '+' then ParseUnsigned(t[1..])
    else ParseUnsigned(t)
  }

  /** `Number(v)`; `None` stands for NaN. */
  function ToNumber(v: JsValue): Option<int> {
    match v
    case Undefined => None
    case Null => Some(0)
    case Bool(b) => Some(if b then 1 else 0)
    case Num(n) => Some(n)
    case Str(s) => StringToNumber(s)
    case Obj => None
  }

  /** The longest prefix of `s` made of digits. */
  function LeadingDigits(s: string): (r: string)
    ensures |r| <= |s| && r == s[..|r|] && AllDigits(r)
    ensures |r| < |s| ==> !IsDigit(s[|r|])
  {
    if s != [] && IsDigit(s[0]) then [s[0]] + LeadingDigits(s[1..]) else []
  }

  /** `parseInt(s, 10)`: leading white space and one sign are skipped, then the
      longest digit prefix is read; no digits gives NaN (`None`). */
  function ParseInt(s: string): Option<int> {
    var t := TrimStart(s);
    var negative := t != [] && t[0] == '-';
    var body := if t != [] && (t[0] == '-' || t[0] == '+') then t[1..] else t;
    var ds := LeadingDigits(body);
    if ds == [] then None
    else
      var v: int := if negative then 0 - DigitsValue(ds) else DigitsValue(ds);
      Some(v)
  }

  function DigitChar(d: nat): (c: char)
    requires d < 10
    ensures IsDigit(c) && c as int - '0' as int == d
  {
    ('0' as int + d) as char
  }

  /** The decimal rendering of a natural number, as template literals print it. */
  function NatToString(n: nat): (r: string)
    ensures r != [] && AllDigits(r) && DigitsValue(r) == n
    ensures n > 0 ==> r[0] != '0'
  {
    if n < 10 then [DigitChar(n)]
    else
      var r := NatToString(n / 10) + [DigitChar(n % 10)];
      assert r[..|r| - 1] == NatToString(n / 10);
      r
  }

  function IntToString(i: int): string {
    if i < 0 then "-" + NatToString(-i) else NatToString(i)
  }

  lemma {:induction false} LeadingDigitsOfNumeral(ds: string, rest: string)
    requires AllDigits(ds)
    requires rest == [] || !IsDigit(rest[0])
    ensures LeadingDigits(ds + rest) == ds
  {
    if ds != [] {
      assert (ds + rest)[1..] == ds[1..] + rest;
      LeadingDigitsOfNumeral(ds[1..], rest);
    }
  }

  lemma TrimStartKeeps(s: string)
    requires s != [] && !IsWhitespace(s[0])
    ensures TrimStart(s) == s
  {
    assert !IsWhitespace(s[0]);
  }

  lemma TrimEndKeeps(s: string)
    requires s != [] && !IsWhitespace(s[|s| - 1])
    ensures TrimEnd(s) == s
  {
    assert !IsWhitespace(s[|s| - 1]);
  }

  lemma ParseIntOfDigits(ds: string, rest: string)
    requires ds != [] && AllDigits(ds)
    requires rest == [] || !IsDigit(rest[0])
    ensures ParseInt(ds + rest) == Some(DigitsValue(ds))
  {
    var s := ds + rest;
    assert s[0] == ds[0];
    TrimStartKeeps(s);
    LeadingDigitsOfNumeral(ds, rest);
  }

  lemma NegatedTrimStart(ds: string, rest: string)
    ensures TrimStart("-" + (ds + rest)) == "-" + (ds + rest)
  {
    var s := "-" + (ds + rest);
    assert s[0] == '-';
    TrimStartKeeps(s);
  }

  lemma ParseIntOfNegatedDigits(ds: string, rest: string)
    requires ds != [] && AllDigits(ds)
    requires rest == [] || !IsDigit(rest[0])
    ensures ParseInt("-" + (ds + rest)) == Some(0 - DigitsValue(ds))
  {
    var s := "-" + (ds + rest);
    NegatedTrimStart(ds, rest);
    assert s[0] == '-' && s[1..] == ds + rest;
    LeadingDigitsOfNumeral(ds, rest);
  }

  /** `parseInt` reads back a rendered integer followed by any non-digit text. */
  lemma ParseIntOfRendered(i: int, rest: string)
    requires rest == [] || !IsDigit(rest[0])
    ensures ParseInt(IntToString(i) + rest) == Some(i)
  {
    if i < 0 {
      var ds := NatToString(-i);
      assert IntToString(i) + rest == "-" + (ds + rest);
      ParseIntOfNegatedDigits(ds, rest);
    } else {
      ParseIntOfDigits(NatToString(i), rest);
    }
  }

  /** Trimming the start of a text with one trailing blank. */
  lemma {:induction false} TrimStartOfBlankEnded(s: string)
    ensures TrimStart(s + " ") == if TrimStart(s) == [] then [] else TrimStart(s) + " "
  {
    var t := s + " ";
    if s == [] {
      assert TrimStart(t) == TrimStart(t[1..]);
      assert t[1..] == [];
    } else {
      assert t[0] == s[0] && t[1..] == s[1..] + " ";
      if IsWhitespace(s[0]) {
        TrimStartOfBlankEnded(s[1..]);
      }
    }
  }

  lemma TrimEndOfBlankEnded(t: string)
    ensures TrimEnd(t + " ") == TrimEnd(t)
  {
    var u := t + " ";
    assert u[|u| - 1] == ' ' && u[..|u| - 1] == t;
  }

  /** Blanks around a text do not change what `Number` reads. */
  lemma NumberIgnoresBlanks(s: string)
    ensures StringToNumber(" " + s + " ") == StringToNumber(s)
  {
    var padded := " " + s + " ";
    assert Trim(padded) == Trim(s) by {
      assert TrimStart(padded) == TrimStart(s + " ") by {
        assert padded[0] == ' ' && padded[1..] == s + " ";
      }
      TrimStartOfBlankEnded(s);
      TrimEndOfBlankEnded(TrimStart(s));
    }
  }

  /** `Number` reads back a rendered integer. */
  lemma StringToNumberOfRendered(i: int)
    ensures StringToNumber(IntToString(i)) == Some(i)
  {
    var ds := NatToString(if i < 0 then -i else i);
    var s := IntToString(i);
    assert ParseUnsigned(ds) == Some(if i < 0 then -i else i);
    assert Trim(s) == s by {
      assert s[|s| - 1] == ds[|ds| - 1];
      if i < 0 {
        assert s[0] == '-';
      } else {
        assert s[0] == ds[0];
      }
      TrimStartKeeps(s);
      TrimEndKeeps(s);
    }
    if i < 0 {
      assert s[0] == '-' && s[1..] == ds;
    } else {
      assert s == ds && s[0] != '-' && s[0] != '+';
    }
  }

  function ToLowerAscii(c: char): char {
    if 'A' <= c <= 'Z' then (c as int + 32) as char else c
  }

  /** `toLowerCase()` on the ASCII letters, which is also how SQL LIKE folds case. */
  function Lower(s: string): (r: string)
    ensures |r| == |s| && forall i :: 0 <= i < |s| ==> r[i] == ToLowerAscii(s[i])
  {
    seq(|s|, i requires 0 <= i < |s| => ToLowerAscii(s[i]))
  }

  /** `needle` occurs in `hay` starting at index `k`. */
  predicate OccursAt(hay: string, needle: string, k: int) {
    0 <= k <= |hay| - |needle| && hay[k..k + |needle|] == needle
  }

  /** `hay.includes(needle)`: `needle` occurs somewhere in `hay`. */
  function Includes(hay: string, needle: string): (r: bool)
    ensures r <==> exists k :: OccursAt(hay, needle, k)
  {
    if |needle| > |hay| then false
    else if hay[..|needle|] == needle then
      assert OccursAt(hay, needle, 0);
      true
    else
      var rest := Includes(hay[1..], needle);
      assert rest ==> exists k :: OccursAt(hay, needle, k) by {
        if rest {
          var k :| OccursAt(hay[1..], needle, k);
          assert hay[1..][k..k + |needle|] == hay[k + 1..k + 1 + |needle|];
          assert OccursAt(hay, needle, k + 1);
        }
      }
      assert (exists k :: OccursAt(hay, needle, k)) ==> rest by {
        if k :| OccursAt(hay, needle, k) {
          assert k != 0;
          assert hay[1..][k - 1..k - 1 + |needle|] == hay[k..k + |needle|];
          assert OccursAt(hay[1..], needle, k - 1);
        }
      }
      rest
  }

  /** A needle with a character the haystack lacks does not occur in it. */
  lemma MissingCharNotIncluded(hay: string, needle: string, i: int)
    requires 0 <= i < |needle| && needle[i] !in hay
    ensures !Includes(hay, needle)
  {
    forall k | 0 <= k <= |hay| - |needle| ensures !OccursAt(hay, needle, k) {
      assert hay[k + i] in hay;
      assert hay[k..k + |needle|][i] == hay[k + i];
    }
  }

  /** Case-insensitive substring test shared by SQL `LIKE '%search%'` and
      `name.toLowerCase().includes(search.toLowerCase())`. */
  predicate ContainsIgnoreCase(hay: string, needle: string) {
    Includes(Lower(hay), Lower(needle))
  }
}
