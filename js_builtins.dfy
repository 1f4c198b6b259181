/** The ECMAScript built-ins that the TypeScript sources lean on, stated on
    Dafny strings: `startsWith`, `includes`, `toLowerCase`, `trim`, `split`,
    `join`, `substring`, `String(n)` for integers, `parseInt` and
    `Math.round`, and the JSON values `undefined` and `null` of a number. */
module JsBuiltins {
  import opened Wrappers

  /** An optional string option that JavaScript treats as true: present and
      non-empty. */
  predicate Given(o: Option<string>) {
    o.Some? && o.value != ""
  }

  /** A property typed `number` as JSON delivers it: missing (`undefined`),
      `null`, or a number. */
  datatype NumberValue = Undefined | NullNumber | Number(value: int)

  /** The number `null` stands for in comparisons and arithmetic (`+null` is 0). */
  function ToNumber(v: NumberValue): int
    requires !v.Undefined?
  {
    if v.NullNumber? then 0 else v.value
  }

  /** The text a template literal gives a number or `null`. */
  function NumberText(v: NumberValue): string
    requires !v.Undefined?
  {
    if v.NullNumber? then "null" else IntToString(v.value)
  }

  // ---------------------------------------------------------------------
  // Searching
  // ---------------------------------------------------------------------

  /** `s.startsWith(prefix)` */
  predicate StartsWith(s: string, prefix: string) {
    |prefix| <= |s| && s[..|prefix|] == prefix
  }

  /** `s.includes(sub)`: `sub` occurs somewhere in `s` (always, when `sub` is empty). */
  predicate Includes(s: string, sub: string)
    decreases |s|
  {
    StartsWith(s, sub) || (|s| > 0 && Includes(s[1..], sub))
  }

  /** Index of the first occurrence of `d` in `s`. */
  function IndexOf(s: string, d: char): (i: nat)
    requires d in s
    ensures i < |s| && s[i] == d && d !in s[..i]
  {
    if s[0] == d then 0 else 1 + IndexOf(s[1..], d)
  }

  // ---------------------------------------------------------------------
  // Case and white space
  // ---------------------------------------------------------------------

  /** `toLowerCase` on one character; only the ASCII letters are folded. */
  function LowerChar(c: char): char {
    if 'A' <= c <= 'Z' then (c as int + 32) as char else c
  }

  function ToLower(s: string): string {
    seq(|s|, i requires 0 <= i < |s| => LowerChar(s[i]))
  }

  /** The WhiteSpace and LineTerminator code points that `trim` and `parseInt` skip. */
  predicate IsWhiteSpace(c: char) {
    c == '\t' || c == '\n' || c == '\U{000B}' || c == '\U{000C}' || c == '\r' || c == ' '
    || c == '\U{00A0}' || c == '\U{1680}' || ('\U{2000}' <= c <= '\U{200A}')
    || c == '\U{2028}' || c == '\U{2029}' || c == '\U{202F}' || c == '\U{205F}'
    || c == '\U{3000}' || c == '\U{FEFF}'
  }

  function TrimStart(s: string): string {
    if |s| > 0 && IsWhiteSpace(s[0]) then TrimStart(s[1..]) else s
  }

  function TrimEnd(s: string): string {
    if |s| > 0 && IsWhiteSpace(s[|s| - 1]) then TrimEnd(s[..|s| - 1]) else s
  }

  /** `s.trim()` */
  function Trim(s: string): string {
    TrimEnd(TrimStart(s))
  }

  // ---------------------------------------------------------------------
  // split / join
  // ---------------------------------------------------------------------

  /** `s.split(d)` for a one-character separator. */
  function Split(s: string, d: char): (parts: seq<string>)
    ensures |parts| >= 1
    ensures forall p :: p in parts ==> d !in p
    decreases |s|
  {
    if d in s then
      var i := IndexOf(s, d);
      [s[..i]] + Split(s[i + 1..], d)
    else
      [s]
  }

  /** `parts.join(d)`; the empty array joins to the empty string. */
  function Join(parts: seq<string>, d: char): string {
    if |parts| == 0 then ""
    else if |parts| == 1 then parts[0]
    else parts[0] + [d] + Join(parts[1..], d)
  }

  /** Joining the pieces of a split gives back the original string. */
  lemma {:induction false} JoinOfSplit(s: string, d: char)
    ensures Join(Split(s, d), d) == s
    decreases |s|
  {
    if d in s {
      var i := IndexOf(s, d);
      var parts := Split(s, d);
      var rest := Split(s[i + 1..], d);
      assert parts == [s[..i]] + rest;
      assert parts[1..] == rest;
      JoinOfSplit(s[i + 1..], d);
      assert Join(parts, d) == s[..i] + [d] + s[i + 1..];
      assert s == s[..i] + [d] + s[i + 1..];
    }
  }

  /** Splitting a join of separator-free pieces gives back the pieces. */
  lemma {:induction false} SplitOfJoin(parts: seq<string>, d: char)
    requires |parts| >= 1
    requires forall p :: p in parts ==> d !in p
    ensures Split(Join(parts, d), d) == parts
  {
    if |parts| > 1 {
      var s := Join(parts, d);
      assert s == parts[0] + ([d] + Join(parts[1..], d));
      assert s[|parts[0]|] == d;
      assert d !in s[..|parts[0]|] by { assert s[..|parts[0]|] == parts[0]; }
      SplitOfJoinAt(s, parts[0], d);
      assert s[|parts[0]| + 1..] == Join(parts[1..], d);
      SplitOfJoin(parts[1..], d);
    }
  }

  lemma SplitOfJoinAt(s: string, head: string, d: char)
    requires |head| < |s| && s[..|head|] == head && s[|head|] == d && d !in head
    ensures d in s && IndexOf(s, d) == |head|
  {
  }

  /** `s.substring(start, end)`: both bounds are clamped to the string and
      swapped when they come in the wrong order. */
  function Substring(s: string, start: int, end: int): (r: string) {
    var a := Clamp(start, |s|);
    var b := Clamp(end, |s|);
    if a <= b then s[a..b] else s[b..a]
  }

  function Clamp(i: int, n: nat): (r: nat)
    ensures r <= n
  {
    if i < 0 then 0 else if i > n then n else i
  }

  // ---------------------------------------------------------------------
  // Numbers
  // ---------------------------------------------------------------------

  /** `Math.round(x)`: the nearest integer, halves rounded up. */
  function Round(x: real): int {
    (x + 0.5).Floor
  }

  function DigitChar(d: nat): char
    requires d < 10
  {
    ('0' as int + d) as char
  }

  /** `String(n)` for a non-negative integer: its decimal digits. */
  function NatToString(n: nat): (s: string)
    ensures |s| >= 1
  {
    if n < 10 then [DigitChar(n)] else NatToString(n / 10) + [DigitChar(n % 10)]
  }

  /** `String(n)` for an integer. */
  function IntToString(n: int): string {
    if n < 0 then "-" + NatToString(-n) else NatToString(n)
  }

  /** The value of `c` as a digit in radix 36 (or -1 for anything else). */
  function DigitValue(c: char): int {
    if '0' <= c <= '9' then c as int - '0' as int
    else if 'a' <= c <= 'z' then c as int - 'a' as int + 10
    else if 'A' <= c <= 'Z' then c as int - 'A' as int + 10
    else -1
  }

  predicate IsDigitIn(c: char, radix: nat) {
    0 <= DigitValue(c) < radix
  }

  /** The longest prefix of `s` made of digits of `radix`. */
  function LeadingDigits(s: string, radix: nat): string {
    if |s| > 0 && IsDigitIn(s[0], radix) then [s[0]] + LeadingDigits(s[1..], radix) else ""
  }

  /** The value of a digit string, most significant digit first. */
  function DigitsValue(ds: string, radix: nat): int {
    if |ds| == 0 then 0
    else DigitsValue(ds[..|ds| - 1], radix) * radix + DigitValue(ds[|ds| - 1])
  }

  /** `parseInt(s)` with no radix (section 19.2.5 of ECMA-262): skip leading
      white space, take an optional sign, an optional `0x`/`0X` switching to
      radix 16, then the longest run of digits; `None` stands for NaN. */
  function ParseInt(s: string): (r: Option<int>) {
    var t := TrimStart(s);
    var negative := |t| > 0 && t[0] == '-';
    var u := if |t| > 0 && (t[0] == '-' || t[0] == '+') then t[1..] else t;
    var hex := |u| >= 2 && u[0] == '0' && (u[1] == 'x' || u[1] == 'X');
    var radix := if hex then 16 else 10;
    var body := if hex then u[2..] else u;
    var z := LeadingDigits(body, radix);
    if |z| == 0 then None
    else
      var v := DigitsValue(z, radix);
      Some(if negative then -v else v)
  }

  lemma {:induction false} NatToStringDigits(n: nat)
    ensures forall c :: c in NatToString(n) ==> '0' <= c <= '9'
  {
    if n >= 10 { NatToStringDigits(n / 10); }
  }

  lemma {:induction false} LeadingDigitsAll(s: string)
    requires forall c :: c in s ==> '0' <= c <= '9'
    ensures LeadingDigits(s, 10) == s
  {
    if |s| > 0 {
      assert forall c :: c in s[1..] ==> c in s;
      assert s[0] in s;
      LeadingDigitsAll(s[1..]);
      assert s == [s[0]] + s[1..];
    }
  }

  lemma {:induction false} DigitsValueOfNatToString(n: nat)
    ensures DigitsValue(NatToString(n), 10) == n
  {
    if n >= 10 {
      DigitsValueOfNatToString(n / 10);
      var s := NatToString(n);
      assert s[..|s| - 1] == NatToString(n / 10);
    }
  }

  /** `parseInt` reads back the decimal text of every non-negative integer. */
  lemma ParseIntOfNatToString(n: nat)
    ensures ParseInt(NatToString(n)) == Some(n)
  {
    ParseIntOfIntText(n, "");
    assert IntToString(n) + "" == NatToString(n);
  }

  /** The decimal text of a non-negative integer has no white space to trim. */
  lemma TrimOfNatToString(n: nat)
    ensures Trim(NatToString(n)) == NatToString(n)
  {
    var s := NatToString(n);
    NatToStringDigits(n);
    assert s[0] in s && s[|s| - 1] in s;
  }

  /** The digits of a number followed by text that does not continue the
      number are read as the digits alone. */
  lemma {:induction false} LeadingDigitsPrefix(s: string, t: string)
    requires forall c :: c in s ==> '0' <= c <= '9'
    requires t == "" || !IsDigitIn(t[0], 10)
    ensures LeadingDigits(s + t, 10) == s
  {
    if |s| > 0 {
      assert s[0] in s;
      assert forall c :: c in s[1..] ==> c in s;
      assert (s + t)[1..] == s[1..] + t;
      LeadingDigitsPrefix(s[1..], t);
      assert s == [s[0]] + s[1..];
    } else {
      assert s + t == t;
    }
  }

  /** `parseInt` reads back `String(n)` for every integer `n`, also when the
      text goes on with a unit such as `K` or `%` (anything that is neither a
      digit nor the `x` of a hexadecimal prefix). */
  lemma ParseIntOfIntText(n: int, t: string)
    requires t == "" || (!IsDigitIn(t[0], 10) && t[0] != 'x' && t[0] != 'X')
    ensures ParseInt(IntToString(n) + t) == Some(n)
  {
    var m: nat := if n < 0 then -n else n;
    var u := NatToString(m) + t;
    NumberTextFacts(m, t);
    if n < 0 {
      assert IntToString(n) + t == "-" + u;
      ParseIntNegative(u);
    } else {
      assert IntToString(n) + t == u;
      ParseIntUnsigned(u);
    }
  }

  /** `parseInt` of a text that starts with a decimal digit, not as `0x`. */
  lemma ParseIntUnsigned(u: string)
    requires |u| > 0 && '0' <= u[0] <= '9'
    requires !(|u| >= 2 && u[0] == '0' && (u[1] == 'x' || u[1] == 'X'))
    requires |LeadingDigits(u, 10)| > 0
    ensures ParseInt(u) == Some(DigitsValue(LeadingDigits(u, 10), 10))
  {
    assert TrimStart(u) == u;
  }

  /** The same text after a minus sign reads as the negated value. */
  lemma ParseIntNegative(u: string)
    requires |u| > 0 && '0' <= u[0] <= '9'
    requires !(|u| >= 2 && u[0] == '0' && (u[1] == 'x' || u[1] == 'X'))
    requires |LeadingDigits(u, 10)| > 0
    ensures ParseInt("-" + u) == Some(-DigitsValue(LeadingDigits(u, 10), 10))
  {
    var s := "-" + u;
    assert s[0] == '-' && !IsWhiteSpace(s[0]);
    assert TrimStart(s) == s;
    assert s[1..] == u;
    assert |s| > 0 && s[0] == '-';
  }

  /** The unsigned part: a leading decimal digit, no hexadecimal prefix, and
      the leading digits are those of `m`. */
  lemma NumberTextFacts(m: nat, t: string)
    requires t == "" || (!IsDigitIn(t[0], 10) && t[0] != 'x' && t[0] != 'X')
    ensures var u := NatToString(m) + t;
      && |u| > 0 && '0' <= u[0] <= '9'
      && !(|u| >= 2 && u[0] == '0' && (u[1] == 'x' || u[1] == 'X'))
      && DigitsValue(LeadingDigits(u, 10), 10) == m
      && |LeadingDigits(u, 10)| > 0
  {
    var s := NatToString(m);
    NatToStringDigits(m);
    assert s[0] in s;
    assert |s| >= 2 ==> s[1] in s;
    LeadingDigitsPrefix(s, t);
    DigitsValueOfNatToString(m);
    var u := s + t;
    assert u[0] == s[0];
    assert |u| >= 2 && |s| >= 2 ==> u[1] == s[1];
    assert |u| >= 2 && |s| == 1 ==> u[1] == t[0];
  }
}
