/** The string primitives of the JavaScript runtime that the route handlers use:
    `Array.prototype.join`, `String.prototype.trim`/`toLowerCase`, the decimal
    rendering of integers (`String(n)`, template literals) and `parseInt`; and
    the first/last occurrence and substring searches from which the spans of
    the regular expressions passed to `String.prototype.match` are built. */
module Text {
  import opened Wrappers

  /** An optional string field that is truthy: present and non-empty. */
  predicate Present(s: Option<string>) {
    s.Some? && s.value != ""
  }

  // ---------------------------------------------------------------------------
  // Array.prototype.join on strings
  // ---------------------------------------------------------------------------

  /** `parts.join(sep)`. */
  function Join(parts: seq<string>, sep: string): string
    decreases |parts|
  {
    if |parts| == 0 then ""
    else if |parts| == 1 then parts[0]
    else Join(parts[..|parts| - 1], sep) + sep + parts[|parts| - 1]
  }

  /** A non-empty join starts with its first part. */
  lemma {:induction false} JoinStartsWithFirst(parts: seq<string>, sep: string)
    requires |parts| > 0
    ensures |parts[0]| <= |Join(parts, sep)|
    ensures Join(parts, sep)[..|parts[0]|] == parts[0]
    decreases |parts|
  {
    if |parts| > 1 {
      var init := parts[..|parts| - 1];
      JoinStartsWithFirst(init, sep);
      assert init[0] == parts[0];
      var j := Join(init, sep);
      assert Join(parts, sep) == j + sep + parts[|parts| - 1];
      assert (j + sep + parts[|parts| - 1])[..|parts[0]|] == j[..|parts[0]|];
    }
  }

  /** Appending a part appends the separator and that part. */
  lemma JoinSnoc(parts: seq<string>, last: string, sep: string)
    requires |parts| > 0
    ensures Join(parts + [last], sep) == Join(parts, sep) + sep + last
  {
    assert (parts + [last])[..|parts|] == parts;
  }

  /** Three parts join as the first, the separator, the second, the
      separator and the third. */
  lemma Join3(a: string, b: string, c: string, sep: string)
    ensures Join([a, b, c], sep) == a + sep + b + sep + c
  {
    assert [a, b][..1] == [a];
    assert Join([a, b], sep) == a + sep + b;
    assert [a, b, c][..2] == [a, b];
  }

  // ---------------------------------------------------------------------------
  // Whitespace and String.prototype.trim
  // ---------------------------------------------------------------------------

  /** The characters `trim` removes: ECMAScript WhiteSpace and LineTerminator. */
  predicate IsJsWhitespace(c: char) {
    c == '\t' || c == '\n' || c == '\U{000B}' || c == '\U{000C}' || c == '\r' || c == ' '
    || c == '\U{00A0}' || c == '\U{1680}' || ('\U{2000}' <= c <= '\U{200A}')
    || c == '\U{2028}' || c == '\U{2029}' || c == '\U{202F}' || c == '\U{205F}'
    || c == '\U{3000}' || c == '\U{FEFF}'
  }

  predicate AllWhitespace(s: string) {
    forall i :: 0 <= i < |s| ==> IsJsWhitespace(s[i])
  }

  /** Drops leading whitespace: the result is a suffix of `s` that does not
      start with whitespace, and only whitespace was dropped. */
  function TrimStart(s: string): (r: string)
    ensures |r| <= |s| && r == s[|s| - |r|..]
    ensures AllWhitespace(s[..|s| - |r|])
    ensures |r| > 0 ==> !IsJsWhitespace(r[0])
    decreases |s|
  {
    if |s| > 0 && IsJsWhitespace(s[0]) then TrimStart(s[1..]) else s
  }

  /** Drops trailing whitespace: the result is a prefix of `s` that does not
      end with whitespace, and only whitespace was dropped. */
  function TrimEnd(s: string): (r: string)
    ensures |r| <= |s| && r == s[..|r|]
    ensures AllWhitespace(s[|r|..])
    ensures |r| > 0 ==> !IsJsWhitespace(r[|r| - 1])
    decreases |s|
  {
    if |s| > 0 && IsJsWhitespace(s[|s| - 1]) then TrimEnd(s[..|s| - 1]) else s
  }

  /** `s.trim()`. */
  function Trim(s: string): (r: string)
    ensures |r| <= |s|
    ensures r == "" <==> AllWhitespace(s)
    ensures |r| > 0 ==> !IsJsWhitespace(r[0]) && !IsJsWhitespace(r[|r| - 1])
  {
    var t := TrimStart(s);
    var r := TrimEnd(t);
    if r == "" then
      assert AllWhitespace(t[0..]);
      assert |t| == 0;
      assert s[..|s| - |t|] == s;
      r
    else
      assert r[0] == t[0];
      r
  }

  /** A string without whitespace at either end is its own trim. */
  lemma TrimOfTrimmed(s: string)
    requires |s| > 0 ==> !IsJsWhitespace(s[0]) && !IsJsWhitespace(s[|s| - 1])
    ensures Trim(s) == s
  {
  }

  /** Trimming twice trims no more than once. */
  lemma TrimIdempotent(s: string)
    ensures Trim(Trim(s)) == Trim(s)
  {
    TrimOfTrimmed(Trim(s));
  }

  // ---------------------------------------------------------------------------
  // String.prototype.toLowerCase (ASCII letters)
  // ---------------------------------------------------------------------------

  predicate IsAsciiUpper(c: char) {
    'A' <= c <= 'Z'
  }

  function LowerChar(c: char): char {
    if IsAsciiUpper(c) then (c as int + 32) as char else c
  }

  /** The lower-case letters, in alphabetical order. */
  const LowerLetters: string := "abcdefghijklmnopqrstuvwxyz"

  /** The k-th capital letter becomes the k-th lower-case letter. */
  lemma LowerCharIsLetter(c: char)
    requires IsAsciiUpper(c)
    ensures LowerChar(c) == LowerLetters[c as int - 'A' as int]
  {
    assert forall j :: 0 <= j < 26 ==> LowerLetters[j] as int == 'a' as int + j;
  }

  lemma CapitalsLowered()
    ensures forall c :: IsAsciiUpper(c) ==> LowerChar(c) == LowerLetters[c as int - 'A' as int]
  {
    forall c | IsAsciiUpper(c)
      ensures LowerChar(c) == LowerLetters[c as int - 'A' as int]
    {
      LowerCharIsLetter(c);
    }
  }

  /** `s.toLowerCase()`, restricted to the ASCII letters. */
  function ToLower(s: string): (r: string)
    ensures |r| == |s|
    ensures forall i :: 0 <= i < |s| ==> !IsAsciiUpper(r[i])
    ensures forall i :: 0 <= i < |s| && !IsAsciiUpper(s[i]) ==> r[i] == s[i]
    ensures forall i :: 0 <= i < |s| && IsAsciiUpper(s[i]) ==> r[i] == LowerLetters[s[i] as int - 'A' as int]
  {
    CapitalsLowered();
    seq(|s|, i requires 0 <= i < |s| => LowerChar(s[i]))
  }

  /** Lower-casing keeps the length, leaves no upper-case letter, turns each
      capital into its lower-case letter, changes nothing else, and is
      idempotent. */
  lemma ToLowerFacts(s: string)
    ensures |ToLower(s)| == |s|
    ensures forall i :: 0 <= i < |s| ==> !IsAsciiUpper(ToLower(s)[i])
    ensures forall i :: 0 <= i < |s| && !IsAsciiUpper(s[i]) ==> ToLower(s)[i] == s[i]
    ensures forall i :: 0 <= i < |s| && IsAsciiUpper(s[i]) ==> ToLower(s)[i] == LowerLetters[s[i] as int - 'A' as int]
    ensures ToLower(ToLower(s)) == ToLower(s)
    ensures forall i :: 0 <= i < |s| ==> (IsJsWhitespace(ToLower(s)[i]) <==> IsJsWhitespace(s[i]))
  {
  }

  // ---------------------------------------------------------------------------
  // Searching
  // ---------------------------------------------------------------------------

  /** `s.indexOf(c)`: the first position holding `c`, if any. */
  function IndexOf(s: string, c: char): (r: Option<nat>)
    ensures r.Some? ==> r.value < |s| && s[r.value] == c
    ensures r.Some? ==> forall k :: 0 <= k < r.value ==> s[k] != c
    ensures r.None? ==> forall k :: 0 <= k < |s| ==> s[k] != c
    decreases |s|
  {
    if |s| == 0 then None
    else if s[0] == c then Some(0)
    else match IndexOf(s[1..], c)
      case None => None
      case Some(k) => Some(k + 1)
  }

  /** `s.lastIndexOf(c)`: the last position holding `c`, if any. */
  function LastIndexOf(s: string, c: char): (r: Option<nat>)
    ensures r.Some? ==> r.value < |s| && s[r.value] == c
    ensures r.Some? ==> forall k :: r.value < k < |s| ==> s[k] != c
    ensures r.None? ==> forall k :: 0 <= k < |s| ==> s[k] != c
    decreases |s|
  {
    if |s| == 0 then None
    else if s[|s| - 1] == c then Some(|s| - 1)
    else LastIndexOf(s[..|s| - 1], c)
  }

  /** `pat` occurs in `s` starting at position `q`. */
  predicate OccursAt(s: string, pat: string, q: int) {
    0 <= q && q + |pat| <= |s| && s[q..q + |pat|] == pat
  }

  /** `s.includes(pat)`. */
  function Contains(s: string, pat: string): (b: bool)
    ensures b <==> exists q :: OccursAt(s, pat, q)
    decreases |s|
  {
    if |s| < |pat| then false
    else if s[..|pat|] == pat then
      assert OccursAt(s, pat, 0);
      true
    else
      var rest := Contains(s[1..], pat);
      assert forall q :: OccursAt(s[1..], pat, q) ==> OccursAt(s, pat, q + 1) by {
        forall q | OccursAt(s[1..], pat, q) ensures OccursAt(s, pat, q + 1) {
          SliceOfSlice(s, 1, |s|, q, q + |pat|);
        }
      }
      assert forall q :: OccursAt(s, pat, q) ==> q == 0 || OccursAt(s[1..], pat, q - 1) by {
        forall q | OccursAt(s, pat, q) && q != 0 ensures OccursAt(s[1..], pat, q - 1) {
          SliceOfSlice(s, 1, |s|, q - 1, q - 1 + |pat|);
        }
      }
      rest
  }

  lemma SliceOfSlice(s: string, lo: nat, hi: nat, a: nat, b: nat)
    requires lo <= hi <= |s| && a <= b <= hi - lo
    ensures s[lo..hi][a..b] == s[lo + a..lo + b]
  {
    forall k | 0 <= k < b - a ensures s[lo..hi][a..b][k] == s[lo + a..lo + b][k] {
    }
  }

  /** Occurrences inside the slice `s[lo..hi]` are the occurrences in `s` that
      start at or after `lo` and end at or before `hi`. */
  lemma OccursInSlice(s: string, pat: string, lo: nat, hi: nat)
    requires lo <= hi <= |s|
    ensures (exists q :: OccursAt(s[lo..hi], pat, q))
        <==> (exists q :: lo <= q && q + |pat| <= hi && OccursAt(s, pat, q))
  {
    if exists q :: OccursAt(s[lo..hi], pat, q) {
      var q :| OccursAt(s[lo..hi], pat, q);
      SliceOfSlice(s, lo, hi, q, q + |pat|);
      assert OccursAt(s, pat, lo + q);
    }
    if exists q :: lo <= q && q + |pat| <= hi && OccursAt(s, pat, q) {
      var q :| lo <= q && q + |pat| <= hi && OccursAt(s, pat, q);
      SliceOfSlice(s, lo, hi, q - lo, q - lo + |pat|);
      assert OccursAt(s[lo..hi], pat, q - lo);
    }
  }

  // ---------------------------------------------------------------------------
  // Decimal rendering: String(n) and `${n}` for integers
  // ---------------------------------------------------------------------------

  predicate IsDecimalDigit(c: char) {
    '0' <= c <= '9'
  }

  predicate AllDecimalDigits(s: string) {
    forall i :: 0 <= i < |s| ==> IsDecimalDigit(s[i])
  }

  function DigitChar(d: nat): char
    requires d < 10
  {
    ('0' as int + d) as char
  }

  /** The shortest decimal rendering of `n`: non-empty, all digits, and with no
      leading zero unless it is "0". */
  function NatToDecimal(n: nat): (s: string)
    ensures |s| > 0 && AllDecimalDigits(s)
    ensures s[0] == '0' ==> s == "0"
    ensures n >= 10 ==> |s| >= 2
    decreases n
  {
    if n < 10 then [DigitChar(n)]
    else NatToDecimal(n / 10) + [DigitChar(n % 10)]
  }

  /** `String(n)` for an integer `n`. */
  function IntToDecimal(n: int): string {
    if n < 0 then "-" + NatToDecimal(-n) else NatToDecimal(n)
  }

  // ---------------------------------------------------------------------------
  // parseInt
  // ---------------------------------------------------------------------------

  /** A JavaScript number as far as the handlers use one: an integer or NaN. */
  datatype Number = Finite(value: int) | NaN

  /** The value of `c` as a digit (0-9, then a-z / A-Z from 10); 36 for any
      other character, which is a digit in no radix. */
  function DigitValue(c: char): nat {
    if '0' <= c <= '9' then c as int - '0' as int
    else if 'a' <= c <= 'z' then c as int - 'a' as int + 10
    else if 'A' <= c <= 'Z' then c as int - 'A' as int + 10
    else 36
  }

  predicate IsDigitIn(c: char, radix: nat) {
    DigitValue(c) < radix
  }

  /** The length of the longest prefix of `s` made of radix-`radix` digits. */
  function DigitRunLength(s: string, radix: nat): (k: nat)
    ensures k <= |s|
    ensures forall i :: 0 <= i < k ==> IsDigitIn(s[i], radix)
    ensures k < |s| ==> !IsDigitIn(s[k], radix)
    decreases |s|
  {
    if |s| > 0 && IsDigitIn(s[0], radix) then 1 + DigitRunLength(s[1..], radix) else 0
  }

  /** The value of the digit string `s` in radix `radix`. */
  function DigitsValue(s: string, radix: nat): nat
    decreases |s|
  {
    if |s| == 0 then 0 else DigitsValue(s[..|s| - 1], radix) * radix + DigitValue(s[|s| - 1])
  }

  /** `parseInt(s, 10)` (`radixAbsent` false) or `parseInt(s)` (`radixAbsent`
      true, where a leading "0x"/"0X" selects radix 16): skip leading whitespace,
      read an optional sign, then the longest run of digits; NaN when there is
      none. */
  function ParseIntWith(s: string, radixAbsent: bool): (r: Number)
    // a string without a decimal digit is not a number
    ensures (forall i :: 0 <= i < |s| ==> !IsDecimalDigit(s[i])) ==> r.NaN?
    // with radix 10, a digit after the leading whitespace gives a number
    ensures !radixAbsent && |TrimStart(s)| > 0 && IsDecimalDigit(TrimStart(s)[0]) ==> r.Finite? && r.value >= 0
  {
    var t := TrimStart(s);
    assert forall i :: 0 <= i < |t| ==> t[i] == s[|s| - |t| + i];
    ParseSigned(t, radixAbsent)
  }

  /** The sign, then the digits. */
  function ParseSigned(t: string, radixAbsent: bool): (r: Number)
    ensures (forall i :: 0 <= i < |t| ==> !IsDecimalDigit(t[i])) ==> r.NaN?
    ensures !radixAbsent && |t| > 0 && IsDecimalDigit(t[0]) ==> r.Finite? && r.value >= 0
  {
    if |t| > 0 && t[0] == '-' then Negate(ParseUnsigned(t[1..], radixAbsent))
    else if |t| > 0 && t[0] == '+' then ParseUnsigned(t[1..], radixAbsent)
    else ParseUnsigned(t, radixAbsent)
  }

  function Negate(x: Number): Number {
    if x.NaN? then NaN else Finite(-x.value)
  }

  /** The value of the longest run of digits at the start of `u`. */
  function ParseUnsigned(u: string, radixAbsent: bool): (r: Number)
    ensures (|u| == 0 || !IsDecimalDigit(u[0])) ==> r.NaN?
    ensures !radixAbsent && |u| > 0 && IsDecimalDigit(u[0]) ==> r.Finite? && r.value >= 0
  {
    var hex := radixAbsent && |u| >= 2 && u[0] == '0' && (u[1] == 'x' || u[1] == 'X');
    var radix := if hex then 16 else 10;
    var digits := if hex then u[2..] else u;
    var k := DigitRunLength(digits, radix);
    if k == 0 then NaN else Finite(DigitsValue(digits[..k], radix))
  }

  /** `parseInt(s, 10)`. */
  function ParseIntDecimal(s: string): Number {
    ParseIntWith(s, false)
  }

  /** `parseInt(s)` with no radix argument. */
  function ParseIntNoRadix(s: string): Number {
    ParseIntWith(s, true)
  }

  lemma {:induction false} DigitRunOfDigits(s: string, radix: nat)
    requires forall i :: 0 <= i < |s| ==> IsDigitIn(s[i], radix)
    ensures DigitRunLength(s, radix) == |s|
    decreases |s|
  {
    if |s| > 0 {
      DigitRunOfDigits(s[1..], radix);
    }
  }

  lemma {:induction false} DecimalValue(n: nat)
    ensures DigitsValue(NatToDecimal(n), 10) == n
    decreases n
  {
    if n >= 10 {
      var s := NatToDecimal(n);
      assert s[..|s| - 1] == NatToDecimal(n / 10);
      DecimalValue(n / 10);
    }
  }

  /** Reading back a rendered integer gives the integer again, with or without
      the radix argument. */
  lemma {:induction false} DecimalRoundTrip(n: nat)
    ensures ParseIntDecimal(NatToDecimal(n)) == Finite(n)
    ensures ParseIntNoRadix(NatToDecimal(n)) == Finite(n)
  {
    NaturalRead(n, false);
    NaturalRead(n, true);
  }

  lemma {:induction false} NaturalRead(m: nat, radixAbsent: bool)
    ensures ParseIntWith(NatToDecimal(m), radixAbsent) == Finite(m)
  {
    var d := NatToDecimal(m);
    TrimStartUnchanged(d);
    DigitsRead(d, radixAbsent);
    DecimalValue(m);
  }

  /** A rendered negative integer reads back as itself, with or without the
      radix argument. */
  lemma {:induction false} NegativeRead(n: nat, radixAbsent: bool)
    ensures ParseIntWith("-" + NatToDecimal(n), radixAbsent) == Finite(-(n as int))
  {
    var d := NatToDecimal(n);
    var s := "-" + d;
    TrimStartUnchanged(s);
    assert s[1..] == d;
    DigitsRead(d, radixAbsent);
    DecimalValue(n);
  }

  /** `parseInt(String(n))` gives any integer `n` back, with or without the
      radix argument. */
  lemma {:induction false} IntegerRoundTrip(n: int, radixAbsent: bool)
    ensures ParseIntWith(IntToDecimal(n), radixAbsent) == Finite(n)
  {
    if n < 0 {
      var m: nat := -n;
      assert IntToDecimal(n) == "-" + NatToDecimal(m);
      NegativeRead(m, radixAbsent);
    } else {
      var m: nat := n;
      assert IntToDecimal(n) == NatToDecimal(m);
      NaturalRead(m, radixAbsent);
    }
  }

  /** "0x" followed by hexadecimal digits is read in radix 16 when no radix
      is given. */
  lemma {:induction false} HexRead(h: string)
    requires |h| > 0 && forall i :: 0 <= i < |h| ==> IsDigitIn(h[i], 16)
    ensures ParseIntNoRadix("0x" + h) == Finite(DigitsValue(h, 16))
  {
    var s := "0x" + h;
    TrimStartUnchanged(s);
    assert ParseIntNoRadix(s) == ParseUnsigned(s, true);
    assert s[2..] == h;
    DigitRunOfDigits(h, 16);
    assert h[..|h|] == h;
  }

  /** With radix 10 the same string reads as the single digit 0. */
  lemma {:induction false} HexAsDecimal(h: string)
    ensures ParseIntDecimal("0x" + h) == Finite(0)
  {
    var s := "0x" + h;
    TrimStartUnchanged(s);
    assert ParseIntDecimal(s) == ParseUnsigned(s, false);
    assert DigitRunLength(s[1..], 10) == 0;
    assert DigitRunLength(s, 10) == 1;
    assert s[..1] == "0" && "0"[..0] == "";
    assert DigitsValue("0", 10) == 0;
  }

  lemma {:induction false} TrimStartUnchanged(s: string)
    requires |s| > 0 && !IsJsWhitespace(s[0])
    ensures TrimStart(s) == s
  {
  }

  /** A run of decimal digits that does not start with "0x" reads as its value. */
  lemma {:induction false} DigitsRead(d: string, radixAbsent: bool)
    requires |d| > 0 && AllDecimalDigits(d) && (d[0] == '0' ==> d == "0")
    ensures ParseUnsigned(d, radixAbsent) == Finite(DigitsValue(d, 10))
  {
    DigitRunOfDigits(d, 10);
    assert d[..|d|] == d;
  }

  lemma {:induction false} DigitRunPrefix(d: string, rest: string, radix: nat)
    requires forall i :: 0 <= i < |d| ==> IsDigitIn(d[i], radix)
    requires |rest| > 0 && !IsDigitIn(rest[0], radix)
    ensures DigitRunLength(d + rest, radix) == |d|
    decreases |d|
  {
    if |d| > 0 {
      assert (d + rest)[1..] == d[1..] + rest;
      DigitRunPrefix(d[1..], rest, radix);
    } else {
      assert d + rest == rest;
    }
  }

  /** `parseInt(s, 10)` reads a rendered number and stops at the first
      character that is not a digit. */
  lemma {:induction false} ParseDecimalPrefix(n: nat, rest: string)
    requires |rest| > 0 && !IsDigitIn(rest[0], 10)
    ensures ParseIntDecimal(NatToDecimal(n) + rest) == Finite(n)
  {
    var d := NatToDecimal(n);
    var s := d + rest;
    assert s[0] == d[0];
    assert TrimStart(s) == s;
    assert ParseIntDecimal(s) == ParseUnsigned(s, false);
    DigitRunPrefix(d, rest, 10);
    assert s[..|d|] == d;
    DecimalValue(n);
  }
}
