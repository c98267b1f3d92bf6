/**
 * The string rules of Rust's standard library that the blog code relies on:
 * decimal formatting (`{}` of an integer), `str::parse` for integers,
 * `String::len` (a UTF-8 byte count), `char::is_whitespace`, `str::trim`,
 * `str::split` on one character, `starts_with` and `strip_prefix`.
 */
module Text {
  import opened Wrappers

  // ---------------------------------------------------------------------
  // Decimal digits
  // ---------------------------------------------------------------------

  predicate IsDigit(c: char) { '0' <= c <= '9' }

  function DigitValue(c: char): nat
    requires IsDigit(c)
  {
    (c as int) - ('0' as int)
  }

  function DigitChar(d: nat): (c: char)
    requires d < 10
    ensures IsDigit(c) && DigitValue(c) == d
  {
    ('0' as int + d) as char
  }

  predicate AllDigits(s: string) {
    forall i :: 0 <= i < |s| ==> IsDigit(s[i])
  }

  /** Decimal rendering of a natural number, as Rust's `{}` prints it: no sign, no leading zeros. */
  function NatToString(n: nat): (s: string)
    ensures |s| >= 1 && AllDigits(s)
    ensures |s| > 1 ==> s[0] != '0'
    decreases n
  {
    if n < 10 then [DigitChar(n)] else NatToString(n / 10) + [DigitChar(n % 10)]
  }

  /** Decimal rendering of an integer: a '-' in front of negative values. */
  function IntToString(i: int): (s: string)
    ensures i < 0 <==> (|s| > 0 && s[0] == '-')
  {
    if i < 0 then "-" + NatToString(-i) else NatToString(i)
  }

  /** The value of a digit string read left to right, starting from `acc`. */
  function ValueFrom(acc: int, s: string): int
    requires AllDigits(s)
    decreases |s|
  {
    if s == [] then acc else ValueFrom(acc * 10 + DigitValue(s[0]), s[1..])
  }

  /** The number a digit string denotes. */
  function Value(s: string): int
    requires AllDigits(s)
  {
    ValueFrom(0, s)
  }

  lemma {:induction false} ValueFromAppend(acc: int, s: string, c: char)
    requires AllDigits(s) && IsDigit(c)
    ensures AllDigits(s + [c])
    ensures ValueFrom(acc, s + [c]) == ValueFrom(acc, s) * 10 + DigitValue(c)
    decreases |s|
  {
    if s == [] {
      assert s + [c] == [c];
    } else {
      assert (s + [c])[1..] == s[1..] + [c];
      ValueFromAppend(acc * 10 + DigitValue(s[0]), s[1..], c);
    }
  }

  lemma {:induction false} ValueFromGrows(acc: int, s: string)
    requires AllDigits(s) && acc >= 0
    ensures ValueFrom(acc, s) >= acc
    decreases |s|
  {
    if s != [] {
      ValueFromGrows(acc * 10 + DigitValue(s[0]), s[1..]);
    }
  }

  /** Rendering then reading a natural number gives it back. */
  lemma {:induction false} ValueOfNatToString(n: nat)
    ensures Value(NatToString(n)) == n
    decreases n
  {
    if n >= 10 {
      var front, last := NatToString(n / 10), DigitChar(n % 10);
      assert NatToString(n) == front + [last];
      ValueOfNatToString(n / 10);
      ValueFromAppend(0, front, last);
      assert Value(front) == n / 10;
      assert DigitValue(last) == n % 10;
      assert Value(NatToString(n)) == Value(front) * 10 + DigitValue(last);
    } else {
      var c := DigitChar(n);
      assert NatToString(n) == [c];
      assert ValueFrom(0, [c]) == ValueFrom(DigitValue(c), []);
    }
  }

  // ---------------------------------------------------------------------
  // Integer parsing with the rules of Rust's `from_str` for integer types
  // ---------------------------------------------------------------------

  /** The kinds of `std::num::ParseIntError`. */
  datatype IntErrorKind = Empty | InvalidDigit | PosOverflow | NegOverflow

  /** The `Display` text of a `ParseIntError`. */
  function IntErrorText(k: IntErrorKind): string {
    match k
    case Empty => "cannot parse integer from empty string"
    case InvalidDigit => "invalid digit found in string"
    case PosOverflow => "number too large to fit in target type"
    case NegOverflow => "number too small to fit in target type"
  }

  /**
   * Reads the digits left to right from `acc`; the first non-digit, or the
   * first partial value leaving [min, max], ends the scan with that error.
   */
  function ScanDigits(s: string, acc: int, positive: bool, min: int, max: int): (r: Result<int, IntErrorKind>)
    requires min <= acc <= max
    ensures r.Success? ==> min <= r.value <= max
    ensures r.Success? ==> AllDigits(s)
    decreases |s|
  {
    if s == [] then Success(acc)
    else if !IsDigit(s[0]) then Failure(InvalidDigit)
    else
      var next := if positive then acc * 10 + DigitValue(s[0]) else acc * 10 - DigitValue(s[0]);
      if next > max then Failure(PosOverflow)
      else if next < min then Failure(NegOverflow)
      else ScanDigits(s[1..], next, positive, min, max)
  }

  /**
   * `s.parse::<T>()` for an integer type T with range [min, max]: an empty
   * string, and a sign with nothing after it, are errors; a leading '+' is
   * accepted; a leading '-' only when T is signed.
   */
  function ParseInteger(s: string, signed: bool, min: int, max: int): (r: Result<int, IntErrorKind>)
    requires min <= 0 <= max
    ensures r.Success? ==> min <= r.value <= max
    ensures s == [] ==> r == Failure(Empty)
  {
    if s == [] then Failure(Empty)
    else if (s[0] == '+' || s[0] == '-') && |s| == 1 then Failure(InvalidDigit)
    else if s[0] == '+' then ScanDigits(s[1..], 0, true, min, max)
    else if s[0] == '-' && signed then ScanDigits(s[1..], 0, false, min, max)
    else ScanDigits(s, 0, true, min, max)
  }

  const U16_MAX: int := 65535
  const I64_MIN: int := -0x8000_0000_0000_0000
  const I64_MAX: int := 0x7FFF_FFFF_FFFF_FFFF

  /** `s.parse::<u16>()` */
  function ParseU16(s: string): (r: Result<int, IntErrorKind>)
    ensures r.Success? ==> 0 <= r.value <= U16_MAX
  {
    ParseInteger(s, false, 0, U16_MAX)
  }

  /** `s.parse::<i64>()` */
  function ParseI64(s: string): (r: Result<int, IntErrorKind>)
    ensures r.Success? ==> I64_MIN <= r.value <= I64_MAX
  {
    ParseInteger(s, true, I64_MIN, I64_MAX)
  }

  lemma {:induction false} ScanDigitsExact(s: string, acc: int, min: int, max: int)
    requires AllDigits(s) && 0 <= acc && min <= acc <= max && ValueFrom(acc, s) <= max
    ensures ScanDigits(s, acc, true, min, max) == Success(ValueFrom(acc, s))
    decreases |s|
  {
    if s != [] {
      var next := acc * 10 + DigitValue(s[0]);
      ValueFromGrows(next, s[1..]);
      ScanDigitsExact(s[1..], next, min, max);
    }
  }

  /** Every value a type can hold is read back from its own decimal rendering. */
  lemma ParseNatToString(n: nat, signed: bool, min: int, max: int)
    requires min <= 0 <= n <= max
    ensures ParseInteger(NatToString(n), signed, min, max) == Success(n)
  {
    var s := NatToString(n);
    ValueOfNatToString(n);
    ScanDigitsExact(s, 0, min, max);
  }

  /** A '-' sign is never accepted by an unsigned type. */
  lemma UnsignedRejectsMinus(s: string, max: int)
    requires 0 <= max && |s| >= 1 && s[0] == '-'
    ensures ParseInteger(s, false, 0, max) == Failure(InvalidDigit)
  {
  }

  // ---------------------------------------------------------------------
  // UTF-8 length, whitespace and trimming
  // ---------------------------------------------------------------------

  /** Bytes one character takes in UTF-8. */
  function Utf8Width(c: char): nat {
    if c as int < 0x80 then 1
    else if c as int < 0x800 then 2
    else if c as int < 0x10000 then 3
    else 4
  }

  /** Rust's `String::len`: the length in UTF-8 bytes, not in characters. */
  function Utf8Len(s: string): (n: nat)
    ensures |s| <= n <= 4 * |s|
    ensures (forall i :: 0 <= i < |s| ==> s[i] as int < 0x80) ==> n == |s|
  {
    if s == [] then 0 else Utf8Width(s[0]) + Utf8Len(s[1..])
  }

  /** `char::is_whitespace`: the Unicode White_Space property. */
  predicate IsWhitespace(c: char) {
    var k := c as int;
    (0x09 <= k <= 0x0D) || k == 0x20 || k == 0x85 || k == 0xA0 || k == 0x1680 ||
    (0x2000 <= k <= 0x200A) || k == 0x2028 || k == 0x2029 || k == 0x202F ||
    k == 0x205F || k == 0x3000
  }

  /** `str::trim_start` */
  function TrimStart(s: string): (r: string)
    ensures |r| <= |s| && r == s[|s| - |r|..]
    ensures forall i :: 0 <= i < |s| - |r| ==> IsWhitespace(s[i])
    ensures r != [] ==> !IsWhitespace(r[0])
    decreases |s|
  {
    if s != [] && IsWhitespace(s[0]) then TrimStart(s[1..]) else s
  }

  /** `str::trim_end` */
  function TrimEnd(s: string): (r: string)
    ensures |r| <= |s| && r == s[..|r|]
    ensures forall i :: |r| <= i < |s| ==> IsWhitespace(s[i])
    ensures r != [] ==> !IsWhitespace(r[|r| - 1])
    decreases |s|
  {
    if s != [] && IsWhitespace(s[|s| - 1]) then TrimEnd(s[..|s| - 1]) else s
  }

  /** `str::trim`: the longest piece of `s` with no whitespace at either end. */
  function Trim(s: string): (r: string)
    ensures r != [] ==> !IsWhitespace(r[0]) && !IsWhitespace(r[|r| - 1])
    ensures |r| <= |TrimStart(s)| <= |s|
    ensures r == s[|s| - |TrimStart(s)|..|s| - |TrimStart(s)| + |r|]
  {
    TrimEnd(TrimStart(s))
  }

  // ---------------------------------------------------------------------
  // Splitting on one character, joining, prefixes
  // ---------------------------------------------------------------------

  /** The first position of `c` in `s`. */
  function IndexOf(s: string, c: char): (r: Option<nat>)
    ensures r.None? <==> c !in s
    ensures r.Some? ==> r.value < |s| && s[r.value] == c && c !in s[..r.value]
  {
    if s == [] then None
    else if s[0] == c then Some(0)
    else match IndexOf(s[1..], c)
      case None => None
      case Some(i) =>
        assert s[..i + 1] == [s[0]] + s[1..][..i];
        Some(i + 1)
  }

  /** `s.split(sep)`: the pieces between occurrences of `sep`; an empty `s` gives one empty piece. */
  function Split(s: string, sep: char): (parts: seq<string>)
    ensures |parts| >= 1
    ensures forall i :: 0 <= i < |parts| ==> sep !in parts[i]
    decreases |s|
  {
    match IndexOf(s, sep)
    case None => [s]
    case Some(i) => [s[..i]] + Split(s[i + 1..], sep)
  }

  /** `parts.join(sep)` */
  function Join(parts: seq<string>, sep: char): string
    decreases |parts|
  {
    if parts == [] then ""
    else if |parts| == 1 then parts[0]
    else parts[0] + [sep] + Join(parts[1..], sep)
  }

  /** Joining the pieces with the separator gives back the string. */
  lemma {:induction false} JoinSplit(s: string, sep: char)
    ensures Join(Split(s, sep), sep) == s
    decreases |s|
  {
    match IndexOf(s, sep)
    case None =>
    case Some(i) =>
      var rest := Split(s[i + 1..], sep);
      JoinSplit(s[i + 1..], sep);
      assert Split(s, sep) == [s[..i]] + rest;
      assert s == s[..i] + [sep] + s[i + 1..];
  }

  lemma {:induction false} IndexOfAfter(head: string, sep: char, tail: string)
    requires sep !in head
    ensures IndexOf(head + [sep] + tail, sep) == Some(|head|)
    decreases |head|
  {
    if head != [] {
      assert (head + [sep] + tail)[1..] == head[1..] + [sep] + tail;
      IndexOfAfter(head[1..], sep, tail);
    }
  }

  /** Splitting a join of separator-free pieces gives back the pieces. */
  lemma {:induction false} SplitJoin(parts: seq<string>, sep: char)
    requires |parts| >= 1
    requires forall i :: 0 <= i < |parts| ==> sep !in parts[i]
    ensures Split(Join(parts, sep), sep) == parts
    decreases |parts|
  {
    if |parts| > 1 {
      var head := parts[0];
      var tail := Join(parts[1..], sep);
      var s := head + [sep] + tail;
      assert s[..|head|] == head;
      assert s[|head|] == sep;
      IndexOfAfter(head, sep, tail);
      assert s[|head| + 1..] == tail;
      SplitJoin(parts[1..], sep);
    }
  }

  predicate StartsWith(s: string, prefix: string) {
    |prefix| <= |s| && s[..|prefix|] == prefix
  }

  /** `s.strip_prefix(prefix)` */
  function StripPrefix(s: string, prefix: string): (r: Option<string>)
    ensures r.Some? <==> StartsWith(s, prefix)
    ensures r.Some? ==> s == prefix + r.value
  {
    if StartsWith(s, prefix) then Some(s[|prefix|..]) else None
  }

  /** Stripping a prefix that was prepended gives back the rest, for every rest. */
  lemma StripPrefixOfConcat(prefix: string, rest: string)
    ensures StripPrefix(prefix + rest, prefix) == Some(rest)
  {
    assert (prefix + rest)[..|prefix|] == prefix;
    assert (prefix + rest)[|prefix|..] == rest;
  }
}
