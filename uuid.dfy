/**
 * UUIDs as the `uuid` crate handles them: sixteen bytes, rendered by
 * `to_string` in the hyphenated lower-case form (8-4-4-4-12 hex digits), and
 * read by `parse_str`/`from_str` in any of its four accepted forms (simple,
 * hyphenated, braced, URN) with hex digits of either case.
 */
module Uuids {
  import opened Wrappers
  import Text

  type Byte = b: int | 0 <= b < 256

  type Uuid = s: seq<Byte> | |s| == 16 witness seq(16, _ => 0)

  /** The text carried by a parse failure (the crate's own wording is not reproduced). */
  const PARSE_ERROR: string := "invalid UUID"

  function HexDigit(d: int): (c: char)
    requires 0 <= d < 16
  {
    if d < 10 then ('0' as int + d) as char else ('a' as int + d - 10) as char
  }

  /** A hex digit of either case, as the parser reads it. */
  function HexValue(c: char): (r: Option<int>)
    ensures r.Some? ==> 0 <= r.value < 16
  {
    if '0' <= c <= '9' then Some(c as int - '0' as int)
    else if 'a' <= c <= 'f' then Some(c as int - 'a' as int + 10)
    else if 'A' <= c <= 'F' then Some(c as int - 'A' as int + 10)
    else None
  }

  /** Two lower-case hex digits per byte. */
  function HexOfBytes(bs: seq<Byte>): (s: string)
    ensures |s| == 2 * |bs|
  {
    if bs == [] then "" else [HexDigit(bs[0] / 16), HexDigit(bs[0] % 16)] + HexOfBytes(bs[1..])
  }

  /** Reads pairs of hex digits back into bytes. */
  function BytesOfHex(s: string): (r: Option<seq<Byte>>)
    ensures r.Some? ==> 2 * |r.value| == |s|
    decreases |s|
  {
    if s == [] then Some([])
    else if |s| == 1 then None
    else match (HexValue(s[0]), HexValue(s[1]), BytesOfHex(s[2..]))
      case (Some(h), Some(l), Some(rest)) => Some([(h * 16 + l) as Byte] + rest)
      case _ => None
  }

  lemma {:induction false} HexOfBytesAppend(a: seq<Byte>, b: seq<Byte>)
    ensures HexOfBytes(a + b) == HexOfBytes(a) + HexOfBytes(b)
    decreases |a|
  {
    if a != [] {
      assert (a + b)[0] == a[0];
      assert (a + b)[1..] == a[1..] + b;
      HexOfBytesAppend(a[1..], b);
      var pair := [HexDigit(a[0] / 16), HexDigit(a[0] % 16)];
      assert HexOfBytes(a + b) == pair + HexOfBytes(a[1..] + b);
      assert HexOfBytes(a) == pair + HexOfBytes(a[1..]);
    } else {
      assert a + b == b;
    }
  }

  /** Hex encoding is undone by hex decoding. */
  lemma {:induction false} BytesOfHexOfBytes(bs: seq<Byte>)
    ensures BytesOfHex(HexOfBytes(bs)) == Some(bs)
    decreases |bs|
  {
    if bs != [] {
      var s := HexOfBytes(bs);
      assert s[2..] == HexOfBytes(bs[1..]);
      BytesOfHexOfBytes(bs[1..]);
      assert HexValue(s[0]) == Some(bs[0] / 16);
      assert HexValue(s[1]) == Some(bs[0] % 16);
      assert [bs[0]] + bs[1..] == bs;
    }
  }

  /** `Uuid::to_string`: the hyphenated lower-case form. */
  function ToString(u: Uuid): (s: string)
    ensures |s| == 36
    ensures s[8] == '-' && s[13] == '-' && s[18] == '-' && s[23] == '-'
  {
    HexOfBytes(u[..4]) + "-" + HexOfBytes(u[4..6]) + "-" + HexOfBytes(u[6..8]) + "-" +
    HexOfBytes(u[8..10]) + "-" + HexOfBytes(u[10..])
  }

  function FromHex(hex: string): (r: Result<Uuid, string>)
  {
    match BytesOfHex(hex)
    case Some(bs) => if |bs| == 16 then Success(bs) else Failure(PARSE_ERROR)
    case None => Failure(PARSE_ERROR)
  }

  /** The 36-character form: hyphens at 8, 13, 18 and 23, hex digits elsewhere. */
  function ParseHyphenated(s: string): (r: Result<Uuid, string>)
    requires |s| == 36
  {
    if s[8] == '-' && s[13] == '-' && s[18] == '-' && s[23] == '-' then
      FromHex(s[..8] + s[9..13] + s[14..18] + s[19..23] + s[24..])
    else Failure(PARSE_ERROR)
  }

  /** `Uuid::parse_str`: simple (32), hyphenated (36), braced (38) or URN (45) form. */
  function Parse(s: string): (r: Result<Uuid, string>)
  {
    if |s| == 32 then FromHex(s)
    else if |s| == 36 then ParseHyphenated(s)
    else if |s| == 38 && s[0] == '{' && s[37] == '}' then ParseHyphenated(s[1..37])
    else if |s| == 45 && Text.StartsWith(s, "urn:uuid:") then ParseHyphenated(s[9..])
    else Failure(PARSE_ERROR)
  }

  /** Parsing the rendered form of a UUID gives the same UUID. */
  lemma ParseToString(u: Uuid)
    ensures Parse(ToString(u)) == Success(u)
  {
    var s := ToString(u);
    var a, b, c, d, e := u[..4], u[4..6], u[6..8], u[8..10], u[10..];
    assert s[..8] == HexOfBytes(a);
    assert s[9..13] == HexOfBytes(b);
    assert s[14..18] == HexOfBytes(c);
    assert s[19..23] == HexOfBytes(d);
    assert s[24..] == HexOfBytes(e);
    HexOfBytesAppend(a, b);
    HexOfBytesAppend(a + b, c);
    HexOfBytesAppend(a + b + c, d);
    HexOfBytesAppend(a + b + c + d, e);
    assert a + b + c + d + e == u;
    BytesOfHexOfBytes(u);
  }

  /** Distinct UUIDs render differently. */
  lemma ToStringInjective(u: Uuid, v: Uuid)
    requires ToString(u) == ToString(v)
    ensures u == v
  {
    ParseToString(u);
    ParseToString(v);
  }
}
