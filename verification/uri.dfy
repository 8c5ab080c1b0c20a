/** encodeURIComponent, used to put place ids and search text into URLs.
    Characters outside the unreserved set become the percent-encoded bytes
    of their UTF-8 form. */
module Uri {
  import opened Text
  import opened Js

  /** The characters encodeURIComponent leaves alone. */
  predicate Unreserved(c: char)
  {
    IsAlnum(c) || c == '-' || c == '_' || c == '.' || c == '!' || c == '~'
    || c == '*' || c == '\'' || c == '(' || c == ')'
  }

  predicate IsHexUpper(c: char) { IsDigit(c) || ('A' <= c <= 'F') }

  function HexDigit(n: nat): (c: char)
    requires n < 16
    ensures IsHexUpper(c)
  {
    if n < 10 then ('0' as int + n) as char else ('A' as int + n - 10) as char
  }

  function HexValue(c: char): (n: nat)
    requires IsHexUpper(c)
    ensures n < 16
  {
    if IsDigit(c) then c as int - '0' as int else c as int - 'A' as int + 10
  }

  lemma HexRoundTrip(n: nat)
    requires n < 16
    ensures HexValue(HexDigit(n)) == n
  {
  }

  predicate IsByte(b: int) { 0 <= b < 256 }

  /** The UTF-8 encoding of one Unicode scalar value. */
  function Utf8(c: char): (bytes: seq<int>)
    ensures 1 <= |bytes| <= 4
    ensures forall i :: 0 <= i < |bytes| ==> IsByte(bytes[i])
    ensures c as int < 0x80 <==> |bytes| == 1
    ensures c as int < 0x80 ==> bytes == [c as int]
  {
    var cp := c as int;
    if cp < 0x80 then [cp]
    else if cp < 0x800 then [0xC0 + cp / 64, 0x80 + cp % 64]
    else if cp < 0x10000 then [0xE0 + cp / 4096, 0x80 + (cp / 64) % 64, 0x80 + cp % 64]
    else [0xF0 + cp / 262144, 0x80 + (cp / 4096) % 64, 0x80 + (cp / 64) % 64, 0x80 + cp % 64]
  }

  function Utf8String(s: string): seq<int>
  {
    if |s| == 0 then [] else Utf8(s[0]) + Utf8String(s[1..])
  }

  function PercentBytes(bytes: seq<int>): (r: string)
    requires forall i :: 0 <= i < |bytes| ==> IsByte(bytes[i])
    ensures |r| == 3 * |bytes|
  {
    if |bytes| == 0 then []
    else
      assert IsByte(bytes[0]);
      ['%', HexDigit(bytes[0] / 16), HexDigit(bytes[0] % 16)] + PercentBytes(bytes[1..])
  }

  function EncodeChar(c: char): (r: string)
    ensures Unreserved(c) ==> r == [c]
    ensures !Unreserved(c) ==> r == PercentBytes(Utf8(c))
  {
    if Unreserved(c) then [c] else PercentBytes(Utf8(c))
  }

  /** encodeURIComponent */
  function EncodeURIComponent(s: string): (r: string)
    ensures |r| >= |s|
    ensures UriSafe(r)
  {
    if |s| == 0 then ""
    else
      PercentBytesSafe(Utf8(s[0]));
      EncodeChar(s[0]) + EncodeURIComponent(s[1..])
  }

  /** What encodeURIComponent can produce: unreserved characters, and `%`
      followed by two hex digits. */
  predicate UriSafe(s: string)
  {
    forall i :: 0 <= i < |s| ==> Unreserved(s[i]) || s[i] == '%' || IsHexUpper(s[i])
  }

  lemma {:induction false} PercentBytesSafe(bytes: seq<int>)
    requires forall i :: 0 <= i < |bytes| ==> IsByte(bytes[i])
    ensures UriSafe(PercentBytes(bytes))
  {
    if |bytes| > 0 {
      PercentBytesSafe(bytes[1..]);
    }
  }

  /** A string of unreserved characters is its own encoding. */
  lemma {:induction false} EncodeUnreservedIdentity(s: string)
    requires forall i :: 0 <= i < |s| ==> Unreserved(s[i])
    ensures EncodeURIComponent(s) == s
  {
    if |s| > 0 {
      EncodeUnreservedIdentity(s[1..]);
      assert s == [s[0]] + s[1..];
    }
  }

  /** Reading an encoded string back byte by byte: an unreserved character
      is its own code, `%XY` is the byte XY. */
  function DecodeToBytes(s: string): Option<seq<int>>
  {
    if |s| == 0 then Some([])
    else if s[0] == '%' then
      if |s| >= 3 && IsHexUpper(s[1]) && IsHexUpper(s[2]) then
        match DecodeToBytes(s[3..])
        case None => None
        case Some(rest) => Some([16 * HexValue(s[1]) + HexValue(s[2])] + rest)
      else None
    else if Unreserved(s[0]) then
      match DecodeToBytes(s[1..])
      case None => None
      case Some(rest) => Some([s[0] as int] + rest)
    else None
  }

  /** Percent-decoding the encoding gives back the UTF-8 bytes of the input:
      encodeURIComponent loses nothing. */
  lemma {:induction false} EncodeDecodesToUtf8(s: string)
    ensures DecodeToBytes(EncodeURIComponent(s)) == Some(Utf8String(s))
  {
    if |s| > 0 {
      EncodeDecodesToUtf8(s[1..]);
      var c := s[0];
      var tail := EncodeURIComponent(s[1..]);
      if Unreserved(c) {
        assert ([c] + tail)[1..] == tail;
      } else {
        DecodePercentPrefix(Utf8(c), tail, Utf8String(s[1..]));
      }
    }
  }

  lemma {:induction false} DecodePercentPrefix(bytes: seq<int>, tail: string, rest: seq<int>)
    requires forall i :: 0 <= i < |bytes| ==> IsByte(bytes[i])
    requires DecodeToBytes(tail) == Some(rest)
    ensures DecodeToBytes(PercentBytes(bytes) + tail) == Some(bytes + rest)
  {
    if |bytes| > 0 {
      var b := bytes[0];
      DecodePercentPrefix(bytes[1..], tail, rest);
      assert IsByte(b);
      var esc := ['%', HexDigit(b / 16), HexDigit(b % 16)];
      var after := PercentBytes(bytes[1..]) + tail;
      assert PercentBytes(bytes) + tail == esc + after;
      DecodeEscape(b, after, bytes[1..] + rest);
      assert [b] + (bytes[1..] + rest) == bytes + rest;
    } else {
      assert PercentBytes(bytes) + tail == tail && bytes + rest == rest;
    }
  }

  /** One `%XY` escape in front decodes to its byte in front. */
  lemma DecodeEscape(b: int, after: string, rest: seq<int>)
    requires IsByte(b) && DecodeToBytes(after) == Some(rest)
    ensures DecodeToBytes(['%', HexDigit(b / 16), HexDigit(b % 16)] + after) == Some([b] + rest)
  {
    var s := ['%', HexDigit(b / 16), HexDigit(b % 16)] + after;
    assert s[3..] == after;
    HexRoundTrip(b / 16);
    HexRoundTrip(b % 16);
    assert 16 * HexValue(s[1]) + HexValue(s[2]) == b;
  }
}
