/** Percent-encoding as the API helpers use it: `encodeURIComponent` for path
    segments and query values, and the application/x-www-form-urlencoded
    serializer behind `URLSearchParams.toString()`. Both encode a character
    as the UTF-8 bytes of its code point, each written `%XY` in upper-case hex. */
module UriEncoding {
  import opened Text

  predicate IsAsciiAlnum(c: char) {
    ('A' <= c <= 'Z') || ('a' <= c <= 'z') || ('0' <= c <= '9')
  }

  /** Characters `encodeURIComponent` leaves alone. */
  predicate UriUnreserved(c: char) {
    IsAsciiAlnum(c) || c in "-_.!~*'()"
  }

  /** Characters the form serializer leaves alone (space becomes '+'). */
  predicate FormUnreserved(c: char) {
    IsAsciiAlnum(c) || c in "*-._"
  }

  predicate IsUpperHex(c: char) {
    ('0' <= c <= '9') || ('A' <= c <= 'F')
  }

  function HexDigit(d: nat): (c: char)
    requires d < 16
    ensures IsUpperHex(c)
  {
    if d < 10 then '0' + d as char else 'A' + (d - 10) as char
  }

  /** `%XY` for one byte. */
  function PercentByte(b: nat): (r: string)
    requires b < 256
    ensures |r| == 3 && r[0] == '%' && IsUpperHex(r[1]) && IsUpperHex(r[2])
  {
    ['%', HexDigit(b / 16), HexDigit(b % 16)]
  }

  /** The UTF-8 encoding of a code point. */
  function Utf8(c: char): (bytes: seq<nat>)
    ensures 1 <= |bytes| <= 4
    ensures forall i :: 0 <= i < |bytes| ==> bytes[i] < 256
  {
    var n := c as int;
    if n < 0x80 then [n]
    else if n < 0x800 then [0xC0 + n / 64, 0x80 + n % 64]
    else if n < 0x10000 then [0xE0 + n / 4096, 0x80 + (n / 64) % 64, 0x80 + n % 64]
    else [0xF0 + n / 262144, 0x80 + (n / 4096) % 64, 0x80 + (n / 64) % 64, 0x80 + n % 64]
  }

  function PercentBytes(bytes: seq<nat>): (r: string)
    requires forall i :: 0 <= i < |bytes| ==> bytes[i] < 256
    ensures forall i :: 0 <= i < |r| ==> r[i] == '%' || IsUpperHex(r[i])
  {
    if |bytes| == 0 then [] else PercentByte(bytes[0]) + PercentBytes(bytes[1..])
  }

  /** `encodeURIComponent(s)`. */
  function EncodeUriComponent(s: string): (r: string)
    ensures forall i :: 0 <= i < |r| ==> UriUnreserved(r[i]) || r[i] == '%' || IsUpperHex(r[i])
    ensures (forall i :: 0 <= i < |s| ==> UriUnreserved(s[i])) ==> r == s
  {
    if |s| == 0 then []
    else if UriUnreserved(s[0]) then [s[0]] + EncodeUriComponent(s[1..])
    else PercentBytes(Utf8(s[0])) + EncodeUriComponent(s[1..])
  }

  /** One name or value as `URLSearchParams` serializes it. */
  function FormEncode(s: string): (r: string)
    ensures forall i :: 0 <= i < |r| ==> FormUnreserved(r[i]) || r[i] == '%' || r[i] == '+' || IsUpperHex(r[i])
  {
    if |s| == 0 then []
    else if FormUnreserved(s[0]) then [s[0]] + FormEncode(s[1..])
    else if s[0] == ' ' then "+" + FormEncode(s[1..])
    else PercentBytes(Utf8(s[0])) + FormEncode(s[1..])
  }

  /** Neither encoding can produce a character that delimits a path segment
      or a query parameter. */
  lemma EncodingsHaveNoDelimiters(s: string)
    ensures forall c :: c in "/?#&=" ==> c !in EncodeUriComponent(s) && c !in FormEncode(s)
  {
  }
}
