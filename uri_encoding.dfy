/**
  `encodeURIComponent`: every character outside the unreserved marks of
  section 2.3 of RFC 3986 (with `!`, `~`, `*`, `'`, `(`, `)` also left alone, as
  ECMAScript does) is written as the `%HH` escapes of its UTF-8 bytes, with
  upper-case hexadecimal digits. A Dafny `char` is a Unicode scalar value, so
  the lone surrogates for which the browser throws cannot occur.
*/
module UriEncoding {

  type Byte = b: int | 0 <= b < 256

  /** The characters `encodeURIComponent` leaves as they are. */
  predicate IsUnreserved(c: char) {
    || ('A' <= c <= 'Z') || ('a' <= c <= 'z') || ('0' <= c <= '9')
    || c == '-' || c == '_' || c == '.' || c == '!' || c == '~' || c == '*' || c == '\'' || c == '(' || c == ')'
  }

  predicate IsUpperHex(c: char) {
    ('0' <= c <= '9') || ('A' <= c <= 'F')
  }

  function HexDigit(n: int): (c: char)
    requires 0 <= n < 16
    ensures IsUpperHex(c)
  {
    if n < 10 then ('0' as int + n) as char else ('A' as int + (n - 10)) as char
  }

  /** The UTF-8 bytes of one scalar value: one to four, the first a lead byte, the rest continuation bytes. */
  function Utf8(c: char): (bs: seq<Byte>)
    ensures 1 <= |bs| <= 4
    ensures c as int < 0x80 <==> |bs| == 1
    ensures |bs| == 1 ==> bs[0] == c as int
    ensures forall k :: 1 <= k < |bs| ==> 0x80 <= bs[k] < 0xC0
  {
    var cp := c as int;
    if cp < 0x80 then [cp]
    else if cp < 0x800 then [0xC0 + cp / 64, 0x80 + cp % 64]
    else if cp < 0x10000 then [0xE0 + cp / 4096, 0x80 + (cp / 64) % 64, 0x80 + cp % 64]
    else [0xF0 + cp / 262144, 0x80 + (cp / 4096) % 64, 0x80 + (cp / 64) % 64, 0x80 + cp % 64]
  }

  /** `%HH` for each byte. */
  function Escape(bs: seq<Byte>): (r: string)
    ensures |r| == 3 * |bs|
    ensures forall k :: 0 <= k < |r| ==> (k % 3 == 0 <==> r[k] == '%')
    ensures forall k :: 0 <= k < |r| && k % 3 != 0 ==> IsUpperHex(r[k])
  {
    if bs == [] then []
    else ['%', HexDigit(bs[0] / 16), HexDigit(bs[0] % 16)] + Escape(bs[1..])
  }

  /** Only unreserved characters, `%` and upper-case hexadecimal digits. */
  predicate IsEncoded(s: string) {
    forall k :: 0 <= k < |s| ==> IsUnreserved(s[k]) || s[k] == '%' || IsUpperHex(s[k])
  }

  function EncodeChar(c: char): (r: string)
    ensures IsUnreserved(c) ==> r == [c]
    ensures !IsUnreserved(c) ==> |r| >= 3 && r[0] == '%'
    ensures IsEncoded(r)
  {
    if IsUnreserved(c) then [c] else Escape(Utf8(c))
  }

  /** `encodeURIComponent(s)`: the characters' encodings one after another. Nothing in the
      result can end a query parameter (`&`), start another (`=` is not there either) or
      start a fragment (`#`). */
  function EncodeURIComponent(s: string): (r: string)
    ensures |r| >= |s|
    ensures IsEncoded(r)
    ensures forall k :: 0 <= k < |r| ==> r[k] != '&' && r[k] != '=' && r[k] != '#' && r[k] != '?' && r[k] != '/'
  {
    if s == [] then [] else EncodeChar(s[0]) + EncodeURIComponent(s[1..])
  }

  /** A string of unreserved characters is its own encoding. */
  lemma {:induction false} EncodeUnreserved(s: string)
    requires forall k :: 0 <= k < |s| ==> IsUnreserved(s[k])
    ensures EncodeURIComponent(s) == s
  {
    if s != [] {
      EncodeUnreserved(s[1..]);
    }
  }

  /** Encoding works character by character, so it distributes over concatenation. */
  lemma {:induction false} EncodeAppend(a: string, b: string)
    ensures EncodeURIComponent(a + b) == EncodeURIComponent(a) + EncodeURIComponent(b)
  {
    if a == [] {
      assert a + b == b;
    } else {
      assert (a + b)[0] == a[0];
      assert (a + b)[1..] == a[1..] + b;
      EncodeAppend(a[1..], b);
    }
  }

  /** The result is longer than the input exactly when some character needed escaping. */
  lemma {:induction false} EncodeLengthGrows(s: string)
    ensures |EncodeURIComponent(s)| == |s| <==> forall k :: 0 <= k < |s| ==> IsUnreserved(s[k])
  {
    if s != [] {
      EncodeLengthGrows(s[1..]);
      assert forall k :: 1 <= k < |s| ==> s[k] == s[1..][k - 1];
    }
  }
}
