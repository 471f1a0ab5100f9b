/**
  The browser's `btoa` and `atob` (the base64 alphabet of section 4 of RFC 4648,
  with the HTML standard's forgiving decoder): `btoa` reads each character as
  one byte and throws for a character above U+00FF; `atob` drops ASCII white
  space, accepts missing padding and throws on anything else it cannot decode.
*/
module Base64 {
  import opened Wrappers
  import opened Strings

  type Byte = b: int | 0 <= b < 256
  type Sextet = v: int | 0 <= v < 64

  /** The base64 alphabet: `A`-`Z`, `a`-`z`, `0`-`9`, `+`, `/`. */
  function Letter(v: Sextet): char {
    if v < 26 then ('A' as int + v) as char
    else if v < 52 then ('a' as int + (v - 26)) as char
    else if v < 62 then ('0' as int + (v - 52)) as char
    else if v == 62 then '+'
    else '/'
  }

  function IndexOf(c: char): Option<Sextet> {
    if 'A' <= c <= 'Z' then Some(c as int - 'A' as int)
    else if 'a' <= c <= 'z' then Some(c as int - 'a' as int + 26)
    else if '0' <= c <= '9' then Some(c as int - '0' as int + 52)
    else if c == '+' then Some(62)
    else if c == '/' then Some(63)
    else None
  }

  predicate IsLetter(c: char) {
    IndexOf(c).Some?
  }

  predicate AllLetters(s: string) {
    forall k :: 0 <= k < |s| ==> IsLetter(s[k])
  }

  lemma IndexOfLetter(v: Sextet)
    ensures IndexOf(Letter(v)) == Some(v)
  {
  }

  // ---------------------------------------------------------------------------
  // Encoding

  /** Three bytes become four letters. */
  function EncodeTriple(x: Byte, y: Byte, z: Byte): string {
    [Letter(x / 4), Letter((x % 4) * 16 + y / 16), Letter((y % 16) * 4 + z / 64), Letter(z % 64)]
  }

  /** The letters of the encoding, before padding. */
  function EncodeUnpadded(b: seq<Byte>): string {
    if |b| >= 3 then
      EncodeTriple(b[0], b[1], b[2]) + EncodeUnpadded(b[3..])
    else if |b| == 2 then
      [Letter(b[0] / 4), Letter((b[0] % 4) * 16 + b[1] / 16), Letter((b[1] % 16) * 4)]
    else if |b| == 1 then
      [Letter(b[0] / 4), Letter((b[0] % 4) * 16)]
    else []
  }

  /** Letters on both sides make letters throughout. */
  lemma AllLettersAppend(a: string, b: string)
    requires AllLetters(a) && AllLetters(b)
    ensures AllLetters(a + b)
  {
    assert forall k :: |a| <= k < |a + b| ==> (a + b)[k] == b[k - |a|];
  }

  lemma LetterIsLetter(v: Sextet)
    ensures IsLetter(Letter(v))
  {
    IndexOfLetter(v);
  }

  lemma TripleLetters(x: Byte, y: Byte, z: Byte)
    ensures AllLetters(EncodeTriple(x, y, z))
  {
    LetterIsLetter(x / 4);
    LetterIsLetter((x % 4) * 16 + y / 16);
    LetterIsLetter((y % 16) * 4 + z / 64);
    LetterIsLetter(z % 64);
  }

  /** The unpadded encoding uses only the alphabet. */
  lemma {:induction false} EncodeUnpaddedLetters(b: seq<Byte>)
    ensures AllLetters(EncodeUnpadded(b))
  {
    if |b| >= 3 {
      EncodeUnpaddedLetters(b[3..]);
      TripleLetters(b[0], b[1], b[2]);
      AllLettersAppend(EncodeTriple(b[0], b[1], b[2]), EncodeUnpadded(b[3..]));
    } else if |b| == 2 {
      LetterIsLetter(b[0] / 4);
      LetterIsLetter((b[0] % 4) * 16 + b[1] / 16);
      LetterIsLetter((b[1] % 16) * 4);
    } else if |b| == 1 {
      LetterIsLetter(b[0] / 4);
      LetterIsLetter((b[0] % 4) * 16);
    }
  }

  /** The remainder rule survives one more group of three bytes and four letters. */
  lemma LengthStep(n: int, m: int)
    requires n >= 3
    requires m % 4 == (if (n - 3) % 3 == 0 then 0 else (n - 3) % 3 + 1)
    ensures (m + 4) % 4 == (if n % 3 == 0 then 0 else n % 3 + 1)
  {
    assert (n - 3) % 3 == n % 3;
    assert (m + 4) % 4 == m % 4;
  }

  /** Its length leaves remainder 0, 2 or 3 by four as the byte count leaves 0, 1 or 2 by three. */
  lemma {:induction false} EncodeUnpaddedLength(b: seq<Byte>)
    ensures |EncodeUnpadded(b)| % 4 == (if |b| % 3 == 0 then 0 else |b| % 3 + 1)
  {
    if |b| >= 3 {
      EncodeUnpaddedLength(b[3..]);
      assert |EncodeUnpadded(b)| == |EncodeUnpadded(b[3..])| + 4;
      assert |b[3..]| == |b| - 3;
      LengthStep(|b|, |EncodeUnpadded(b[3..])|);
    }
  }

  /** Both facts about the unpadded encoding together. */
  lemma EncodeUnpaddedShape(b: seq<Byte>)
    ensures AllLetters(EncodeUnpadded(b))
    ensures |EncodeUnpadded(b)| % 4 == (if |b| % 3 == 0 then 0 else |b| % 3 + 1)
  {
    EncodeUnpaddedLetters(b);
    EncodeUnpaddedLength(b);
  }

  function Padding(n: nat): string {
    if n % 3 == 1 then "==" else if n % 3 == 2 then "=" else ""
  }

  /** Base64 with `=` padding to a multiple of four characters. */
  function Encode(b: seq<Byte>): string {
    EncodeUnpadded(b) + Padding(|b|)
  }

  // ---------------------------------------------------------------------------
  // Forgiving decoding

  /** TAB, LF, FF, CR and SPACE. */
  predicate IsAsciiSpace(c: char) {
    c == '\t' || c == '\n' || c == '\U{000C}' || c == '\r' || c == ' '
  }

  function RemoveAsciiSpace(s: string): (r: string)
    ensures forall k :: 0 <= k < |r| ==> !IsAsciiSpace(r[k])
  {
    if s == [] then []
    else if IsAsciiSpace(s[0]) then RemoveAsciiSpace(s[1..])
    else [s[0]] + RemoveAsciiSpace(s[1..])
  }

  /** When the length is a multiple of four, one or two trailing `=` are dropped. */
  function StripPadding(d: string): string {
    if |d| % 4 != 0 then d
    else if EndsWith(d, "==") then d[..|d| - 2]
    else if EndsWith(d, "=") then d[..|d| - 1]
    else d
  }

  function Value(c: char): Sextet
    requires IsLetter(c)
  {
    IndexOf(c).value
  }

  /** Letters back to bytes, four letters to three bytes; a final group of two
      or three letters gives one or two bytes and its spare bits are ignored. */
  function DecodeLetters(s: string): seq<Byte>
    requires AllLetters(s) && |s| % 4 != 1
  {
    if |s| >= 4 then
      var v0, v1, v2, v3 := Value(s[0]), Value(s[1]), Value(s[2]), Value(s[3]);
      [v0 * 4 + v1 / 16, (v1 % 16) * 16 + v2 / 4, (v2 % 4) * 64 + v3] + DecodeLetters(s[4..])
    else if |s| == 3 then
      var v0, v1, v2 := Value(s[0]), Value(s[1]), Value(s[2]);
      [v0 * 4 + v1 / 16, (v1 % 16) * 16 + v2 / 4]
    else if |s| == 2 then
      [Value(s[0]) * 4 + Value(s[1]) / 16]
    else []
  }

  /** `None` is a decoder that throws. */
  function Decode(s: string): Option<seq<Byte>> {
    var d := StripPadding(RemoveAsciiSpace(s));
    if |d| % 4 == 1 then None
    else if !AllLetters(d) then None
    else Some(DecodeLetters(d))
  }

  // ---------------------------------------------------------------------------
  // Strings as bytes

  predicate IsLatin1(s: string) {
    forall k :: 0 <= k < |s| ==> s[k] as int < 256
  }

  function Latin1Bytes(s: string): (b: seq<Byte>)
    requires IsLatin1(s)
    ensures |b| == |s|
  {
    seq(|s|, k requires 0 <= k < |s| => s[k] as int)
  }

  function Latin1String(b: seq<Byte>): (s: string)
    ensures |s| == |b| && IsLatin1(s)
  {
    seq(|b|, k requires 0 <= k < |b| => b[k] as char)
  }

  /** `btoa(s)`: throws `InvalidCharacterError` for a character above U+00FF. */
  function Btoa(s: string): Result<string> {
    if IsLatin1(s) then Success(Encode(Latin1Bytes(s))) else Failure("InvalidCharacterError")
  }

  /** `atob(s)`: `None` when it throws. */
  function Atob(s: string): Option<string> {
    match Decode(s)
    case Some(b) => Some(Latin1String(b))
    case None => None
  }

  // ---------------------------------------------------------------------------
  // Round trip

  lemma DecodeTriple(x: Byte, y: Byte, z: Byte)
    ensures var e := EncodeTriple(x, y, z);
            Value(e[0]) * 4 + Value(e[1]) / 16 == x
            && (Value(e[1]) % 16) * 16 + Value(e[2]) / 4 == y
            && (Value(e[2]) % 4) * 64 + Value(e[3]) == z
  {
    var e := EncodeTriple(x, y, z);
    IndexOfLetter(x / 4);
    IndexOfLetter((x % 4) * 16 + y / 16);
    IndexOfLetter((y % 16) * 4 + z / 64);
    IndexOfLetter(z % 64);
    assert ((x % 4) * 16 + y / 16) / 16 == x % 4;
    assert ((x % 4) * 16 + y / 16) % 16 == y / 16;
    assert ((y % 16) * 4 + z / 64) / 4 == y % 16;
    assert ((y % 16) * 4 + z / 64) % 4 == z / 64;
  }

  /** Decoding a group of four letters followed by more letters. */
  lemma DecodeLettersGroup(t: string, rest: string)
    requires |t| == 4 && AllLetters(t) && AllLetters(rest) && |rest| % 4 != 1
    ensures AllLetters(t + rest) && |t + rest| % 4 != 1
    ensures DecodeLetters(t + rest)
            == [Value(t[0]) * 4 + Value(t[1]) / 16, (Value(t[1]) % 16) * 16 + Value(t[2]) / 4,
                (Value(t[2]) % 4) * 64 + Value(t[3])] + DecodeLetters(rest)
  {
    AllLettersAppend(t, rest);
    var e := t + rest;
    assert e[4..] == rest;
    assert e[0] == t[0] && e[1] == t[1] && e[2] == t[2] && e[3] == t[3];
  }

  /** The four letters of three bytes, followed by more letters, decode to those three bytes first. */
  lemma DecodeTripleGroup(x: Byte, y: Byte, z: Byte, rest: string)
    requires AllLetters(rest) && |rest| % 4 != 1
    ensures AllLetters(EncodeTriple(x, y, z) + rest) && |EncodeTriple(x, y, z) + rest| % 4 != 1
    ensures DecodeLetters(EncodeTriple(x, y, z) + rest) == [x, y, z] + DecodeLetters(rest)
  {
    TripleLetters(x, y, z);
    DecodeTriple(x, y, z);
    DecodeLettersGroup(EncodeTriple(x, y, z), rest);
  }

  /** One group of three bytes: decoding its encoding followed by the rest's gives the three
      bytes followed by the rest's decoding. */
  lemma DecodeEncodeGroup(b: seq<Byte>)
    requires |b| >= 3
    requires AllLetters(EncodeUnpadded(b[3..])) && |EncodeUnpadded(b[3..])| % 4 != 1
    ensures AllLetters(EncodeUnpadded(b)) && |EncodeUnpadded(b)| % 4 != 1
    ensures DecodeLetters(EncodeUnpadded(b)) == b[..3] + DecodeLetters(EncodeUnpadded(b[3..]))
  {
    assert EncodeUnpadded(b) == EncodeTriple(b[0], b[1], b[2]) + EncodeUnpadded(b[3..]);
    DecodeTripleGroup(b[0], b[1], b[2], EncodeUnpadded(b[3..]));
    assert b[..3] == [b[0], b[1], b[2]];
  }

  lemma {:induction false} DecodeEncodeUnpadded(b: seq<Byte>)
    ensures var e := EncodeUnpadded(b);
            AllLetters(e) && |e| % 4 != 1 && DecodeLetters(e) == b
  {
    EncodeUnpaddedShape(b);
    if |b| >= 3 {
      DecodeEncodeUnpadded(b[3..]);
      DecodeEncodeGroup(b);
      assert b == b[..3] + b[3..];
    } else if |b| == 2 {
      DecodeEncodePair(b[0], b[1]);
      assert b == [b[0], b[1]];
    } else if |b| == 1 {
      DecodeEncodeSingle(b[0]);
      assert b == [b[0]];
    }
  }

  /** Two trailing bytes: three letters that decode back to them. */
  lemma DecodeEncodePair(x: Byte, y: Byte)
    ensures var e := EncodeUnpadded([x, y]);
            AllLetters(e) && |e| == 3 && DecodeLetters(e) == [x, y]
  {
    LetterIsLetter(x / 4);
    LetterIsLetter((x % 4) * 16 + y / 16);
    LetterIsLetter((y % 16) * 4);
    IndexOfLetter(x / 4);
    IndexOfLetter((x % 4) * 16 + y / 16);
    IndexOfLetter((y % 16) * 4);
    assert ((x % 4) * 16 + y / 16) / 16 == x % 4;
    assert ((x % 4) * 16 + y / 16) % 16 == y / 16;
  }

  /** One trailing byte: two letters that decode back to it. */
  lemma DecodeEncodeSingle(x: Byte)
    ensures var e := EncodeUnpadded([x]);
            AllLetters(e) && |e| == 2 && DecodeLetters(e) == [x]
  {
    LetterIsLetter(x / 4);
    LetterIsLetter((x % 4) * 16);
    IndexOfLetter(x / 4);
    IndexOfLetter((x % 4) * 16);
  }

  lemma {:induction false} RemoveAsciiSpaceKeeps(s: string)
    requires forall k :: 0 <= k < |s| ==> !IsAsciiSpace(s[k])
    ensures RemoveAsciiSpace(s) == s
  {
    if s != [] {
      RemoveAsciiSpaceKeeps(s[1..]);
    }
  }

  /** Letters alone, a multiple of four of them, have no padding to lose. */
  lemma StripPaddingOfLetters(u: string)
    requires AllLetters(u) && |u| % 4 == 0
    ensures StripPadding(u) == u
  {
    if u != [] {
      assert IsLetter(u[|u| - 1]);
      assert u[|u| - 1..][0] == u[|u| - 1];
      assert !EndsWith(u, "=");
      assert u[|u| - 2..][1] == u[|u| - 1];
      assert !EndsWith(u, "==");
    }
  }

  /** Letters followed by the padding their count calls for lose exactly that padding. */
  lemma StripPaddingOfPadded(u: string, p: string)
    requires AllLetters(u)
    requires || (p == "" && |u| % 4 == 0)
             || (p == "==" && |u| % 4 == 2)
             || (p == "=" && |u| % 4 == 3)
    ensures StripPadding(u + p) == u
  {
    var e := u + p;
    if p == "" {
      assert e == u;
      StripPaddingOfLetters(u);
    } else if p == "==" {
      assert e[|e| - 2..] == "==";
      assert e[..|e| - 2] == u;
    } else {
      assert e[|e| - 1..] == "=";
      assert IsLetter(e[|e| - 2]);
      assert e[|e| - 2..][0] == e[|e| - 2];
      assert !EndsWith(e, "==");
      assert e[..|e| - 1] == u;
    }
  }

  lemma StripPaddingOfEncode(b: seq<Byte>)
    ensures StripPadding(Encode(b)) == EncodeUnpadded(b)
  {
    EncodeUnpaddedShape(b);
    StripPaddingOfPadded(EncodeUnpadded(b), Padding(|b|));
  }

  /** The forgiving decoder inverts the encoder on every byte string. */
  lemma DecodeEncode(b: seq<Byte>)
    ensures Decode(Encode(b)) == Some(b)
  {
    var e := Encode(b);
    EncodeUnpaddedShape(b);
    assert forall k :: 0 <= k < |e| ==> IsLetter(e[k]) || e[k] == '=';
    RemoveAsciiSpaceKeeps(e);
    StripPaddingOfEncode(b);
    DecodeEncodeUnpadded(b);
  }

  /** `btoa` gives the empty text for the empty string only. */
  lemma BtoaEmpty(s: string)
    requires IsLatin1(s)
    ensures Btoa(s).Success? && (Btoa(s).value == "" <==> s == "")
  {
    var b := Latin1Bytes(s);
    if s != "" {
      assert |b| > 0;
      assert |EncodeUnpadded(b)| > 0;
      assert |Encode(b)| >= |EncodeUnpadded(b)|;
    } else {
      assert b == [];
    }
  }

  /** `atob(btoa(s)) == s` whenever `btoa` accepts `s`, and `btoa` rejects exactly
      the strings holding a character above U+00FF. */
  lemma AtobBtoa(s: string)
    ensures Btoa(s).Success? <==> IsLatin1(s)
    ensures Btoa(s).Success? ==> Atob(Btoa(s).value) == Some(s)
  {
    if IsLatin1(s) {
      DecodeEncode(Latin1Bytes(s));
      assert Latin1String(Latin1Bytes(s)) == s;
    }
  }
}
