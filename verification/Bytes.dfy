/** Bytes and the encodings of text as bytes. */
module Bytes {
  import opened Lifecycle

  newtype byte = x: int | 0 <= x < 256

  // ---------------------------------------------------------------- digests

  /** A digest function over bytes, such as SHA-256. */
  type Digester = seq<byte> -> string

  predicate IsHex(c: char) {
    '0' <= c <= '9' || 'a' <= c <= 'f'
  }

  /** 64 lower-case hexadecimal digits. */
  predicate IsDigest(text: string) {
    |text| == 64 && forall i :: 0 <= i < 64 ==> IsHex(text[i])
  }

  ghost predicate IsDigester(hash: Digester) {
    forall bytes :: IsDigest(hash(bytes))
  }

  ghost predicate Injective(hash: Digester) {
    forall a, b :: hash(a) == hash(b) ==> a == b
  }

  // ---------------------------------------------------------------- ASCII

  predicate IsAscii(text: string) {
    forall i :: 0 <= i < |text| ==> text[i] as int < 128
  }

  function Ascii(text: string): seq<byte>
    requires IsAscii(text)
  {
    seq(|text|, i requires 0 <= i < |text| => text[i] as int as byte)
  }

  function FromAscii(bytes: seq<byte>): Option<string> {
    if exists i :: 0 <= i < |bytes| && bytes[i] as int >= 128 then None
    else Some(seq(|bytes|, i requires 0 <= i < |bytes| => bytes[i] as int as char))
  }

  lemma AsciiRoundTrip(text: string)
    requires IsAscii(text)
    ensures FromAscii(Ascii(text)) == Some(text)
  {
    assert FromAscii(Ascii(text)).value == text;
  }

  // ---------------------------------------------------------------- UTF-8 (RFC 3629)

  /** The UTF-8 form of one scalar value. */
  function Utf8(c: char): (r: seq<byte>)
    ensures 1 <= |r| <= 4
  {
    var n := c as int;
    if n < 0x80 then [n as byte]
    else if n < 0x800 then [(0xC0 + n / 64) as byte, (0x80 + n % 64) as byte]
    else if n < 0x1_0000 then
      [(0xE0 + n / 4096) as byte, (0x80 + n / 64 % 64) as byte, (0x80 + n % 64) as byte]
    else
      [(0xF0 + n / 262144) as byte, (0x80 + n / 4096 % 64) as byte,
       (0x80 + n / 64 % 64) as byte, (0x80 + n % 64) as byte]
  }

  function Utf8All(text: string): seq<byte> {
    if |text| == 0 then [] else Utf8(text[0]) + Utf8All(text[1..])
  }

  /** The examples of RFC 3629, section 7. */
  lemma Utf8Examples()
    ensures Utf8All("A\U{2262}\U{0391}.") == [0x41, 0xE2, 0x89, 0xA2, 0xCE, 0x91, 0x2E]
    ensures Utf8All("\U{65E5}") == [0xE6, 0x97, 0xA5]
    ensures Utf8All("\U{233B4}") == [0xF0, 0xA3, 0x8E, 0xB4]
  {
  }

  lemma Utf8Length(c: char)
    ensures |Utf8(c)| == (var first := Utf8(c)[0] as int;
                          if first < 0x80 then 1 else if first < 0xE0 then 2 else if first < 0xF0 then 3 else 4)
  {
  }

  lemma Utf8CharIsUnique(c: char, d: char)
    requires Utf8(c) == Utf8(d)
    ensures c == d
  {
    Utf8Length(c);
    Utf8Length(d);
    var m, n := c as int, d as int;
    assert forall i :: 0 <= i < |Utf8(c)| ==> Utf8(c)[i] as int == Utf8(d)[i] as int;
    SplitInBase64(m);
    SplitInBase64(n);
    assert m == n;
  }

  lemma SplitInBase64(n: nat)
    ensures n == n / 64 * 64 + n % 64
    ensures n == n / 4096 * 4096 + n / 64 % 64 * 64 + n % 64
    ensures n == n / 262144 * 262144 + n / 4096 % 64 * 4096 + n / 64 % 64 * 64 + n % 64
  {
    assert n / 4096 == n / 64 / 64;
    assert n / 262144 == n / 4096 / 64;
  }

  lemma {:induction false} Utf8IsUnique(a: string, b: string)
    requires Utf8All(a) == Utf8All(b)
    ensures a == b
    decreases |a|
  {
    if |a| > 0 && |b| > 0 {
      var left, right := Utf8(a[0]) + Utf8All(a[1..]), Utf8(b[0]) + Utf8All(b[1..]);
      assert left[0] == Utf8(a[0])[0] && right[0] == Utf8(b[0])[0];
      Utf8Length(a[0]);
      Utf8Length(b[0]);
      var size := |Utf8(a[0])|;
      assert left[..size] == Utf8(a[0]) && right[..size] == Utf8(b[0]);
      assert left[size..] == Utf8All(a[1..]) && right[size..] == Utf8All(b[1..]);
      Utf8CharIsUnique(a[0], b[0]);
      Utf8IsUnique(a[1..], b[1..]);
      assert a == [a[0]] + a[1..] && b == [b[0]] + b[1..];
    }
  }

  // ---------------------------------------------------------------- decoding UTF-8

  /** The length that a first byte announces. */
  function Utf8Size(first: byte): nat {
    if first < 0x80 then 1 else if first < 0xE0 then 2 else if first < 0xF0 then 3 else 4
  }

  /** The number that a sequence of that length would stand for. */
  function Utf8Number(bytes: seq<byte>): int
    requires 1 <= |bytes| <= 4
  {
    if |bytes| == 1 then bytes[0] as int
    else if |bytes| == 2 then (bytes[0] as int - 0xC0) * 64 + (bytes[1] as int - 0x80)
    else if |bytes| == 3 then
      (bytes[0] as int - 0xE0) * 4096 + (bytes[1] as int - 0x80) * 64 + (bytes[2] as int - 0x80)
    else
      (bytes[0] as int - 0xF0) * 262144 + (bytes[1] as int - 0x80) * 4096
      + (bytes[2] as int - 0x80) * 64 + (bytes[3] as int - 0x80)
  }

  predicate IsScalar(n: int) {
    0 <= n < 0xD800 || 0xE000 <= n < 0x11_0000
  }

  /** The scalar value whose encoding this is: overlong forms, surrogates and stray bytes are
      encodings of nothing. */
  function FromUtf8Char(bytes: seq<byte>): (c: Option<char>)
    requires 1 <= |bytes| <= 4
    ensures c.Some? ==> Utf8(c.value) == bytes
  {
    var n := Utf8Number(bytes);
    if IsScalar(n) && Utf8(n as char) == bytes then Some(n as char) else None
  }

  /** bytes.decode("utf-8") */
  function FromUtf8(bytes: seq<byte>): Option<string> {
    if |bytes| == 0 then Some("")
    else
      var size := Utf8Size(bytes[0]);
      if |bytes| < size then None
      else
        match FromUtf8Char(bytes[..size])
        case None => None
        case Some(c) =>
          match FromUtf8(bytes[size..])
          case None => None
          case Some(rest) => Some([c] + rest)
  }

  lemma CharRoundTrip(c: char)
    ensures |Utf8(c)| == Utf8Size(Utf8(c)[0]) && FromUtf8Char(Utf8(c)) == Some(c)
  {
    SplitInBase64(c as int);
    Utf8Length(c);
    assert Utf8Number(Utf8(c)) == c as int;
  }

  lemma {:induction false} Utf8RoundTrip(text: string)
    ensures FromUtf8(Utf8All(text)) == Some(text)
    decreases |text|
  {
    if |text| > 0 {
      var bytes, own := Utf8All(text), Utf8(text[0]);
      CharRoundTrip(text[0]);
      assert bytes[0] == own[0] && bytes[..|own|] == own && bytes[|own|..] == Utf8All(text[1..]);
      Utf8RoundTrip(text[1..]);
      assert text == [text[0]] + text[1..];
    }
  }

  lemma Utf8OfMore(c: char, own: seq<byte>, rest: string)
    requires Utf8(c) == own
    ensures Utf8All([c] + rest) == own + Utf8All(rest)
  {
    assert ([c] + rest)[1..] == rest;
  }

  lemma FirstIsDecoded(bytes: seq<byte>) returns (c: char, own: seq<byte>, rest: seq<byte>)
    requires |bytes| > 0 && FromUtf8(bytes).Some?
    ensures Utf8(c) == own && own + rest == bytes && |rest| < |bytes|
    ensures FromUtf8(rest).Some? && FromUtf8(bytes).value == [c] + FromUtf8(rest).value
  {
    var size := Utf8Size(bytes[0]);
    own, rest := bytes[..size], bytes[size..];
    c := FromUtf8Char(own).value;
  }

  /** Nothing but its own encoding is decoded to a text. */
  lemma {:induction false} Utf8IsCanonical(bytes: seq<byte>)
    requires FromUtf8(bytes).Some?
    ensures Utf8All(FromUtf8(bytes).value) == bytes
    decreases |bytes|
  {
    if |bytes| > 0 {
      var c, own, rest := FirstIsDecoded(bytes);
      Utf8IsCanonical(rest);
      Utf8OfMore(c, own, FromUtf8(rest).value);
    }
  }

  lemma {:induction false} AsciiIsUtf8(text: string)
    requires IsAscii(text)
    ensures Utf8All(text) == Ascii(text)
    decreases |text|
  {
    if |text| > 0 {
      AsciiIsUtf8(text[1..]);
      assert Ascii(text) == [text[0] as int as byte] + Ascii(text[1..]);
    }
  }

  lemma {:induction false} Utf8Concat(a: string, b: string)
    ensures Utf8All(a + b) == Utf8All(a) + Utf8All(b)
    decreases |a|
  {
    if |a| == 0 {
      assert a + b == b;
    } else {
      assert (a + b)[1..] == a[1..] + b;
      Utf8Concat(a[1..], b);
    }
  }
}
