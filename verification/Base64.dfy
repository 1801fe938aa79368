/** Base64 of RFC 4648: the alphabet of section 4, or of section 5 when it goes into a URL. */
module Base64 {
  import opened Lifecycle
  import opened Bytes

  predicate IsSymbol(c: char, urlSafe: bool) {
    || 'A' <= c <= 'Z' || 'a' <= c <= 'z' || '0' <= c <= '9'
    || (if urlSafe then c == '-' || c == '_' else c == '+' || c == '/')
  }

  function Symbol(v: nat, urlSafe: bool): (c: char)
    requires v < 64
    ensures IsSymbol(c, urlSafe) && Value(c, urlSafe) == v
  {
    if v < 26 then (65 + v) as char
    else if v < 52 then (97 + v - 26) as char
    else if v < 62 then (48 + v - 52) as char
    else if v == 62 then (if urlSafe then '-' else '+')
    else (if urlSafe then '_' else '/')
  }

  function Value(c: char, urlSafe: bool): (v: nat)
    requires IsSymbol(c, urlSafe)
    ensures v < 64
  {
    if 'A' <= c <= 'Z' then c as int - 65
    else if 'a' <= c <= 'z' then c as int - 97 + 26
    else if '0' <= c <= '9' then c as int - 48 + 52
    else if c == '-' || c == '+' then 62
    else 63
  }

  const UPPER := "ABCDEFGHIJKLMNOPQRSTUVWXYZ"
  const LOWER := "abcdefghijklmnopqrstuvwxyz"
  const DIGITS := "0123456789"

  /** The alphabets of RFC 4648, sections 4 and 5. */
  function Alphabet(urlSafe: bool): (text: string)
    ensures |text| == 64
  {
    UPPER + LOWER + DIGITS + (if urlSafe then "-_" else "+/")
  }

  lemma UpperLetters(v: nat)
    requires v < 26
    ensures UPPER[v] == (65 + v) as char
  {
    assert UPPER == "ABCDEFGHIJKLMNOPQRSTUVWXYZ";
  }

  lemma LowerLetters(v: nat)
    requires v < 26
    ensures LOWER[v] == (97 + v) as char
  {
    assert LOWER == "abcdefghijklmnopqrstuvwxyz";
  }

  /** The symbol of a sextet is the character of the alphabet at that place. */
  lemma SymbolIsInAlphabet(v: nat, urlSafe: bool)
    requires v < 64
    ensures Symbol(v, urlSafe) == Alphabet(urlSafe)[v]
  {
    if v < 26 {
      UpperLetters(v);
      assert Alphabet(urlSafe)[v] == UPPER[v];
    } else if v < 52 {
      LowerLetters(v - 26);
      assert Alphabet(urlSafe)[v] == LOWER[v - 26];
    } else if v < 62 {
      assert DIGITS == "0123456789";
      assert Alphabet(urlSafe)[v] == DIGITS[v - 52];
    } else {
      assert Alphabet(urlSafe)[v] == (if urlSafe then "-_" else "+/")[v - 62];
    }
  }

  /** The value of a symbol is its place in the alphabet. */
  lemma ValueIsPlace(c: char, urlSafe: bool)
    requires IsSymbol(c, urlSafe)
    ensures Alphabet(urlSafe)[Value(c, urlSafe)] == c
  {
    SymbolIsInAlphabet(Value(c, urlSafe), urlSafe);
  }

  /** Four symbols for a 24-bit number. */
  function Quad(n: nat, urlSafe: bool): (text: string)
    requires n < 0x100_0000
    ensures |text| == 4 && forall i :: 0 <= i < 4 ==> IsSymbol(text[i], urlSafe)
  {
    Sextets(n);
    [Symbol(n / 262144, urlSafe), Symbol(n / 4096 % 64, urlSafe),
     Symbol(n / 64 % 64, urlSafe), Symbol(n % 64, urlSafe)]
  }

  function Number(a: nat, b: nat, c: nat): nat {
    a * 65536 + b * 256 + c
  }

  /** Encoding with padding. */
  function Encode(bytes: seq<byte>, urlSafe: bool): string {
    if |bytes| == 0 then ""
    else
      Octets(bytes[0] as int, if |bytes| > 1 then bytes[1] as int else 0, if |bytes| > 2 then bytes[2] as int else 0);
      if |bytes| == 1 then Quad(Number(bytes[0] as int, 0, 0), urlSafe)[..2] + "=="
      else if |bytes| == 2 then Quad(Number(bytes[0] as int, bytes[1] as int, 0), urlSafe)[..3] + "="
      else Quad(Number(bytes[0] as int, bytes[1] as int, bytes[2] as int), urlSafe) + Encode(bytes[3..], urlSafe)
  }

  /** rstrip("=") */
  function Strip(text: string): string {
    if |text| > 0 && text[|text| - 1] == '=' then Strip(text[..|text| - 1]) else text
  }

  /** The padding that brings a text to a multiple of four. */
  function Restore(text: string): string {
    text + (match |text| % 4 case 0 => "" case 1 => "===" case 2 => "==" case _ => "=")
  }

  function SymbolValue(c: char, urlSafe: bool): (v: nat)
    ensures v < 64
  {
    if IsSymbol(c, urlSafe) then Value(c, urlSafe) else 0
  }

  /** The 24-bit number of four symbols; padding counts as nothing. */
  function QuadNumber(text: string, urlSafe: bool): (n: nat)
    requires |text| >= 4
    ensures n < 0x100_0000
  {
    SymbolValue(text[0], urlSafe) * 262144 + SymbolValue(text[1], urlSafe) * 4096
    + SymbolValue(text[2], urlSafe) * 64 + SymbolValue(text[3], urlSafe)
  }

  /** Decoding of well-formed, padded text; anything else is refused. */
  function Decode(text: string, urlSafe: bool): Option<seq<byte>> {
    if |text| == 0 then Some([])
    else if |text| < 4 || !IsSymbol(text[0], urlSafe) || !IsSymbol(text[1], urlSafe) then None
    else
      var n := QuadNumber(text, urlSafe);
      if text[2] == '=' && text[3] == '=' && |text| == 4 then Some([(n / 65536) as byte])
      else if !IsSymbol(text[2], urlSafe) then None
      else if text[3] == '=' && |text| == 4 then Some([(n / 65536) as byte, (n / 256 % 256) as byte])
      else if !IsSymbol(text[3], urlSafe) then None
      else
        match Decode(text[4..], urlSafe)
        case None => None
        case Some(rest) => Some([(n / 65536) as byte, (n / 256 % 256) as byte, (n % 256) as byte] + rest)
  }

  /** Four sextets of a 24-bit number give the number back. */
  lemma Sextets(n: nat)
    requires n < 0x100_0000
    ensures n / 262144 < 64
    ensures n / 262144 * 262144 + n / 4096 % 64 * 4096 + n / 64 % 64 * 64 + n % 64 == n
  {
    assert n / 4096 == n / 64 / 64;
    assert n / 262144 == n / 4096 / 64;
  }

  lemma Octets(a: nat, b: nat, c: nat)
    requires a < 256 && b < 256 && c < 256
    ensures var n := Number(a, b, c);
      n < 0x100_0000 && n / 65536 == a && n / 256 % 256 == b && n % 256 == c
  {
    var n := Number(a, b, c);
    assert n == (a * 256 + b) * 256 + c;
    assert n / 256 == a * 256 + b;
    assert n / 65536 == n / 256 / 256;
  }

  lemma QuadRoundTrip(n: nat, rest: string, urlSafe: bool)
    requires n < 0x100_0000
    ensures QuadNumber(Quad(n, urlSafe) + rest, urlSafe) == n
  {
    Sextets(n);
    var text := Quad(n, urlSafe) + rest;
    assert text[0] == Quad(n, urlSafe)[0] && text[1] == Quad(n, urlSafe)[1];
    assert text[2] == Quad(n, urlSafe)[2] && text[3] == Quad(n, urlSafe)[3];
  }

  lemma Multiple(k: nat)
    ensures k * 64 % 64 == 0 && k * 64 / 64 == k
  {
  }

  /** The last two sextets of one byte are zero, and so is the last one of two bytes. */
  lemma ZeroSextets(a: nat, b: nat)
    requires a < 256 && b < 256
    ensures Number(a, 0, 0) % 64 == 0 && Number(a, 0, 0) / 64 % 64 == 0
    ensures Number(a, b, 0) % 64 == 0
  {
    Multiple(a * 1024);
    assert Number(a, 0, 0) == a * 1024 * 64;
    Multiple(a * 16);
    assert a * 1024 == a * 16 * 64;
    Multiple(a * 1024 + b * 4);
    assert Number(a, b, 0) == (a * 1024 + b * 4) * 64;
  }

  lemma DecodeOne(a: byte, urlSafe: bool)
    ensures Decode(Encode([a], urlSafe), urlSafe) == Some([a])
  {
    var n := Number(a as int, 0, 0);
    Octets(a as int, 0, 0);
    Sextets(n);
    ZeroSextets(a as int, 0);
    var text := Encode([a], urlSafe);
    assert text == [Quad(n, urlSafe)[0], Quad(n, urlSafe)[1], '=', '='];
    assert QuadNumber(text, urlSafe) == n;
  }

  lemma DecodeTwo(a: byte, b: byte, urlSafe: bool)
    ensures Decode(Encode([a, b], urlSafe), urlSafe) == Some([a, b])
  {
    var n := Number(a as int, b as int, 0);
    Octets(a as int, b as int, 0);
    Sextets(n);
    ZeroSextets(a as int, b as int);
    var text := Encode([a, b], urlSafe);
    assert text == [Quad(n, urlSafe)[0], Quad(n, urlSafe)[1], Quad(n, urlSafe)[2], '='];
    assert QuadNumber(text, urlSafe) == n;
  }

  lemma {:induction false} DecodeInvertsEncode(bytes: seq<byte>, urlSafe: bool)
    ensures Decode(Encode(bytes, urlSafe), urlSafe) == Some(bytes)
    decreases |bytes|
  {
    if |bytes| == 1 {
      assert bytes == [bytes[0]];
      DecodeOne(bytes[0], urlSafe);
    } else if |bytes| == 2 {
      assert bytes == [bytes[0], bytes[1]];
      DecodeTwo(bytes[0], bytes[1], urlSafe);
    } else if |bytes| > 2 {
      DecodeInvertsEncode(bytes[3..], urlSafe);
      DecodeOneMore(bytes, urlSafe);
    }
  }

  lemma DecodeOneMore(bytes: seq<byte>, urlSafe: bool)
    requires |bytes| > 2 && Decode(Encode(bytes[3..], urlSafe), urlSafe) == Some(bytes[3..])
    ensures Decode(Encode(bytes, urlSafe), urlSafe) == Some(bytes)
  {
    var n := Number(bytes[0] as int, bytes[1] as int, bytes[2] as int);
    Octets(bytes[0] as int, bytes[1] as int, bytes[2] as int);
    var rest := Encode(bytes[3..], urlSafe);
    QuadRoundTrip(n, rest, urlSafe);
    assert Encode(bytes, urlSafe) == Quad(n, urlSafe) + rest;
    assert (Quad(n, urlSafe) + rest)[4..] == rest;
    assert bytes == [bytes[0], bytes[1], bytes[2]] + bytes[3..];
  }

  lemma SextetsOf(a: nat, b: nat, c: nat)
    requires a < 256 && b < 256 && c < 256
    ensures var n := Number(a, b, c);
      && n / 262144 == a / 4 && n / 4096 % 64 == a % 4 * 16 + b / 16
      && n / 64 % 64 == b % 16 * 4 + c / 64 && n % 64 == c % 64
  {
    var n := Number(a, b, c);
    var p, q, r, t := a / 4, a % 4 * 16 + b / 16, b % 16 * 4 + c / 64, c % 64;
    assert n == ((p * 64 + q) * 64 + r) * 64 + t;
    assert n / 64 == (p * 64 + q) * 64 + r;
    assert n / 4096 == n / 64 / 64 == p * 64 + q;
    assert n / 262144 == n / 4096 / 64 == p;
  }

  /** The bits of three bytes, from the highest on, six to a character. */
  lemma BitsAreInOrder(bytes: seq<byte>, urlSafe: bool)
    requires |bytes| >= 3
    ensures var text, alphabet := Encode(bytes, urlSafe), Alphabet(urlSafe);
      var a, b, c := bytes[0] as nat, bytes[1] as nat, bytes[2] as nat;
      && |text| >= 4
      && text[0] == alphabet[a / 4] && text[1] == alphabet[a % 4 * 16 + b / 16]
      && text[2] == alphabet[b % 16 * 4 + c / 64] && text[3] == alphabet[c % 64]
  {
    var a, b, c := bytes[0] as nat, bytes[1] as nat, bytes[2] as nat;
    Octets(a, b, c);
    SextetsOf(a, b, c);
    SymbolIsInAlphabet(a / 4, urlSafe);
    SymbolIsInAlphabet(a % 4 * 16 + b / 16, urlSafe);
    SymbolIsInAlphabet(b % 16 * 4 + c / 64, urlSafe);
    SymbolIsInAlphabet(c % 64, urlSafe);
    var quad := Quad(Number(a, b, c), urlSafe);
    assert Encode(bytes, urlSafe) == quad + Encode(bytes[3..], urlSafe);
  }

  /** Test vectors of RFC 4648, section 10, for the padding. */
  lemma OneByteExample()
    ensures Encode([0x66], false) == "Zg=="
  {
  }

  lemma TwoByteExample()
    ensures Encode([0x66, 0x6F], false) == "Zm8="
  {
  }

  /** Four characters for every three bytes begun. */
  lemma {:induction false} EncodedLength(bytes: seq<byte>, urlSafe: bool)
    ensures |Encode(bytes, urlSafe)| == (|bytes| + 2) / 3 * 4
    decreases |bytes|
  {
    if |bytes| > 2 {
      EncodedLength(bytes[3..], urlSafe);
      FirstQuadLength(bytes, urlSafe);
      ThreeMore(|bytes[3..]|);
    } else if |bytes| > 0 {
      FirstQuadLength(bytes, urlSafe);
    }
  }

  lemma ThreeMore(n: nat)
    ensures (n + 3 + 2) / 3 * 4 == (n + 2) / 3 * 4 + 4
  {
  }

  lemma FirstQuadLength(bytes: seq<byte>, urlSafe: bool)
    requires |bytes| > 0
    ensures |Encode(bytes, urlSafe)| == 4 + (if |bytes| > 2 then |Encode(bytes[3..], urlSafe)| else 0)
  {
    if |bytes| > 2 {
      EncodeUnfolds(bytes, urlSafe);
    } else {
      var _ := LastShape(bytes, urlSafe);
    }
  }

  lemma EncodeUnfolds(bytes: seq<byte>, urlSafe: bool)
    requires |bytes| > 2
    ensures Number(bytes[0] as int, bytes[1] as int, bytes[2] as int) < 0x100_0000
    ensures Encode(bytes, urlSafe)
         == Quad(Number(bytes[0] as int, bytes[1] as int, bytes[2] as int), urlSafe) + Encode(bytes[3..], urlSafe)
  {
    Octets(bytes[0] as int, bytes[1] as int, bytes[2] as int);
  }

  /** Padding is at most two characters, at the end, and its length is known without it. */
  lemma {:induction false} PaddingIsShort(bytes: seq<byte>, urlSafe: bool)
    ensures Restore(Strip(Encode(bytes, urlSafe))) == Encode(bytes, urlSafe)
    ensures |bytes| > 0 ==> exists i :: 0 <= i < |Encode(bytes, urlSafe)| && Encode(bytes, urlSafe)[i] != '='
    decreases |bytes|
  {
    if |bytes| > 3 {
      PaddingIsShort(bytes[3..], urlSafe);
      PaddingOfLonger(bytes, urlSafe);
    } else if |bytes| > 0 {
      PaddingOfLast(bytes, urlSafe);
    }
  }

  function Padding(count: nat): string {
    if count == 1 then "==" else if count == 2 then "=" else ""
  }

  lemma LastShape(bytes: seq<byte>, urlSafe: bool) returns (front: string)
    requires 1 <= |bytes| <= 3
    ensures Encode(bytes, urlSafe) == front + Padding(|bytes|)
    ensures |front| == |bytes| + 1 && forall i :: 0 <= i < |front| ==> IsSymbol(front[i], urlSafe)
  {
    Octets(bytes[0] as int, if |bytes| > 1 then bytes[1] as int else 0, if |bytes| > 2 then bytes[2] as int else 0);
    if |bytes| == 1 {
      front := Quad(Number(bytes[0] as int, 0, 0), urlSafe)[..2];
    } else if |bytes| == 2 {
      front := Quad(Number(bytes[0] as int, bytes[1] as int, 0), urlSafe)[..3];
    } else {
      front := Quad(Number(bytes[0] as int, bytes[1] as int, bytes[2] as int), urlSafe);
      EncodeUnfolds(bytes, urlSafe);
      assert Encode(bytes[3..], urlSafe) == "";
      assert front + "" == front;
    }
  }

  lemma PaddingOfLast(bytes: seq<byte>, urlSafe: bool)
    requires 1 <= |bytes| <= 3
    ensures Restore(Strip(Encode(bytes, urlSafe))) == Encode(bytes, urlSafe)
    ensures Encode(bytes, urlSafe)[0] != '='
  {
    var front := LastShape(bytes, urlSafe);
    assert IsSymbol(front[|front| - 1], urlSafe) && IsSymbol(front[0], urlSafe);
    StripShort(front, Padding(|bytes|));
    assert |front + Padding(|bytes|)| == 4;
  }

  lemma RestoreAfterQuad(front: string, tail: string)
    requires |front| == 4
    ensures Restore(front + tail) == front + Restore(tail)
  {
    assert |front + tail| % 4 == |tail| % 4;
  }

  lemma PaddingOfLonger(bytes: seq<byte>, urlSafe: bool)
    requires |bytes| > 3
    requires Restore(Strip(Encode(bytes[3..], urlSafe))) == Encode(bytes[3..], urlSafe)
    requires exists i :: 0 <= i < |Encode(bytes[3..], urlSafe)| && Encode(bytes[3..], urlSafe)[i] != '='
    ensures Restore(Strip(Encode(bytes, urlSafe))) == Encode(bytes, urlSafe)
    ensures Encode(bytes, urlSafe)[0] != '='
  {
    EncodeUnfolds(bytes, urlSafe);
    var front := Quad(Number(bytes[0] as int, bytes[1] as int, bytes[2] as int), urlSafe);
    var tail := Encode(bytes[3..], urlSafe);
    assert Encode(bytes, urlSafe) == front + tail;
    assert IsSymbol(front[0], urlSafe);
    StripTail(front, tail);
    RestoreAfterQuad(front, Strip(tail));
  }

  lemma StripShort(front: string, padding: string)
    requires |front| > 0 && front[|front| - 1] != '='
    requires padding == "" || padding == "=" || padding == "=="
    ensures Strip(front + padding) == front
    decreases |padding|
  {
    if padding == "=" {
      assert (front + padding)[..|front|] == front;
    } else if padding == "==" {
      assert (front + padding)[..|front| + 1] == front + "=";
      StripShort(front, "=");
    } else {
      assert front + padding == front;
    }
  }

  lemma {:induction false} StripTail(front: string, tail: string)
    requires exists i :: 0 <= i < |tail| && tail[i] != '='
    ensures Strip(front + tail) == front + Strip(tail)
    decreases |tail|
  {
    var last := |tail| - 1;
    if tail[last] == '=' {
      var i :| 0 <= i < |tail| && tail[i] != '=';
      assert tail[..last][i] != '=';
      assert (front + tail)[..|front| + last] == front + tail[..last];
      StripTail(front, tail[..last]);
    }
  }
}
