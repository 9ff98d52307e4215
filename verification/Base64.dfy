/** Base64 with padding (section 4 of RFC 4648), as the helper's frames carry
    bytes: decoding is strict about padding and about the unused bits. */
module Base64 {
  import opened Wrappers
  import opened Framing

  type digit = v: int | 0 <= v < 64

  function Digit(v: digit): char {
    if v < 26 then 'A' + v as char
    else if v < 52 then 'a' + (v - 26) as char
    else if v < 62 then '0' + (v - 52) as char
    else if v == 62 then '+' else '/'
  }

  function Value(c: char): Option<digit> {
    if 'A' <= c <= 'Z' then Some((c - 'A') as int)
    else if 'a' <= c <= 'z' then Some((c - 'a') as int + 26)
    else if '0' <= c <= '9' then Some((c - '0') as int + 52)
    else if c == '+' then Some(62) else if c == '/' then Some(63) else None
  }

  lemma ValueOfDigit(v: digit)
    ensures Value(Digit(v)) == Some(v) && Digit(v) != '='
  {
  }

  // Three bytes a, b, c are the four digits w, x, y, z, and back.
  function W(a: byte): digit { var n: int := a; n / 4 }
  function X(a: byte, b: byte): digit { var m: int, n: int := a, b; m % 4 * 16 + n / 16 }
  function Y(b: byte, c: byte): digit { var m: int, n: int := b, c; m % 16 * 4 + n / 64 }
  function Z(c: byte): digit { var n: int := c; n % 64 }
  function A(w: digit, x: digit): byte { var m: int, n: int := w, x; m * 4 + n / 16 }
  function B(x: digit, y: digit): byte { var m: int, n: int := x, y; m % 16 * 16 + n / 4 }
  function C(y: digit, z: digit): byte { var m: int, n: int := y, z; m % 4 * 64 + n }

  lemma ByteA(a: byte, b: byte)
    ensures A(W(a), X(a, b)) == a
  {
  }

  lemma ByteB(a: byte, b: byte, c: byte)
    ensures B(X(a, b), Y(b, c)) == b
  {
    var l: int, m: int, n: int := a, b, c;
    assert (l % 4 * 16 + m / 16) % 16 == m / 16;
    assert (m % 16 * 4 + n / 64) / 4 == m % 16;
  }

  lemma ByteC(b: byte, c: byte)
    ensures C(Y(b, c), Z(c)) == c
  {
  }

  predicate SpareX(x: digit) { x % 16 == 0 }

  predicate SpareY(y: digit) { y % 4 == 0 }

  lemma Spare(a: byte)
    ensures SpareX(X(a, 0)) && SpareY(Y(a, 0))
  {
  }

  function Encode(bytes: seq<byte>): string {
    if bytes == [] then ""
    else if |bytes| == 1 then [Digit(W(bytes[0])), Digit(X(bytes[0], 0)), '=', '=']
    else if |bytes| == 2 then [Digit(W(bytes[0])), Digit(X(bytes[0], bytes[1])), Digit(Y(bytes[1], 0)), '=']
    else Four(bytes[0], bytes[1], bytes[2]) + Encode(bytes[3..])
  }

  function Four(a: byte, b: byte, c: byte): (four: string)
    ensures |four| == 4
  {
    [Digit(W(a)), Digit(X(a, b)), Digit(Y(b, c)), Digit(Z(c))]
  }

  lemma {:induction false} EncodedLength(bytes: seq<byte>)
    ensures |Encode(bytes)| == (|bytes| + 2) / 3 * 4
  {
    hide Digit, W, X, Y, Z;
    if |bytes| > 2 {
      EncodedLength(bytes[3..]);
    }
  }

  /** Four characters, the last four of a text: they may be padded. */
  function DecodeLast(text: string): Option<seq<byte>>
    requires |text| == 4
  {
    match (Value(text[0]), Value(text[1]), Value(text[2]), Value(text[3]))
    case (Some(w), Some(x), Some(y), Some(z)) => Some([A(w, x), B(x, y), C(y, z)])
    case (Some(w), Some(x), Some(y), None) =>
      if text[3] == '=' && SpareY(y) then Some([A(w, x), B(x, y)]) else None
    case (Some(w), Some(x), None, _) =>
      if text[2] == '=' && text[3] == '=' && SpareX(x) then Some([A(w, x)]) else None
    case _ => None
  }

  function Decode(text: string): Option<seq<byte>> {
    if text == "" then Some([])
    else if |text| < 4 then None
    else if |text| == 4 then DecodeLast(text)
    else
      match (Value(text[0]), Value(text[1]), Value(text[2]), Value(text[3]), Decode(text[4..]))
      case (Some(w), Some(x), Some(y), Some(z), Some(rest)) => Some([A(w, x), B(x, y), C(y, z)] + rest)
      case _ => None
  }

  // ----------------------------------------------------- Which text it is

  /** The alphabet (table 1 of RFC 4648): capitals from 0, small letters from
      26, digits from 52, then two signs; and each digit's value is its own. */
  lemma DigitsAreTheAlphabet(v: digit, c: char)
    ensures Digit(0) == 'A' && Digit(26) == 'a' && Digit(52) == '0' && Digit(62) == '+' && Digit(63) == '/'
    ensures v !in [25, 51, 61, 62, 63] ==> Digit(v + 1) as int == Digit(v) as int + 1
    ensures Value(c) == Some(v) <==> c == Digit(v)
  {
  }

  /** Three bytes and their four digits are the same 24 bits. */
  lemma SameBits(a: byte, b: byte, c: byte)
    ensures (a as int * 256 + b as int) * 256 + c as int
            == ((W(a) * 64 + X(a, b)) * 64 + Y(b, c)) * 64 + Z(c)
  {
    var l: int, m: int, n: int := a, b, c;
    assert l == l / 4 * 4 + l % 4 && m == m / 16 * 16 + m % 16 && n == n / 64 * 64 + n % 64;
  }

  lemma FewBytes(bytes: seq<byte>)
    requires 1 <= |bytes| <= 2
    ensures Decode(Encode(bytes)) == Some(bytes)
  {
    assert Value('=').None?;
    var a := bytes[0];
    var b: byte := if |bytes| > 1 then bytes[1] else 0;
    ByteA(a, b);
    ByteB(a, b, 0);
    Spare(a);
    Spare(b);
    ValueOfDigit(W(a));
    ValueOfDigit(X(a, b));
    ValueOfDigit(Y(b, 0));
    hide Digit, Value, W, X, Y, A, B, SpareX, SpareY;
    assert bytes == if |bytes| == 1 then [a] else [a, b];
  }

  lemma FourBack(a: byte, b: byte, c: byte)
    ensures var t := Four(a, b, c);
            && Value(t[0]) == Some(W(a)) && Value(t[1]) == Some(X(a, b))
            && Value(t[2]) == Some(Y(b, c)) && Value(t[3]) == Some(Z(c))
            && A(W(a), X(a, b)) == a && B(X(a, b), Y(b, c)) == b && C(Y(b, c), Z(c)) == c
  {
    ByteA(a, b);
    ByteB(a, b, c);
    ByteC(b, c);
    ValueOfDigit(W(a));
    ValueOfDigit(X(a, b));
    ValueOfDigit(Y(b, c));
    ValueOfDigit(Z(c));
    hide Digit, Value, W, X, Y, Z, A, B, C;
  }

  lemma LongText(a: byte, b: byte, c: byte, more: string, rest: seq<byte>)
    requires Decode(more) == Some(rest)
    ensures Decode(Four(a, b, c) + more) == Some([a, b, c] + rest)
  {
    FourBack(a, b, c);
    hide Digit, Value, W, X, Y, Z, A, B, C, SpareX, SpareY, Four;
    var t := Four(a, b, c);
    var text := t + more;
    assert text[4..] == more;
    assert text[0] == t[0] && text[1] == t[1] && text[2] == t[2] && text[3] == t[3];
    if more == "" {
      assert [a, b, c] + rest == [a, b, c];
    }
  }

  lemma LongBytes(bytes: seq<byte>, text: string)
    requires |bytes| >= 3 && text == Encode(bytes)
    requires Decode(Encode(bytes[3..])) == Some(bytes[3..])
    ensures Decode(text) == Some(bytes)
  {
    hide Decode, Four;
    LongText(bytes[0], bytes[1], bytes[2], Encode(bytes[3..]), bytes[3..]);
    assert bytes == [bytes[0], bytes[1], bytes[2]] + bytes[3..];
  }

  /** Whatever bytes a frame carries come out again. */
  lemma {:induction false} DecodeInvertsEncode(bytes: seq<byte>)
    ensures Decode(Encode(bytes)) == Some(bytes)
  {
    hide Digit, Value, W, X, Y, Z, A, B, C, SpareX, SpareY;
    if |bytes| >= 3 {
      DecodeInvertsEncode(bytes[3..]);
      LongBytes(bytes, Encode(bytes));
    } else if bytes != [] {
      FewBytes(bytes);
    }
  }

  // -------------------------------------------------------------- And strictly

  lemma DigitOfValue(c: char)
    requires Value(c).Some?
    ensures Digit(Value(c).value) == c
  {
  }

  lemma DigitsBack(w: digit, x: digit, y: digit, z: digit)
    ensures W(A(w, x)) == w && X(A(w, x), B(x, y)) == x && Y(B(x, y), C(y, z)) == y && Z(C(y, z)) == z
    ensures SpareX(x) ==> X(A(w, x), 0) == x
    ensures SpareY(y) ==> Y(B(x, y), 0) == y
  {
    var k: int, l: int, m: int, n: int := w, x, y, z;
    assert (k * 4 + l / 16) / 4 == k && (k * 4 + l / 16) % 4 == l / 16;
    assert (l % 16 * 16 + m / 4) / 16 == l % 16 && (l % 16 * 16 + m / 4) % 16 == m / 4;
    assert (m % 4 * 64 + n) / 64 == m % 4 && (m % 4 * 64 + n) % 64 == n;
    assert l == l / 16 * 16 + l % 16 && m == m / 4 * 4 + m % 4;
  }

  lemma LastFourBack(text: string)
    requires |text| == 4 && DecodeLast(text).Some?
    ensures Encode(DecodeLast(text).value) == text
  {
    DigitOfValue(text[0]);
    DigitOfValue(text[1]);
    if Value(text[2]).Some? {
      DigitOfValue(text[2]);
      if Value(text[3]).Some? {
        DigitOfValue(text[3]);
        DigitsBack(Value(text[0]).value, Value(text[1]).value, Value(text[2]).value, Value(text[3]).value);
      } else {
        DigitsBack(Value(text[0]).value, Value(text[1]).value, Value(text[2]).value, 0);
      }
    } else {
      DigitsBack(Value(text[0]).value, Value(text[1]).value, 0, 0);
    }
    hide Digit, Value, W, X, Y, Z, A, B, C, SpareX, SpareY;
  }

  lemma MoreFourBack(text: string, rest: seq<byte>)
    requires |text| > 4 && Decode(text).Some? && Decode(text[4..]) == Some(rest) && Encode(rest) == text[4..]
    ensures Encode(Decode(text).value) == text
  {
    DigitOfValue(text[0]);
    DigitOfValue(text[1]);
    DigitOfValue(text[2]);
    DigitOfValue(text[3]);
    var w, x, y, z := Value(text[0]).value, Value(text[1]).value, Value(text[2]).value, Value(text[3]).value;
    DigitsBack(w, x, y, z);
    hide Digit, Value, W, X, Y, Z, A, B, C, SpareX, SpareY;
    var bytes := [A(w, x), B(x, y), C(y, z)] + rest;
    assert bytes[3..] == rest;
    assert text == text[..4] + text[4..];
  }

  /** Decoding takes no other text than the one that encodes its bytes. */
  lemma {:induction false} EncodeInvertsDecode(text: string)
    requires Decode(text).Some?
    ensures Encode(Decode(text).value) == text
  {
    hide Digit, Value, W, X, Y, Z, A, B, C, SpareX, SpareY, Encode, Four;
    if |text| > 4 {
      EncodeInvertsDecode(text[4..]);
      MoreFourBack(text, Decode(text[4..]).value);
    } else if |text| == 4 {
      LastFourBack(text);
    } else {
      NothingEncoded();
    }
  }

  lemma NothingEncoded()
    ensures Encode([]) == ""
  {
  }
}
