/** Valid UTF-8 is what encodes a sequence of Unicode characters, by the table of section 3 of RFC 3629. */
module Utf8Scalars {
  import opened Bytes
  import opened Utf8

  /** A character: any code point but the surrogates. */
  predicate Scalar(c: int)
  {
    0 <= c <= 0xD7FF || 0xE000 <= c <= 0x10FFFF
  }

  function Encoded(c: int): bytes
    requires Scalar(c)
  {
    if c < 0x80 then [c]
    else if c < 0x800 then [0xC0 + c / 64, 0x80 + c % 64]
    else if c < 0x10000 then [0xE0 + c / 4096, 0x80 + c / 64 % 64, 0x80 + c % 64]
    else [0xF0 + c / 262144, 0x80 + c / 4096 % 64, 0x80 + c / 64 % 64, 0x80 + c % 64]
  }

  predicate AllScalars(cs: seq<int>)
  {
    forall k | 0 <= k < |cs| :: Scalar(cs[k])
  }

  function EncodedAll(cs: seq<int>): bytes
    requires AllScalars(cs)
  {
    if cs == [] then [] else Encoded(cs[0]) + EncodedAll(cs[1..])
  }

  lemma EncodedIsChar(c: int)
    requires Scalar(c)
    ensures OneChar(Encoded(c))
  {
    if 0x800 <= c < 0x10000 {
      ThreeBytes(c);
    } else if 0x10000 <= c {
      FourBytes(c);
    }
  }

  lemma ThreeBytes(c: int)
    requires Scalar(c) && 0x800 <= c < 0x10000
    ensures OneChar(Encoded(c))
  {
    var a, b := c / 4096, c / 64 % 64;
    assert c / 64 == 64 * a + b;
    assert a == 0 ==> b >= 0x20;
    assert a == 0xD ==> b <= 0x1F;
  }

  lemma FourBytes(c: int)
    requires Scalar(c) && 0x10000 <= c
    ensures OneChar(Encoded(c))
  {
    var a, b := c / 262144, c / 4096 % 64;
    assert c / 4096 == 64 * a + b;
    assert a == 0 ==> b >= 0x10;
    assert a == 4 ==> b <= 0xF;
  }

  function Decoded(s: bytes): int
    requires OneChar(s)
  {
    var a: int := s[0];
    if |s| == 1 then a
    else
      var b: int := s[1];
      if |s| == 2 then 64 * (a - 0xC0) + b - 0x80
      else
        var c: int := s[2];
        if |s| == 3 then 64 * (64 * (a - 0xE0) + b - 0x80) + c - 0x80
        else
          var d: int := s[3];
          64 * (64 * (64 * (a - 0xF0) + b - 0x80) + c - 0x80) + d - 0x80
  }

  /** The last six bits. */
  lemma Digits(n: int, d: int)
    requires 0 <= d < 64
    ensures (64 * n + d) / 64 == n && (64 * n + d) % 64 == d
  {
  }

  lemma CharIsEncoded(s: bytes)
    requires OneChar(s)
    ensures Scalar(Decoded(s)) && Encoded(Decoded(s)) == s
  {
    if |s| == 2 {
      Digits(s[0] - 0xC0, s[1] - 0x80);
    } else if |s| == 3 {
      ThreeAreEncoded(s);
    } else if |s| == 4 {
      FourAreEncoded(s);
    }
  }

  lemma ThreeAreEncoded(s: bytes)
    requires OneChar(s) && |s| == 3
    ensures Scalar(Decoded(s)) && Encoded(Decoded(s)) == s
  {
    var a: int, b: int, c: int := s[0] - 0xE0, s[1] - 0x80, s[2] - 0x80;
    Digits(a, b);
    Digits(64 * a + b, c);
    var n := Decoded(s);
    assert n / 64 == 64 * a + b && n / 4096 == a;
  }

  lemma FourAreEncoded(s: bytes)
    requires OneChar(s) && |s| == 4
    ensures Scalar(Decoded(s)) && Encoded(Decoded(s)) == s
  {
    var a: int, b: int, c: int, d: int := s[0] - 0xF0, s[1] - 0x80, s[2] - 0x80, s[3] - 0x80;
    Digits(a, b);
    Digits(64 * a + b, c);
    Digits(64 * (64 * a + b) + c, d);
    var n := Decoded(s);
    assert n / 64 == 64 * (64 * a + b) + c && n / 4096 == 64 * a + b && n / 262144 == a;
  }

  lemma {:induction false} EncodedIsValid(cs: seq<int>)
    requires AllScalars(cs)
    ensures Valid(EncodedAll(cs))
  {
    hide OneChar, Encoded, Width;
    if cs != [] {
      EncodedIsChar(cs[0]);
      EncodedIsValid(cs[1..]);
      ValidCons(Encoded(cs[0]), EncodedAll(cs[1..]));
    }
  }

  lemma {:induction false} ValidIsEncoded(s: bytes) returns (cs: seq<int>)
    requires Valid(s)
    ensures AllScalars(cs) && EncodedAll(cs) == s
    decreases |s|
  {
    hide OneChar, Encoded, Width, Decoded;
    if s == [] {
      cs := [];
    } else {
      var w := Width(s[0]);
      CharIsEncoded(s[..w]);
      var rest := ValidIsEncoded(s[w..]);
      cs := [Decoded(s[..w])] + rest;
      assert cs[1..] == rest;
      assert s == s[..w] + s[w..];
    }
  }

  /** A text is valid if and only if it is some characters, encoded one after the other. */
  lemma ValidExactlyWhen(s: bytes)
    ensures Valid(s) <==> exists cs: seq<int> :: AllScalars(cs) && EncodedAll(cs) == s
  {
    hide Valid, EncodedAll;
    if Valid(s) {
      var cs := ValidIsEncoded(s);
    }
    forall cs: seq<int> | AllScalars(cs) && EncodedAll(cs) == s
      ensures Valid(s)
    {
      EncodedIsValid(cs);
    }
  }
}
