/** UTF-8 as section 4 of RFC 3629 defines it, and cutting valid text at a byte limit. */
module Utf8 {
  import opened Bytes

  predicate Tail(b: byte) { 0x80 <= b <= 0xBF }

  /** The second byte may be restricted further by the first, which rules out overlong forms and surrogates. */
  predicate SecondByte(lead: byte, b: byte)
  {
    if lead == 0xE0 then 0xA0 <= b <= 0xBF
    else if lead == 0xED then 0x80 <= b <= 0x9F
    else if lead == 0xF0 then 0x90 <= b <= 0xBF
    else if lead == 0xF4 then 0x80 <= b <= 0x8F
    else Tail(b)
  }

  /** How many bytes the character with this first byte takes; 0 when no character starts so. */
  function Width(lead: byte): nat
  {
    if lead <= 0x7F then 1
    else if 0xC2 <= lead <= 0xDF then 2
    else if 0xE0 <= lead <= 0xEF then 3
    else if 0xF0 <= lead <= 0xF4 then 4
    else 0
  }

  /** `s` is exactly one character. */
  predicate OneChar(s: bytes)
  {
    && s != [] && |s| == Width(s[0])
    && (|s| >= 2 ==> SecondByte(s[0], s[1]))
    && (|s| >= 3 ==> Tail(s[2]))
    && (|s| >= 4 ==> Tail(s[3]))
  }

  /** utf8.Valid. */
  predicate Valid(s: bytes)
    decreases |s|
  {
    s == [] ||
    var w := Width(s[0]);
    1 <= w <= |s| && OneChar(s[..w]) && Valid(s[w..])
  }

  /** Valid text with a character in front is valid. */
  lemma ValidCons(c: bytes, s: bytes)
    requires OneChar(c)
    ensures Valid(c + s) <==> Valid(s)
  {
    assert (c + s)[..|c|] == c && (c + s)[|c|..] == s;
  }

  lemma {:induction false} ValidConcat(a: bytes, b: bytes)
    requires Valid(a)
    ensures Valid(a + b) <==> Valid(b)
    decreases |a|
  {
    if a == [] {
      assert a + b == b;
    } else {
      var c, rest := a[..Width(a[0])], a[Width(a[0])..];
      assert a + b == c + (rest + b);
      ValidCons(c, rest + b);
      ValidConcat(rest, b);
    }
  }

  lemma {:induction false} ValidAscii(s: bytes)
    requires forall i | 0 <= i < |s| :: s[i] <= 0x7F
    ensures Valid(s)
    decreases |s|
  {
    if s != [] {
      ValidAscii(s[1..]);
      assert OneChar(s[..1]);
    }
  }

  /** `n` is the length of the longest valid beginning of `s`. */
  predicate LongestValidPrefix(s: bytes, n: nat)
  {
    && n <= |s|
    && Valid(s[..n])
    && forall k | n < k <= |s| :: !Valid(s[..k])
  }

  /** The loop that shortens a preview until it is valid. */
  method TrimToValid(s: bytes) returns (preview: bytes)
    ensures preview <= s
    ensures LongestValidPrefix(s, |preview|)
  {
    preview := s;
    assert s[..|s|] == s;
    while |preview| > 0 && !Valid(preview)
      invariant preview <= s
      invariant forall k | |preview| < k <= |s| :: !Valid(s[..k])
    {
      assert preview == s[..|preview|];
      preview := preview[..|preview| - 1];
    }
    assert s[..|preview|] == preview;
  }

  /** Some character boundary lies within three bytes before any cut of valid text. */
  lemma {:induction false} BoundaryBefore(s: bytes, cut: nat) returns (n: nat)
    requires Valid(s) && cut <= |s|
    ensures n <= cut <= n + 3 && Valid(s[..n])
    decreases |s|
  {
    if s == [] || cut < Width(s[0]) {
      n := 0;
    } else {
      var w := Width(s[0]);
      var c, rest := s[..w], s[w..];
      var m := BoundaryBefore(rest, cut - w);
      n := w + m;
      assert s[..n] == c + rest[..m];
      ValidCons(c, rest[..m]);
    }
  }

  /** Cutting valid text at a limit and trimming loses at most three bytes of what was kept. */
  lemma TrimLosesLittle(s: bytes, cut: nat, n: nat)
    requires Valid(s) && cut <= |s| && LongestValidPrefix(s[..cut], n)
    ensures cut <= n + 3
  {
    var k := BoundaryBefore(s, cut);
    assert s[..cut][..k] == s[..k];
  }
}
