/** Bytes and the ASCII codes the SQL audit code tests for. */
module Bytes {

  type byte = b: int | 0 <= b < 256

  type bytes = seq<byte>

  const TAB: byte := 9
  const LF: byte := 10
  const CR: byte := 13
  const SPACE: byte := 32
  const DQUOTE: byte := 34      // "
  const HASH: byte := 35        // #
  const DOLLAR: byte := 36      // $
  const SQUOTE: byte := 39      // '
  const STAR: byte := 42        // *
  const PLUS: byte := 43        // +
  const DASH: byte := 45        // -
  const DOT: byte := 46         // .
  const SLASH: byte := 47       // /
  const COLON: byte := 58       // :
  const SEMICOLON: byte := 59   // ;
  const EQUALS: byte := 61      // =
  const UPPER_B: byte := 66
  const UPPER_Y: byte := 89
  const LBRACKET: byte := 91    // [
  const BACKSLASH: byte := 92
  const RBRACKET: byte := 93    // ]
  const UNDERSCORE: byte := 95
  const BACKTICK: byte := 96
  const LOWER_B: byte := 98
  const LOWER_Y: byte := 121

  predicate IsDigit(b: byte) { 48 <= b <= 57 }

  predicate IsLower(b: byte) { 97 <= b <= 122 }

  predicate IsUpper(b: byte) { 65 <= b <= 90 }

  predicate IsBlank(b: byte) { b == SPACE || b == TAB || b == CR || b == LF }

  /** ASCII lower case. */
  function Lower(b: byte): byte { if IsUpper(b) then b + 32 else b }

  /** bytes.EqualFold on ASCII text. */
  predicate EqualFold(a: bytes, b: bytes)
  {
    |a| == |b| && forall i | 0 <= i < |a| :: Lower(a[i]) == Lower(b[i])
  }
}
