/** Character classes of ctype.c, on bytes. */
module Ctype {
  import opened Bits

  predicate IsDigit(c: byte) { 48 <= c <= 57 }
  predicate IsUpper(c: byte) { 65 <= c <= 90 }
  predicate IsLower(c: byte) { 97 <= c <= 122 }
  /** Tab to carriage return, and the space. */
  predicate IsSpace(c: byte) { 9 <= c <= 13 || c == 32 }

  function ToUpper(c: byte): byte {
    if IsLower(c) then c - 32 else c
  }

  function ToLower(c: byte): byte {
    if IsUpper(c) then c + 32 else c
  }

  const NUL: byte := 0
  const MINUS: byte := 45
  const PLUS: byte := 43
  const ZERO: byte := 48
  const LETTER_A: byte := 97
  const LETTER_X: byte := 120

  /** Character `d` of "0123456789abcdefghijklmnopqrstuvwxyz". */
  function DigitChar(d: nat): (c: byte)
    requires d < 36
    ensures c != NUL && c != MINUS && c != PLUS && !IsSpace(c) && (if d < 10 then IsDigit(c) else IsLower(c))
  {
    if d < 10 then ZERO + d as byte else LETTER_A + (d - 10) as byte
  }
}
