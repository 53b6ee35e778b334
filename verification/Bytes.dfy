/** Bytes, and the classes of characters as the C locale has them. */
module Bytes {

  type byte = x: int | 0 <= x < 256

  predicate IsUpper(c: byte) { 'A' as int <= c <= 'Z' as int }
  predicate IsLower(c: byte) { 'a' as int <= c <= 'z' as int }
  predicate IsAlpha(c: byte) { IsUpper(c) || IsLower(c) }
  predicate IsDigit(c: byte) { '0' as int <= c <= '9' as int }
  predicate IsAlnum(c: byte) { IsAlpha(c) || IsDigit(c) }
  predicate IsXDigit(c: byte) { IsDigit(c) || 'a' as int <= c <= 'f' as int || 'A' as int <= c <= 'F' as int }
  predicate IsSpace(c: byte) { c == 32 || 9 <= c <= 13 }
  predicate IsCntrl(c: byte) { c < 32 || c == 127 }
  predicate IsGraph(c: byte) { 32 < c < 127 }
  predicate IsPunct(c: byte) { IsGraph(c) && !IsAlnum(c) }
  function ToLower(c: byte): byte { if IsUpper(c) then c + 32 else c }
}
