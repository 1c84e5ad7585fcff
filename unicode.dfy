/**
 * Finite-alphabet stand-ins for the .NET character library (char.IsLetter, char.IsUpper,
 * char.ToLower, char.ToUpper, char.IsDigit, char.IsWhiteSpace, char.IsPunctuation,
 * char.IsSymbol, string.ToLowerInvariant and string.ToUpperInvariant).
 *
 * Letter case is defined on ASCII, on the Latin-1 letters U+00C0..U+00FF (with ÿ and its
 * partner Ÿ, U+0178) and on the Vietnamese letters outside Latin-1: Ă ă, Đ đ, Ĩ ĩ, Ũ ũ,
 * Ơ ơ, Ư ư and the block U+1EA0..U+1EF9, where an even code point is the upper-case
 * partner of the next one. The other Latin-1 letters ª µ º ß are letters without case
 * here. Every other character has no case and is not a letter.
 */
module Unicode {

  predicate IsDigit(c: char) {
    '0' <= c <= '9'
  }

  function ToLower(c: char): char
  {
    var n := c as int;
    if 'A' <= c <= 'Z' then (n + 32) as char
    else if 0xC0 <= n <= 0xDE && n != 0xD7 then (n + 32) as char
    else if n == 0x102 || n == 0x110 || n == 0x128 || n == 0x168 || n == 0x1A0 || n == 0x1AF then (n + 1) as char
    else if n == 0x178 then 0xFF as char
    else if 0x1EA0 <= n <= 0x1EF9 && n % 2 == 0 then (n + 1) as char
    else c
  }

  function ToUpper(c: char): char
  {
    var n := c as int;
    if 'a' <= c <= 'z' then (n - 32) as char
    else if 0xE0 <= n <= 0xFE && n != 0xF7 then (n - 32) as char
    else if n == 0x103 || n == 0x111 || n == 0x129 || n == 0x169 || n == 0x1A1 || n == 0x1B0 then (n - 1) as char
    else if n == 0xFF then 0x178 as char
    else if 0x1EA1 <= n <= 0x1EF9 && n % 2 == 1 then (n - 1) as char
    else c
  }

  /** An upper-case letter is one that has a distinct lower-case partner. */
  predicate IsUpper(c: char) {
    ToLower(c) != c
  }

  predicate IsLower(c: char) {
    ToUpper(c) != c
  }

  /** The Latin-1 letters ª µ º ß, which have no case partner in this alphabet. */
  predicate IsCaselessLetter(c: char) {
    c == 0xAA as char || c == 0xB5 as char || c == 0xBA as char || c == 0xDF as char
  }

  predicate IsLetter(c: char) {
    IsUpper(c) || IsLower(c) || IsCaselessLetter(c)
  }

  predicate IsWhiteSpace(c: char) {
    var n := c as int;
    (0x09 <= n <= 0x0D) || n == 0x20 || n == 0x85 || n == 0xA0 || n == 0x1680
    || (0x2000 <= n <= 0x200A) || n == 0x2028 || n == 0x2029 || n == 0x202F || n == 0x205F || n == 0x3000
  }

  /** The ASCII punctuation of .NET plus ¡ § « ¶ · » ¿ and the punctuation of U+2010..U+2043. */
  predicate IsPunctuation(c: char) {
    var n := c as int;
    (0x21 <= n <= 0x23) || (0x25 <= n <= 0x2A) || (0x2C <= n <= 0x2F) || n == 0x3A || n == 0x3B
    || n == 0x3F || n == 0x40 || (0x5B <= n <= 0x5D) || n == 0x5F || n == 0x7B || n == 0x7D
    || n == 0xA1 || n == 0xA7 || n == 0xAB || n == 0xB6 || n == 0xB7 || n == 0xBB || n == 0xBF
    || (0x2010 <= n <= 0x2027) || (0x2030 <= n <= 0x2043)
  }

  /** The ASCII symbols of .NET plus the Latin-1 symbols ¢..¦ ¨ © ¬ ®..± ´ ¸ × ÷. */
  predicate IsSymbol(c: char) {
    var n := c as int;
    n == 0x24 || n == 0x2B || (0x3C <= n <= 0x3E) || n == 0x5E || n == 0x60 || n == 0x7C || n == 0x7E
    || (0xA2 <= n <= 0xA6) || n == 0xA8 || n == 0xA9 || n == 0xAC || (0xAE <= n <= 0xB1)
    || n == 0xB4 || n == 0xB8 || n == 0xD7 || n == 0xF7
  }

  function LowerString(s: string): (r: string)
    ensures |r| == |s| && forall i :: 0 <= i < |s| ==> r[i] == ToLower(s[i])
  {
    seq(|s|, i requires 0 <= i < |s| => ToLower(s[i]))
  }

  function UpperString(s: string): (r: string)
    ensures |r| == |s| && forall i :: 0 <= i < |s| ==> r[i] == ToUpper(s[i])
  {
    seq(|s|, i requires 0 <= i < |s| => ToUpper(s[i]))
  }

  /** Lower-casing forgets exactly the case: it is idempotent and does not see a prior upper-casing. */
  lemma CaseFolding(c: char)
    ensures IsUpper(c) ==> ToUpper(ToLower(c)) == c && !IsUpper(ToLower(c))
    ensures IsLower(c) ==> ToLower(ToUpper(c)) == c && !IsLower(ToUpper(c))
    ensures !(IsUpper(c) && IsLower(c))
    ensures ToLower(ToLower(c)) == ToLower(c)
    ensures ToLower(ToUpper(c)) == ToLower(c)
    ensures ToUpper(ToUpper(c)) == ToUpper(c)
    ensures !IsLetter(c) ==> ToLower(c) == c && ToUpper(c) == c
    ensures IsLetter(ToLower(c)) == IsLetter(c)
  {
  }

  lemma LowerStringFolding(s: string)
    ensures LowerString(LowerString(s)) == LowerString(s)
    ensures LowerString(UpperString(s)) == LowerString(s)
  {
    forall i | 0 <= i < |s| ensures ToLower(ToLower(s[i])) == ToLower(s[i]) && ToLower(ToUpper(s[i])) == ToLower(s[i]) {
      CaseFolding(s[i]);
    }
  }
}
