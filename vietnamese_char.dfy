/**
 * The Vietnamese vowel table and the tone and vowel-modifier lookups over it
 * (VietIME.Core.Models.VietnameseChar).
 *
 * VowelMap is a dictionary from 24 key vowels to six-character rows: the key itself
 * followed by its grave, acute, hook, tilde and dot forms. The C# lookups iterate the
 * dictionary in declaration order; here the rows are numbered 0..23 in that order and
 * every lookup scans them the same way. EntryUnique shows that each character occurs in
 * at most one place of the table, so the order of that scan never matters.
 */
module VietnameseChar {
  import opened Unicode

  /** The six tones, in the order of the table's columns. */
  datatype ToneIndex = None | Grave | Acute | Hook | Tilde | Dot

  const RowCount: nat := 24
  const RowLength: nat := 6

  /** `(int)tone`. */
  function ToneValue(t: ToneIndex): (n: nat)
    ensures n < RowLength
  {
    match t
    case None => 0
    case Grave => 1
    case Acute => 2
    case Hook => 3
    case Tilde => 4
    case Dot => 5
  }

  /** `(ToneIndex)i` for a column index i. */
  function ToneOfValue(i: nat): (t: ToneIndex)
    requires i < RowLength
    ensures ToneValue(t) == i
  {
    match i
    case 0 => None
    case 1 => Grave
    case 2 => Acute
    case 3 => Hook
    case 4 => Tilde
    case 5 => Dot
  }

  /** The keys of VowelMap, in declaration order. */
  const Keys: string := "aAăĂâÂeEêÊiIoOôÔơƠuUưƯyY"

  /** The value VowelMap holds for key Keys[k]. */
  function Row(k: nat): (row: string)
    requires k < RowCount
    ensures |row| == RowLength
  {
    match k
    case 0 => "aàáảãạ"
    case 1 => "AÀÁẢÃẠ"
    case 2 => "ăằắẳẵặ"
    case 3 => "ĂẰẮẲẴẶ"
    case 4 => "âầấẩẫậ"
    case 5 => "ÂẦẤẨẪẬ"
    case 6 => "eèéẻẽẹ"
    case 7 => "EÈÉẺẼẸ"
    case 8 => "êềếểễệ"
    case 9 => "ÊỀẾỂỄỆ"
    case 10 => "iìíỉĩị"
    case 11 => "IÌÍỈĨỊ"
    case 12 => "oòóỏõọ"
    case 13 => "OÒÓỎÕỌ"
    case 14 => "ôồốổỗộ"
    case 15 => "ÔỒỐỔỖỘ"
    case 16 => "ơờớởỡợ"
    case 17 => "ƠỜỚỞỠỢ"
    case 18 => "uùúủũụ"
    case 19 => "UÙÚỦŨỤ"
    case 20 => "ưừứửữự"
    case 21 => "ƯỪỨỬỮỰ"
    case 22 => "yỳýỷỹỵ"
    case 23 => "YỲÝỶỸỴ"
  }

  /** BaseVowelTransform: a vowel with breve, circumflex or horn to its plain letter. */
  const BaseVowelTransform: map<char, char> := map[
    'a' := 'a', 'ă' := 'a', 'â' := 'a', 'A' := 'A', 'Ă' := 'A', 'Â' := 'A',
    'e' := 'e', 'ê' := 'e', 'E' := 'E', 'Ê' := 'E',
    'o' := 'o', 'ô' := 'o', 'ơ' := 'o', 'O' := 'O', 'Ô' := 'O', 'Ơ' := 'O',
    'u' := 'u', 'ư' := 'u', 'U' := 'U', 'Ư' := 'U']

  const LowerD: char := 'đ'
  const UpperD: char := 'Đ'

  /** The first row, at k or later, that contains c; -1 when there is none. */
  function FindRowFrom(c: char, k: nat): (r: int)
    requires k <= RowCount
    ensures r == -1 || k <= r < RowCount
    ensures r >= 0 ==> c in Row(r)
    decreases RowCount - k
  {
    if k == RowCount then -1
    else if c in Row(k) then k
    else FindRowFrom(c, k + 1)
  }

  /** The first row of VowelMap that contains c, or -1. */
  function FindRow(c: char): int
  {
    FindRowFrom(c, 0)
  }

  /** The first index, at i or later, where c occurs in s; -1 when there is none. */
  function IndexFrom(s: string, c: char, i: nat): (r: int)
    requires i <= |s|
    ensures r == -1 || i <= r < |s|
    ensures r == -1 <==> c !in s[i..]
    ensures r >= 0 ==> s[r] == c && c !in s[i..r]
    decreases |s| - i
  {
    if i == |s| then -1
    else if s[i] == c then i
    else
      assert s[i..] == [s[i]] + s[i + 1..];
      var r := IndexFrom(s, c, i + 1);
      assert r >= 0 ==> s[i..r] == [s[i]] + s[i + 1..r];
      r
  }

  /** Some row at k or later contains c (`VowelMap.Values.Any(arr => arr.Contains(c))` from row k on). */
  predicate AnyRowContains(c: char, k: nat)
    requires k <= RowCount
    decreases RowCount - k
  {
    k < RowCount && (c in Row(k) || AnyRowContains(c, k + 1))
  }

  lemma {:induction false} AnyRowFindsRow(c: char, k: nat)
    requires k <= RowCount
    ensures AnyRowContains(c, k) <==> FindRowFrom(c, k) >= 0
    decreases RowCount - k
  {
    if k < RowCount {
      AnyRowFindsRow(c, k + 1);
    }
  }

  /** A character of row k is found by the search from any row j up to k. */
  lemma {:induction false} RowInAnyRow(c: char, j: nat, k: nat)
    requires j <= k < RowCount && c in Row(k)
    ensures AnyRowContains(c, j)
    decreases k - j
  {
    if j < k {
      RowInAnyRow(c, j + 1, k);
    }
  }

  /** c is a key of VowelMap or occurs in one of its rows. */
  predicate IsVietnameseVowel(c: char) {
    c in Keys || AnyRowContains(c, 0)
  }

  /** The plain vowel of c: the key of its row, with breve, circumflex or horn removed. */
  function GetBaseVowel(c: char): char {
    var k := FindRow(c);
    if k < 0 then c
    else if Keys[k] in BaseVowelTransform then BaseVowelTransform[Keys[k]]
    else Keys[k]
  }

  /** The first entry of the first row, from k on, that contains c; c itself when none does. */
  function UntonedFrom(c: char, k: nat): (r: char)
    requires k <= RowCount
    ensures !AnyRowContains(c, k) ==> r == c
    decreases RowCount - k
  {
    if k == RowCount then c
    else if c in Row(k) then Row(k)[0]
    else UntonedFrom(c, k + 1)
  }

  /** c without its tone: the first entry of its row. */
  function GetVowelWithoutTone(c: char): char {
    UntonedFrom(c, 0)
  }

  /** The tone of c: the column of its first occurrence, scanning rows from k on. */
  function ToneSearch(c: char, k: nat): (t: ToneIndex)
    requires k <= RowCount
    ensures !AnyRowContains(c, k) ==> t == None
    decreases RowCount - k
  {
    if k == RowCount then None
    else
      var i := IndexFrom(Row(k), c, 0);
      if i >= 0 then ToneOfValue(i) else ToneSearch(c, k + 1)
  }

  function GetToneIndex(c: char): ToneIndex {
    ToneSearch(c, 0)
  }

  /** Entry `tone` of the first row, from k on, that contains the vowel; the vowel itself when none does. */
  function ApplyToneFrom(vowel: char, tone: ToneIndex, k: nat): (r: char)
    requires k <= RowCount
    ensures !AnyRowContains(vowel, k) ==> r == vowel
    decreases RowCount - k
  {
    if k == RowCount then vowel
    else if vowel in Row(k) && ToneValue(tone) < |Row(k)| then Row(k)[ToneValue(tone)]
    else ApplyToneFrom(vowel, tone, k + 1)
  }

  function ApplyTone(vowel: char, tone: ToneIndex): char {
    ApplyToneFrom(vowel, tone, 0)
  }

  /** The lower-case vowels a modifier can act on: a, ă, â; e, ê; o, ô, ơ; u, ư. */
  predicate IsAFamily(c: char) { c == 'a' || c == 'ă' || c == 'â' }
  predicate IsEFamily(c: char) { c == 'e' || c == 'ê' }
  predicate IsOFamily(c: char) { c == 'o' || c == 'ô' || c == 'ơ' }
  predicate IsUFamily(c: char) { c == 'u' || c == 'ư' }

  predicate IsModifiable(c: char) { IsAFamily(c) || IsEFamily(c) || IsOFamily(c) || IsUFamily(c) }

  /**
   * Adds a breve or horn (modifier w) or a circumflex (modifier a, e or o) to a vowel,
   * keeping its case, and re-applies the vowel's tone when the result is a key.
   */
  function TransformVowel(vowel: char, modifier: char): char {
    var isUpper := IsUpper(vowel);
    var lowerVowel := ToLower(vowel);
    var lowerMod := ToLower(modifier);
    var currentTone := GetToneIndex(vowel);
    var result :=
      if lowerMod == 'w' then
        (if IsAFamily(lowerVowel) then 'ă'
         else if IsOFamily(lowerVowel) then 'ơ'
         else if IsUFamily(lowerVowel) then 'ư'
         else vowel)
      else if lowerMod == 'a' then (if IsAFamily(lowerVowel) then 'â' else vowel)
      else if lowerMod == 'e' then (if IsEFamily(lowerVowel) then 'ê' else vowel)
      else if lowerMod == 'o' then (if IsOFamily(lowerVowel) then 'ô' else vowel)
      else vowel;
    var cased := if isUpper then ToUpper(result) else result;
    if currentTone != None && cased in Keys then ApplyTone(cased, currentTone) else cased
  }

  // ---------------------------------------------------------------------------
  // Proof device: a decoder for the table.

  /** Where a character sits in the table. */
  datatype Location = NotFound | At(row: nat, column: nat)

  /**
   * The inverse of the table as a decision tree over code points. It only
   * serves to make the facts about the 144 entries cheap to prove.
   */
  ghost function Locate(c: char): Location {
    if c < 'Ẳ' then
      if c < 'í' then
        if c < 'Ê' then
          if c < 'o' then
            if c < 'U' then
              if c < 'I' then
                if c < 'E' then
                  if c == 'A' then At(1, 0) else NotFound
                else
                  if c == 'E' then At(7, 0) else NotFound
              else
                if c < 'O' then
                  if c == 'I' then At(11, 0) else NotFound
                else
                  if c == 'O' then At(13, 0) else NotFound
            else
              if c < 'a' then
                if c < 'Y' then
                  if c == 'U' then At(19, 0) else NotFound
                else
                  if c == 'Y' then At(23, 0) else NotFound
              else
                if c < 'e' then
                  if c == 'a' then At(0, 0) else NotFound
                else
                  if c < 'i' then
                    if c == 'e' then At(6, 0) else NotFound
                  else
                    if c == 'i' then At(10, 0) else NotFound
          else
            if c < 'Á' then
              if c < 'y' then
                if c < 'u' then
                  if c == 'o' then At(12, 0) else NotFound
                else
                  if c == 'u' then At(18, 0) else NotFound
              else
                if c < 'À' then
                  if c == 'y' then At(22, 0) else NotFound
                else
                  if c == 'À' then At(1, 1) else NotFound
            else
              if c < 'Ã' then
                if c < 'Â' then
                  if c == 'Á' then At(1, 2) else NotFound
                else
                  if c == 'Â' then At(5, 0) else NotFound
              else
                if c < 'È' then
                  if c == 'Ã' then At(1, 4) else NotFound
                else
                  if c < 'É' then
                    if c == 'È' then At(7, 1) else NotFound
                  else
                    if c == 'É' then At(7, 2) else NotFound
        else
          if c < 'Ý' then
            if c < 'Ó' then
              if c < 'Í' then
                if c < 'Ì' then
                  if c == 'Ê' then At(9, 0) else NotFound
                else
                  if c == 'Ì' then At(11, 1) else NotFound
              else
                if c < 'Ò' then
                  if c == 'Í' then At(11, 2) else NotFound
                else
                  if c == 'Ò' then At(13, 1) else NotFound
            else
              if c < 'Õ' then
                if c < 'Ô' then
                  if c == 'Ó' then At(13, 2) else NotFound
                else
                  if c == 'Ô' then At(15, 0) else NotFound
              else
                if c < 'Ù' then
                  if c == 'Õ' then At(13, 4) else NotFound
                else
                  if c < 'Ú' then
                    if c == 'Ù' then At(19, 1) else NotFound
                  else
                    if c == 'Ú' then At(19, 2) else NotFound
          else
            if c < 'ã' then
              if c < 'á' then
                if c < 'à' then
                  if c == 'Ý' then At(23, 2) else NotFound
                else
                  if c == 'à' then At(0, 1) else NotFound
              else
                if c < 'â' then
                  if c == 'á' then At(0, 2) else NotFound
                else
                  if c == 'â' then At(4, 0) else NotFound
            else
              if c < 'é' then
                if c < 'è' then
                  if c == 'ã' then At(0, 4) else NotFound
                else
                  if c == 'è' then At(6, 1) else NotFound
              else
                if c < 'ê' then
                  if c == 'é' then At(6, 2) else NotFound
                else
                  if c < 'ì' then
                    if c == 'ê' then At(8, 0) else NotFound
                  else
                    if c == 'ì' then At(10, 1) else NotFound
      else
        if c < 'Ạ' then
          if c < 'ă' then
            if c < 'õ' then
              if c < 'ó' then
                if c < 'ò' then
                  if c == 'í' then At(10, 2) else NotFound
                else
                  if c == 'ò' then At(12, 1) else NotFound
              else
                if c < 'ô' then
                  if c == 'ó' then At(12, 2) else NotFound
                else
                  if c == 'ô' then At(14, 0) else NotFound
            else
              if c < 'ú' then
                if c < 'ù' then
                  if c == 'õ' then At(12, 4) else NotFound
                else
                  if c == 'ù' then At(18, 1) else NotFound
              else
                if c < 'ý' then
                  if c == 'ú' then At(18, 2) else NotFound
                else
                  if c < 'Ă' then
                    if c == 'ý' then At(22, 2) else NotFound
                  else
                    if c == 'Ă' then At(3, 0) else NotFound
          else
            if c < 'ũ' then
              if c < 'ĩ' then
                if c < 'Ĩ' then
                  if c == 'ă' then At(2, 0) else NotFound
                else
                  if c == 'Ĩ' then At(11, 4) else NotFound
              else
                if c < 'Ũ' then
                  if c == 'ĩ' then At(10, 4) else NotFound
                else
                  if c == 'Ũ' then At(19, 4) else NotFound
            else
              if c < 'ơ' then
                if c < 'Ơ' then
                  if c == 'ũ' then At(18, 4) else NotFound
                else
                  if c == 'Ơ' then At(17, 0) else NotFound
              else
                if c < 'Ư' then
                  if c == 'ơ' then At(16, 0) else NotFound
                else
                  if c < 'ư' then
                    if c == 'Ư' then At(21, 0) else NotFound
                  else
                    if c == 'ư' then At(20, 0) else NotFound
        else
          if c < 'ẩ' then
            if c < 'Ấ' then
              if c < 'Ả' then
                if c < 'ạ' then
                  if c == 'Ạ' then At(1, 5) else NotFound
                else
                  if c == 'ạ' then At(0, 5) else NotFound
              else
                if c < 'ả' then
                  if c == 'Ả' then At(1, 3) else NotFound
                else
                  if c == 'ả' then At(0, 3) else NotFound
            else
              if c < 'Ầ' then
                if c < 'ấ' then
                  if c == 'Ấ' then At(5, 2) else NotFound
                else
                  if c == 'ấ' then At(4, 2) else NotFound
              else
                if c < 'ầ' then
                  if c == 'Ầ' then At(5, 1) else NotFound
                else
                  if c < 'Ẩ' then
                    if c == 'ầ' then At(4, 1) else NotFound
                  else
                    if c == 'Ẩ' then At(5, 3) else NotFound
          else
            if c < 'ậ' then
              if c < 'ẫ' then
                if c < 'Ẫ' then
                  if c == 'ẩ' then At(4, 3) else NotFound
                else
                  if c == 'Ẫ' then At(5, 4) else NotFound
              else
                if c < 'Ậ' then
                  if c == 'ẫ' then At(4, 4) else NotFound
                else
                  if c == 'Ậ' then At(5, 5) else NotFound
            else
              if c < 'ắ' then
                if c < 'Ắ' then
                  if c == 'ậ' then At(4, 5) else NotFound
                else
                  if c == 'Ắ' then At(3, 2) else NotFound
              else
                if c < 'Ằ' then
                  if c == 'ắ' then At(2, 2) else NotFound
                else
                  if c < 'ằ' then
                    if c == 'Ằ' then At(3, 1) else NotFound
                  else
                    if c == 'ằ' then At(2, 1) else NotFound
    else
      if c < 'Ỗ' then
        if c < 'Ễ' then
          if c < 'ẻ' then
            if c < 'Ặ' then
              if c < 'Ẵ' then
                if c < 'ẳ' then
                  if c == 'Ẳ' then At(3, 3) else NotFound
                else
                  if c == 'ẳ' then At(2, 3) else NotFound
              else
                if c < 'ẵ' then
                  if c == 'Ẵ' then At(3, 4) else NotFound
                else
                  if c == 'ẵ' then At(2, 4) else NotFound
            else
              if c < 'Ẹ' then
                if c < 'ặ' then
                  if c == 'Ặ' then At(3, 5) else NotFound
                else
                  if c == 'ặ' then At(2, 5) else NotFound
              else
                if c < 'ẹ' then
                  if c == 'Ẹ' then At(7, 5) else NotFound
                else
                  if c < 'Ẻ' then
                    if c == 'ẹ' then At(6, 5) else NotFound
                  else
                    if c == 'Ẻ' then At(7, 3) else NotFound
          else
            if c < 'ế' then
              if c < 'ẽ' then
                if c < 'Ẽ' then
                  if c == 'ẻ' then At(6, 3) else NotFound
                else
                  if c == 'Ẽ' then At(7, 4) else NotFound
              else
                if c < 'Ế' then
                  if c == 'ẽ' then At(6, 4) else NotFound
                else
                  if c == 'Ế' then At(9, 2) else NotFound
            else
              if c < 'ề' then
                if c < 'Ề' then
                  if c == 'ế' then At(8, 2) else NotFound
                else
                  if c == 'Ề' then At(9, 1) else NotFound
              else
                if c < 'Ể' then
                  if c == 'ề' then At(8, 1) else NotFound
                else
                  if c < 'ể' then
                    if c == 'Ể' then At(9, 3) else NotFound
                  else
                    if c == 'ể' then At(8, 3) else NotFound
        else
          if c < 'ọ' then
            if c < 'Ỉ' then
              if c < 'Ệ' then
                if c < 'ễ' then
                  if c == 'Ễ' then At(9, 4) else NotFound
                else
                  if c == 'ễ' then At(8, 4) else NotFound
              else
                if c < 'ệ' then
                  if c == 'Ệ' then At(9, 5) else NotFound
                else
                  if c == 'ệ' then At(8, 5) else NotFound
            else
              if c < 'Ị' then
                if c < 'ỉ' then
                  if c == 'Ỉ' then At(11, 3) else NotFound
                else
                  if c == 'ỉ' then At(10, 3) else NotFound
              else
                if c < 'ị' then
                  if c == 'Ị' then At(11, 5) else NotFound
                else
                  if c < 'Ọ' then
                    if c == 'ị' then At(10, 5) else NotFound
                  else
                    if c == 'Ọ' then At(13, 5) else NotFound
          else
            if c < 'ố' then
              if c < 'ỏ' then
                if c < 'Ỏ' then
                  if c == 'ọ' then At(12, 5) else NotFound
                else
                  if c == 'Ỏ' then At(13, 3) else NotFound
              else
                if c < 'Ố' then
                  if c == 'ỏ' then At(12, 3) else NotFound
                else
                  if c == 'Ố' then At(15, 2) else NotFound
            else
              if c < 'ồ' then
                if c < 'Ồ' then
                  if c == 'ố' then At(14, 2) else NotFound
                else
                  if c == 'Ồ' then At(15, 1) else NotFound
              else
                if c < 'Ổ' then
                  if c == 'ồ' then At(14, 1) else NotFound
                else
                  if c < 'ổ' then
                    if c == 'Ổ' then At(15, 3) else NotFound
                  else
                    if c == 'ổ' then At(14, 3) else NotFound
      else
        if c < 'Ứ' then
          if c < 'ở' then
            if c < 'Ớ' then
              if c < 'Ộ' then
                if c < 'ỗ' then
                  if c == 'Ỗ' then At(15, 4) else NotFound
                else
                  if c == 'ỗ' then At(14, 4) else NotFound
              else
                if c < 'ộ' then
                  if c == 'Ộ' then At(15, 5) else NotFound
                else
                  if c == 'ộ' then At(14, 5) else NotFound
            else
              if c < 'Ờ' then
                if c < 'ớ' then
                  if c == 'Ớ' then At(17, 2) else NotFound
                else
                  if c == 'ớ' then At(16, 2) else NotFound
              else
                if c < 'ờ' then
                  if c == 'Ờ' then At(17, 1) else NotFound
                else
                  if c < 'Ở' then
                    if c == 'ờ' then At(16, 1) else NotFound
                  else
                    if c == 'Ở' then At(17, 3) else NotFound
          else
            if c < 'ợ' then
              if c < 'ỡ' then
                if c < 'Ỡ' then
                  if c == 'ở' then At(16, 3) else NotFound
                else
                  if c == 'Ỡ' then At(17, 4) else NotFound
              else
                if c < 'Ợ' then
                  if c == 'ỡ' then At(16, 4) else NotFound
                else
                  if c == 'Ợ' then At(17, 5) else NotFound
            else
              if c < 'ụ' then
                if c < 'Ụ' then
                  if c == 'ợ' then At(16, 5) else NotFound
                else
                  if c == 'Ụ' then At(19, 5) else NotFound
              else
                if c < 'Ủ' then
                  if c == 'ụ' then At(18, 5) else NotFound
                else
                  if c < 'ủ' then
                    if c == 'Ủ' then At(19, 3) else NotFound
                  else
                    if c == 'ủ' then At(18, 3) else NotFound
        else
          if c < 'ự' then
            if c < 'Ử' then
              if c < 'Ừ' then
                if c < 'ứ' then
                  if c == 'Ứ' then At(21, 2) else NotFound
                else
                  if c == 'ứ' then At(20, 2) else NotFound
              else
                if c < 'ừ' then
                  if c == 'Ừ' then At(21, 1) else NotFound
                else
                  if c == 'ừ' then At(20, 1) else NotFound
            else
              if c < 'Ữ' then
                if c < 'ử' then
                  if c == 'Ử' then At(21, 3) else NotFound
                else
                  if c == 'ử' then At(20, 3) else NotFound
              else
                if c < 'ữ' then
                  if c == 'Ữ' then At(21, 4) else NotFound
                else
                  if c < 'Ự' then
                    if c == 'ữ' then At(20, 4) else NotFound
                  else
                    if c == 'Ự' then At(21, 5) else NotFound
          else
            if c < 'ỵ' then
              if c < 'ỳ' then
                if c < 'Ỳ' then
                  if c == 'ự' then At(20, 5) else NotFound
                else
                  if c == 'Ỳ' then At(23, 1) else NotFound
              else
                if c < 'Ỵ' then
                  if c == 'ỳ' then At(22, 1) else NotFound
                else
                  if c == 'Ỵ' then At(23, 5) else NotFound
            else
              if c < 'ỷ' then
                if c < 'Ỷ' then
                  if c == 'ỵ' then At(22, 5) else NotFound
                else
                  if c == 'Ỷ' then At(23, 3) else NotFound
              else
                if c < 'Ỹ' then
                  if c == 'ỷ' then At(22, 3) else NotFound
                else
                  if c < 'ỹ' then
                    if c == 'Ỹ' then At(23, 4) else NotFound
                  else
                    if c == 'ỹ' then At(22, 4) else NotFound
  }

  lemma LocateRows0(k: nat, a: nat)
    requires k < 2 && a < RowLength
    ensures Locate(Row(k)[a]) == At(k, a)
  {
  }

  lemma LocateRows2(k: nat, a: nat)
    requires 2 <= k < 4 && a < RowLength
    ensures Locate(Row(k)[a]) == At(k, a)
  {
  }

  lemma LocateRows4(k: nat, a: nat)
    requires 4 <= k < 6 && a < RowLength
    ensures Locate(Row(k)[a]) == At(k, a)
  {
  }

  lemma LocateRows6(k: nat, a: nat)
    requires 6 <= k < 8 && a < RowLength
    ensures Locate(Row(k)[a]) == At(k, a)
  {
  }

  lemma LocateRows8(k: nat, a: nat)
    requires 8 <= k < 10 && a < RowLength
    ensures Locate(Row(k)[a]) == At(k, a)
  {
  }

  lemma LocateRows10(k: nat, a: nat)
    requires 10 <= k < 12 && a < RowLength
    ensures Locate(Row(k)[a]) == At(k, a)
  {
  }

  lemma LocateRows12(k: nat, a: nat)
    requires 12 <= k < 14 && a < RowLength
    ensures Locate(Row(k)[a]) == At(k, a)
  {
  }

  lemma LocateRows14(k: nat, a: nat)
    requires 14 <= k < 16 && a < RowLength
    ensures Locate(Row(k)[a]) == At(k, a)
  {
  }

  lemma LocateRows16(k: nat, a: nat)
    requires 16 <= k < 18 && a < RowLength
    ensures Locate(Row(k)[a]) == At(k, a)
  {
  }

  lemma LocateRows18(k: nat, a: nat)
    requires 18 <= k < 20 && a < RowLength
    ensures Locate(Row(k)[a]) == At(k, a)
  {
  }

  lemma LocateRows20(k: nat, a: nat)
    requires 20 <= k < 22 && a < RowLength
    ensures Locate(Row(k)[a]) == At(k, a)
  {
  }

  lemma LocateRows22(k: nat, a: nat)
    requires 22 <= k < 24 && a < RowLength
    ensures Locate(Row(k)[a]) == At(k, a)
  {
  }

  lemma LocateEntry(k: nat, a: nat)
    requires k < RowCount && a < RowLength
    ensures Locate(Row(k)[a]) == At(k, a)
  {
    if k < 2 { LocateRows0(k, a); }
    else if k < 4 { LocateRows2(k, a); }
    else if k < 6 { LocateRows4(k, a); }
    else if k < 8 { LocateRows6(k, a); }
    else if k < 10 { LocateRows8(k, a); }
    else if k < 12 { LocateRows10(k, a); }
    else if k < 14 { LocateRows12(k, a); }
    else if k < 16 { LocateRows14(k, a); }
    else if k < 18 { LocateRows16(k, a); }
    else if k < 20 { LocateRows18(k, a); }
    else if k < 22 { LocateRows20(k, a); }
    else { LocateRows22(k, a); }
  }

  // ---------------------------------------------------------------------------
  // The shape of the table.

  /** Row k has six entries and begins with its key. */
  lemma RowShape(k: nat)
    requires k < RowCount
    ensures |Row(k)| == 6 && |Keys| == RowCount && Row(k)[0] == Keys[k]
  {
  }

  /** Every character occurs at most once in the table: rows are pairwise disjoint and have no repeats. */
  lemma EntryUnique(k: nat, a: nat, j: nat, b: nat)
    requires k < RowCount && a < RowLength && j < RowCount && b < RowLength
    ensures Row(k)[a] == Row(j)[b] <==> k == j && a == b
  {
    LocateEntry(k, a);
    LocateEntry(j, b);
  }

  /** The position of a vowel in the table. */
  lemma EntryOf(c: char) returns (k: nat, a: nat)
    requires IsVietnameseVowel(c)
    ensures k < RowCount && a < RowLength && Row(k)[a] == c
  {
    if c in Keys {
      var i :| 0 <= i < |Keys| && Keys[i] == c;
      RowShape(i);
      k, a := i, 0;
    } else {
      AnyRowFindsRow(c, 0);
      var j: nat := FindRow(c);
      var b :| 0 <= b < |Row(j)| && Row(j)[b] == c;
      k, a := j, b;
    }
  }

  lemma FindRowOfEntry(k: nat, a: nat)
    requires k < RowCount && a < RowLength
    ensures FindRow(Row(k)[a]) == k
  {
    var c := Row(k)[a];
    var r := FindRowFrom(c, 0);
    RowInAnyRow(c, 0, k);
    AnyRowFindsRow(c, 0);
    var b :| 0 <= b < |Row(r)| && Row(r)[b] == c;
    EntryUnique(k, a, r, b);
  }

  lemma IndexOfEntry(k: nat, a: nat)
    requires k < RowCount && a < RowLength
    ensures IndexFrom(Row(k), Row(k)[a], 0) == a
  {
    var r := IndexFrom(Row(k), Row(k)[a], 0);
    assert Row(k)[a] in Row(k)[0..];
    EntryUnique(k, a, k, r);
  }

  /** An entry of row k occurs in no other row. */
  lemma NotInOtherRow(k: nat, a: nat, j: nat)
    requires k < RowCount && a < RowLength && j < RowCount && j != k
    ensures Row(k)[a] !in Row(j)
  {
    if Row(k)[a] in Row(j) {
      var b :| 0 <= b < |Row(j)| && Row(j)[b] == Row(k)[a];
      EntryUnique(k, a, j, b);
    }
  }

  /** The row searches pass over a row that does not hold the character. */
  lemma ToneSearchSkipsRow(c: char, j: nat)
    requires j < RowCount && c !in Row(j)
    ensures ToneSearch(c, j) == ToneSearch(c, j + 1)
  {
    assert Row(j)[0..] == Row(j);
  }

  /** No row from j up to k (excluded) holds c. */
  predicate NoRowHolds(c: char, j: nat, k: nat)
    requires j <= k < RowCount
    decreases k - j
  {
    j == k || (c !in Row(j) && NoRowHolds(c, j + 1, k))
  }

  /** The row searches started at row j reach row k unchanged when no row in between holds c. */
  lemma {:induction false} ToneSearchSkips(c: char, j: nat, k: nat)
    requires j <= k < RowCount && NoRowHolds(c, j, k)
    ensures ToneSearch(c, j) == ToneSearch(c, k)
    decreases k - j
  {
    if j < k {
      ToneSearchSkipsRow(c, j);
      ToneSearchSkips(c, j + 1, k);
    }
  }

  lemma {:induction false} ApplyToneSkips(c: char, t: ToneIndex, j: nat, k: nat)
    requires j <= k < RowCount && NoRowHolds(c, j, k)
    ensures ApplyToneFrom(c, t, j) == ApplyToneFrom(c, t, k)
    decreases k - j
  {
    if j < k {
      ApplyToneSkips(c, t, j + 1, k);
    }
  }

  lemma {:induction false} UntonedSkips(c: char, j: nat, k: nat)
    requires j <= k < RowCount && NoRowHolds(c, j, k)
    ensures UntonedFrom(c, j) == UntonedFrom(c, k)
    decreases k - j
  {
    if j < k {
      UntonedSkips(c, j + 1, k);
    }
  }

  /** The rows before an entry's own row do not hold it. */
  lemma {:induction false} NoEarlierRowHolds(k: nat, a: nat, j: nat)
    requires k < RowCount && a < RowLength && j <= k
    ensures NoRowHolds(Row(k)[a], j, k)
    decreases k - j
  {
    if j < k {
      NotInOtherRow(k, a, j);
      NoEarlierRowHolds(k, a, j + 1);
    }
  }

  /** The searches from row j reach an entry's own row unchanged. */
  lemma SearchesReachRow(k: nat, a: nat, t: ToneIndex, j: nat)
    requires k < RowCount && a < RowLength && j <= k
    ensures ToneSearch(Row(k)[a], j) == ToneSearch(Row(k)[a], k)
    ensures ApplyToneFrom(Row(k)[a], t, j) == ApplyToneFrom(Row(k)[a], t, k)
    ensures UntonedFrom(Row(k)[a], j) == UntonedFrom(Row(k)[a], k)
  {
    NoEarlierRowHolds(k, a, j);
    ToneSearchSkips(Row(k)[a], j, k);
    ApplyToneSkips(Row(k)[a], t, j, k);
    UntonedSkips(Row(k)[a], j, k);
  }

  lemma ToneSearchOfEntry(k: nat, a: nat, j: nat)
    requires k < RowCount && a < RowLength && j <= k
    ensures ToneSearch(Row(k)[a], j) == ToneOfValue(a)
  {
    SearchesReachRow(k, a, None, j);
    IndexOfEntry(k, a);
  }

  lemma ApplyToneFromEntry(k: nat, a: nat, t: ToneIndex, j: nat)
    requires k < RowCount && a < RowLength && j <= k
    ensures ApplyToneFrom(Row(k)[a], t, j) == Row(k)[ToneValue(t)]
  {
    SearchesReachRow(k, a, t, j);
  }

  lemma UntonedFromEntry(k: nat, a: nat, j: nat)
    requires k < RowCount && a < RowLength && j <= k
    ensures UntonedFrom(Row(k)[a], j) == Row(k)[0]
  {
    SearchesReachRow(k, a, None, j);
  }

  /** The lookups on a table entry Row(k)[a] return its row, its column and its key. */
  lemma LookupsOfEntry(k: nat, a: nat)
    requires k < RowCount && a < RowLength
    ensures GetToneIndex(Row(k)[a]) == ToneOfValue(a)
    ensures GetVowelWithoutTone(Row(k)[a]) == Keys[k]
    ensures forall t :: ApplyTone(Row(k)[a], t) == Row(k)[ToneValue(t)]
  {
    FindRowOfEntry(k, a);
    ToneSearchOfEntry(k, a, 0);
    UntonedFromEntry(k, a, 0);
    RowShape(k);
    forall t ensures ApplyTone(Row(k)[a], t) == Row(k)[ToneValue(t)] {
      ApplyToneFromEntry(k, a, t, 0);
    }
  }

  /** The keys are exactly the untoned entries, so they carry no tone. */
  lemma KeyUntoned(c: char)
    requires c in Keys
    ensures GetToneIndex(c) == None && GetVowelWithoutTone(c) == c
  {
    var i :| 0 <= i < |Keys| && Keys[i] == c;
    RowShape(i);
    LookupsOfEntry(i, 0);
  }

  lemma TonedNotKey(k: nat, a: nat)
    requires k < RowCount && 0 < a < RowLength
    ensures Row(k)[a] !in Keys
  {
    if Row(k)[a] in Keys {
      var i :| 0 <= i < |Keys| && Keys[i] == Row(k)[a];
      RowShape(i);
      EntryUnique(k, a, i, 0);
    }
  }

  // ---------------------------------------------------------------------------
  // Properties of the lookups.

  /** `(ToneIndex)(int)t == t`. */
  lemma ToneValueRoundTrip(t: ToneIndex)
    ensures ToneOfValue(ToneValue(t)) == t
  {
  }

  /** ApplyTone replaces a table vowel by the entry of its row at the tone's column. */
  lemma ApplyToneEntry(k: nat, a: nat, t: ToneIndex)
    requires k < RowCount && a < RowLength
    ensures ApplyTone(Row(k)[a], t) == Row(k)[ToneValue(t)]
    ensures GetToneIndex(ApplyTone(Row(k)[a], t)) == t
  {
    LookupsOfEntry(k, a);
    LookupsOfEntry(k, ToneValue(t));
  }

  /**
   * Taking the tone off a table vowel gives the key of its row, whatever tone was applied
   * first; the key keeps the breve, circumflex or horn of the vowel, so its base vowel is
   * unchanged, and it is what applying tone None gives.
   */
  lemma StripTone(k: nat, a: nat, t: ToneIndex)
    requires k < RowCount && a < RowLength
    ensures GetVowelWithoutTone(ApplyTone(Row(k)[a], t)) == GetVowelWithoutTone(Row(k)[a])
    ensures GetVowelWithoutTone(Row(k)[a]) == Keys[k] == Row(k)[0] == ApplyTone(Row(k)[a], None)
    ensures GetToneIndex(GetVowelWithoutTone(Row(k)[a])) == None
    ensures GetBaseVowel(GetVowelWithoutTone(Row(k)[a])) == GetBaseVowel(Row(k)[a])
  {
    LookupsOfEntry(k, a);
    LookupsOfEntry(k, ToneValue(t));
    LookupsOfEntry(k, 0);
    RowShape(k);
    FindRowOfEntry(k, a);
    FindRowOfEntry(k, 0);
  }

  /** A character that is not a vowel has no tone, is its own base and is left alone by ApplyTone. */
  lemma NonVowel(c: char)
    requires !IsVietnameseVowel(c)
    ensures FindRow(c) == -1
    ensures GetToneIndex(c) == None && GetBaseVowel(c) == c && GetVowelWithoutTone(c) == c
    ensures forall t :: ApplyTone(c, t) == c
  {
    AnyRowFindsRow(c, 0);
  }

  /** The last tone applied wins; in particular ApplyTone is idempotent for a fixed tone. */
  lemma ApplyToneTwice(c: char, t1: ToneIndex, t2: ToneIndex)
    ensures ApplyTone(ApplyTone(c, t1), t2) == ApplyTone(c, t2)
    ensures ApplyTone(ApplyTone(c, t1), t1) == ApplyTone(c, t1)
  {
    if IsVietnameseVowel(c) {
      var k, a := EntryOf(c);
      LookupsOfEntry(k, a);
      LookupsOfEntry(k, ToneValue(t1));
    } else {
      NonVowel(c);
    }
  }

  /** A tone put on a key is the tone read back, and taking it off gives the key again. */
  lemma ToneOnKey(c: char, t: ToneIndex)
    requires c in Keys
    ensures GetToneIndex(ApplyTone(c, t)) == t && GetVowelWithoutTone(ApplyTone(c, t)) == c
    ensures IsVietnameseVowel(ApplyTone(c, t))
  {
    var i :| 0 <= i < |Keys| && Keys[i] == c;
    RowShape(i);
    ApplyToneEntry(i, 0, t);
    StripTone(i, 0, t);
    RowInAnyRow(Row(i)[ToneValue(t)], 0, i);
  }

  /** A character whose lower case is a plain or modified vowel letter is a key of the table. */
  lemma LowerVowelIsKey(c: char)
    requires var lower := ToLower(c);
      || IsModifiable(lower) || lower == 'i' || lower == 'y'
    ensures c in Keys
  {
  }

  /** A character the decoder does not place is not in the table. */
  lemma NotInTable(c: char)
    requires Locate(c) == NotFound
    ensures !IsVietnameseVowel(c)
  {
    if IsVietnameseVowel(c) {
      var k, a := EntryOf(c);
      LocateEntry(k, a);
    }
  }

  /** The plain letter of each row, as an independent column. */
  const BaseLetters: string := "aAaAaAeEeEiIoOoOoOuUuUyY"

  lemma BaseOfKey(k: nat)
    requires k < RowCount
    ensures |BaseLetters| == RowCount
    ensures (if Keys[k] in BaseVowelTransform then BaseVowelTransform[Keys[k]] else Keys[k]) == BaseLetters[k]
  {
  }

  lemma BaseLetterCase(k: nat)
    requires k < RowCount
    ensures |BaseLetters| == RowCount
    ensures BaseLetters[k] in "aeiouyAEIOUY"
    ensures IsUpper(BaseLetters[k]) <==> k % 2 == 1
  {
    if k % 2 == 1 {
      assert BaseLetters[k] in "AEIOUY";
    } else {
      assert BaseLetters[k] in "aeiouy";
    }
  }

  lemma PlainVowelIsKey(c: char)
    requires c in "aeiouyAEIOUY"
    ensures c in Keys
  {
  }

  /** GetBaseVowel sends every entry of a row to the plain letter of the row, in the row's case. */
  lemma BaseVowelOfEntry(k: nat, a: nat)
    requires k < RowCount && a < RowLength
    ensures GetBaseVowel(Row(k)[a]) == BaseLetters[k]
    ensures IsUpper(GetBaseVowel(Row(k)[a])) <==> k % 2 == 1
  {
    FindRowOfEntry(k, a);
    BaseOfKey(k);
    BaseLetterCase(k);
  }

  /** IsVietnameseVowel holds exactly of the characters found in a row, which are those with a vowel as base. */
  lemma VowelIff(c: char)
    ensures IsVietnameseVowel(c) <==> FindRow(c) >= 0
    ensures IsVietnameseVowel(c) <==> GetBaseVowel(c) in "aeiouyAEIOUY"
  {
    if IsVietnameseVowel(c) {
      var k, a := EntryOf(c);
      FindRowOfEntry(k, a);
      BaseVowelOfEntry(k, a);
      BaseLetterCase(k);
    } else {
      NonVowel(c);
      if c in "aeiouyAEIOUY" {
        PlainVowelIsKey(c);
      }
    }
  }

  lemma LowerRows0(k: nat, a: nat)
    requires k < 12 && k % 2 == 0 && a < RowLength
    ensures ToLower(Row(k + 1)[a]) == Row(k)[a]
  {
  }

  lemma LowerRows12(k: nat, a: nat)
    requires 12 <= k < 24 && k % 2 == 0 && a < RowLength
    ensures ToLower(Row(k + 1)[a]) == Row(k)[a]
  {
  }

  /** The odd rows are the upper-case forms of the even rows. */
  lemma CaseOfRows(k: nat, a: nat)
    requires k < RowCount && k % 2 == 0 && a < RowLength
    ensures ToLower(Row(k + 1)[a]) == Row(k)[a] && ToUpper(Row(k)[a]) == Row(k + 1)[a]
    ensures IsUpper(Row(k + 1)[a]) && !IsUpper(Row(k)[a])
  {
    if k < 12 { LowerRows0(k, a); } else { LowerRows12(k, a); }
    EntryUnique(k, a, k + 1, a);
    CaseFolding(Row(k + 1)[a]);
  }

  // ---------------------------------------------------------------------------
  // TransformVowel.

  lemma ModifiableIsKey(v: char)
    requires IsModifiable(ToLower(v))
    ensures v in Keys
  {
  }

  lemma ModifiableKeys(c: char)
    requires IsModifiable(c)
    ensures c in Keys
  {
  }

  lemma KeyTone(c: char)
    ensures c in Keys ==> GetToneIndex(c) == None
  {
    if c in Keys {
      KeyUntoned(c);
    }
  }

  /** The switch of TransformVowel finds no rule for this vowel and modifier. */
  predicate NoRule(lowerVowel: char, lowerMod: char) {
    !(lowerMod == 'w' && (IsAFamily(lowerVowel) || IsOFamily(lowerVowel) || IsUFamily(lowerVowel)))
    && !(lowerMod == 'a' && IsAFamily(lowerVowel))
    && !(lowerMod == 'e' && IsEFamily(lowerVowel))
    && !(lowerMod == 'o' && IsOFamily(lowerVowel))
  }

  lemma TransformNoRule(v: char, m: char)
    requires NoRule(ToLower(v), ToLower(m))
    ensures TransformVowel(v, m) == v
  {
    CaseFolding(v);
    KeyTone(v);
  }

  /**
   * Modifier w puts a breve on a, ă, â and a horn on o, ô, ơ and u, ư, keeping upper case;
   * any other character comes back unchanged.
   */
  lemma TransformBreveHorn(v: char, m: char)
    requires ToLower(m) == 'w'
    ensures IsAFamily(ToLower(v)) ==> TransformVowel(v, m) == (if IsUpper(v) then 'Ă' else 'ă')
    ensures IsOFamily(ToLower(v)) ==> TransformVowel(v, m) == (if IsUpper(v) then 'Ơ' else 'ơ')
    ensures IsUFamily(ToLower(v)) ==> TransformVowel(v, m) == (if IsUpper(v) then 'Ư' else 'ư')
    ensures !IsAFamily(ToLower(v)) && !IsOFamily(ToLower(v)) && !IsUFamily(ToLower(v)) ==> TransformVowel(v, m) == v
  {
    if NoRule(ToLower(v), ToLower(m)) {
      TransformNoRule(v, m);
    } else {
      ModifiableIsKey(v);
      KeyTone(v);
    }
  }

  /**
   * Modifiers a, e and o put a circumflex on a, ă, â (for a), on e, ê (for e) and on
   * o, ô, ơ (for o), keeping upper case; any other character comes back unchanged.
   */
  lemma TransformCircumflex(v: char, m: char)
    requires ToLower(m) == 'a' || ToLower(m) == 'e' || ToLower(m) == 'o'
    ensures ToLower(m) == 'a' && IsAFamily(ToLower(v)) ==> TransformVowel(v, m) == (if IsUpper(v) then 'Â' else 'â')
    ensures ToLower(m) == 'e' && IsEFamily(ToLower(v)) ==> TransformVowel(v, m) == (if IsUpper(v) then 'Ê' else 'ê')
    ensures ToLower(m) == 'o' && IsOFamily(ToLower(v)) ==> TransformVowel(v, m) == (if IsUpper(v) then 'Ô' else 'ô')
    ensures NoRule(ToLower(v), ToLower(m)) ==> TransformVowel(v, m) == v
  {
    if NoRule(ToLower(v), ToLower(m)) {
      TransformNoRule(v, m);
    } else {
      ModifiableIsKey(v);
      KeyTone(v);
    }
  }

  /** Any other modifier leaves the vowel unchanged. */
  lemma TransformOtherModifier(v: char, m: char)
    requires ToLower(m) != 'w' && ToLower(m) != 'a' && ToLower(m) != 'e' && ToLower(m) != 'o'
    ensures TransformVowel(v, m) == v
  {
    TransformNoRule(v, m);
  }

  lemma TonedLowerNotModifiable(k: nat, a: nat)
    requires k < RowCount && 0 < a < RowLength
    ensures !IsModifiable(ToLower(Row(k)[a]))
  {
    var even := k - k % 2;
    CaseOfRows(even, a);
    var lower := ToLower(Row(k)[a]);
    assert lower == Row(even)[a];
    TonedNotKey(even, a);
    if IsModifiable(lower) {
      ModifiableKeys(lower);
    }
  }

  /** A vowel that carries a tone is never modified. */
  lemma TransformToned(v: char, m: char)
    requires GetToneIndex(v) != None
    ensures TransformVowel(v, m) == v
  {
    if !IsVietnameseVowel(v) {
      NonVowel(v);
    }
    var k, a := EntryOf(v);
    LookupsOfEntry(k, a);
    TonedLowerNotModifiable(k, a);
    TransformNoRule(v, m);
  }

  /** The case of the vowels with a breve, circumflex or horn. */
  lemma MarkedLetterCase()
    ensures ToLower('ă') == 'ă' && ToLower('Ă') == 'ă' && !IsUpper('ă') && IsUpper('Ă') && ToUpper('ă') == 'Ă'
    ensures ToLower('â') == 'â' && ToLower('Â') == 'â' && !IsUpper('â') && IsUpper('Â') && ToUpper('â') == 'Â'
    ensures ToLower('ê') == 'ê' && ToLower('Ê') == 'ê' && !IsUpper('ê') && IsUpper('Ê') && ToUpper('ê') == 'Ê'
    ensures ToLower('ô') == 'ô' && ToLower('Ô') == 'ô' && !IsUpper('ô') && IsUpper('Ô') && ToUpper('ô') == 'Ô'
    ensures ToLower('ơ') == 'ơ' && ToLower('Ơ') == 'ơ' && !IsUpper('ơ') && IsUpper('Ơ') && ToUpper('ơ') == 'Ơ'
    ensures ToLower('ư') == 'ư' && ToLower('Ư') == 'ư' && !IsUpper('ư') && IsUpper('Ư') && ToUpper('ư') == 'Ư'
  {
  }

  /** Applying the same modifier twice is the same as applying it once. */
  lemma TransformIdempotent(v: char, m: char)
    ensures TransformVowel(TransformVowel(v, m), m) == TransformVowel(v, m)
  {
    var r := TransformVowel(v, m);
    if GetToneIndex(v) != None {
      TransformToned(v, m);
    } else if ToLower(m) == 'w' {
      TransformBreveHorn(v, m);
      MarkedLetterCase();
      TransformBreveHorn(r, m);
    } else if ToLower(m) == 'a' || ToLower(m) == 'e' || ToLower(m) == 'o' {
      TransformCircumflex(v, m);
      MarkedLetterCase();
      TransformCircumflex(r, m);
    } else {
      TransformOtherModifier(v, m);
    }
  }
}
