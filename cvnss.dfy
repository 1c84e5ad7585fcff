/**
 * The CVNSS4.0 word converter (VietIME.Core.Cvnss.CvnssConverter): a word typed in
 * CVNSS spelling (CVN) is lowercased, split into a leading consonant and a vowel part,
 * both are mapped to standard Vietnamese spelling (CQN) through the converter's tables,
 * adjusted by a few orthographic rules, and the case of the input is carried over.
 * A text is cut into words and delimiters first.
 *
 * The tables are the fields of the datatype Converter; the JSON and resource loaders
 * that fill them are not modelled. Where the source throws (an index out of range),
 * the model returns None.
 */
module Cvnss {
  import opened Wrappers
  import opened Unicode
  import opened StableSort
  import opened Tokenizer

  // ---------------------------------------------------------------------------
  // First-match searches (the read-only foreach loops with an early return)

  /** The first index at or above i whose element satisfies p, or -1. */
  function FirstFrom<T>(xs: seq<T>, p: T -> bool, i: nat): (k: int)
    requires i <= |xs|
    ensures k == -1 || i <= k < |xs|
    ensures k >= 0 ==> p(xs[k])
    ensures forall j | i <= j < |xs| && (k < 0 || j < k) :: !p(xs[j])
    decreases |xs| - i
  {
    if i == |xs| then -1
    else if p(xs[i]) then i
    else FirstFrom(xs, p, i + 1)
  }

  /** The first index whose element satisfies p, or -1 when there is none. */
  function First<T>(xs: seq<T>, p: T -> bool): (k: int)
    ensures -1 <= k < |xs|
    ensures k >= 0 ==> p(xs[k])
    ensures forall j | 0 <= j < |xs| && (k < 0 || j < k) :: !p(xs[j])
  {
    FirstFrom(xs, p, 0)
  }

  function EqualTo<T(==)>(x: T): T -> bool {
    y => y == x
  }

  function Holds(ch: char): string -> bool {
    g => ch in g
  }

  function PrefixOf(s: string): string -> bool {
    p => p <= s
  }

  /** string.IndexOf(char). */
  function IndexOf(s: string, ch: char): (k: int)
    ensures -1 <= k < |s|
    ensures k >= 0 ==> s[k] == ch && forall j | 0 <= j < k :: s[j] != ch
    ensures k < 0 ==> ch !in s
  {
    First(s, EqualTo(ch))
  }

  /** The first character of the vowel, '\0' for an empty one (line 247). */
  function FirstChar(van: string): char {
    if |van| > 0 then van[0] else '\0'
  }

  // ---------------------------------------------------------------------------
  // Capitalisation

  /** The loop of IsAllUpper from index i on, hasLetter telling whether a letter was seen before i. */
  function AllUpperFrom(s: string, i: nat, hasLetter: bool): (r: bool)
    requires i <= |s|
    ensures r <==> (hasLetter || exists j | i <= j < |s| :: IsLetter(s[j]))
                   && forall j | i <= j < |s| :: IsLetter(s[j]) ==> IsUpper(s[j])
    decreases |s| - i
  {
    if i == |s| then hasLetter
    else if IsLetter(s[i]) then
      if !IsUpper(s[i]) then false else AllUpperFrom(s, i + 1, true)
    else AllUpperFrom(s, i + 1, hasLetter)
  }

  /** IsAllUpper: s has a letter and every letter of s is upper case. */
  function IsAllUpper(s: string): (r: bool)
    ensures r <==> (exists j | 0 <= j < |s| :: IsLetter(s[j]))
                   && forall j | 0 <= j < |s| :: IsLetter(s[j]) ==> IsUpper(s[j])
  {
    AllUpperFrom(s, 0, false)
  }

  /** Lines 212-219: the case of the word carried over to the converted text out. */
  function Recase(word: string, out: string): string
    requires |word| > 0
  {
    if IsAllUpper(word) then UpperString(out)
    else if IsLetter(word[0]) && IsUpper(word[0]) && |out| > 0 then [ToUpper(out[0])] + out[1..]
    else out
  }

  /**
   * Recasing changes case only: an all-upper word gives an output with no lower-case
   * letter, an otherwise capitalised word upper-cases the first character only, and any
   * other word leaves the output as it is.
   */
  lemma RecaseSpec(word: string, out: string)
    requires |word| > 0
    ensures var r := Recase(word, out);
      |r| == |out| && LowerString(r) == LowerString(out)
    ensures IsAllUpper(word) ==> forall i | 0 <= i < |out| :: !IsLower(Recase(word, out)[i])
    ensures !IsAllUpper(word) && IsUpper(word[0]) && |out| > 0 ==>
      var r := Recase(word, out);
      !IsLower(r[0]) && r[1..] == out[1..]
    ensures !IsAllUpper(word) && !IsUpper(word[0]) ==> Recase(word, out) == out
  {
    var r := Recase(word, out);
    forall i | 0 <= i < |out|
      ensures ToLower(r[i]) == ToLower(out[i])
      ensures IsAllUpper(word) ==> !IsLower(r[i])
    {
      CaseFolding(out[i]);
      CaseFolding(ToUpper(out[i]));
    }
  }

  // ---------------------------------------------------------------------------
  // The converter

  datatype Converter = Converter(
    specialTokens: set<string>,
    consonantsCvn: seq<string>,
    consonantsCqn: seq<string>,
    vowelCvnToCqn: map<string, string>,
    baseVowels: seq<string>,
    iSet: string,
    ySet: string,
    nguyenAmSet: string)
  {
    /** GetBaseVowel: the head of the first group of baseVowels holding ch, or ch when none does. */
    function GetBaseVowel(ch: char): (b: char)
      ensures (forall g | g in baseVowels :: ch !in g) ==> b == ch
      ensures forall k | 0 <= k < |baseVowels| && ch in baseVowels[k] && (forall j | 0 <= j < k :: ch !in baseVowels[j]) ::
        b == baseVowels[k][0]
    {
      var k := First(baseVowels, Holds(ch));
      if k < 0 then ch else baseVowels[k][0]
    }

    /**
     * MapConsonantCvnToCqn: the CQN partner at the first index where the CVN list holds
     * the consonant, the consonant itself when the list does not hold it, and None when
     * the CQN list has no entry at that index (an index out of range in the source).
     */
    function MapConsonant(cvnConsonant: string): (r: Option<string>)
      ensures (forall i | 0 <= i < |consonantsCvn| :: consonantsCvn[i] != cvnConsonant) ==> r == Some(cvnConsonant)
      ensures forall i | 0 <= i < |consonantsCvn| && consonantsCvn[i] == cvnConsonant && (forall j | 0 <= j < i :: consonantsCvn[j] != cvnConsonant) ::
        r == (if i < |consonantsCqn| then Some(consonantsCqn[i]) else None)
    {
      var k := First(consonantsCvn, EqualTo(cvnConsonant));
      if k < 0 then Some(cvnConsonant)
      else if k < |consonantsCqn| then Some(consonantsCqn[k])
      else None
    }

    /** The index of the consonant the word starts with: the first entry of the CVN list that is a prefix of lower, or -1. */
    function ConsonantIndex(lower: string): (k: int)
      ensures -1 <= k < |consonantsCvn|
      ensures k >= 0 ==> consonantsCvn[k] <= lower
      ensures forall j | 0 <= j < |consonantsCvn| && (k < 0 || j < k) :: !(consonantsCvn[j] <= lower)
    {
      First(consonantsCvn, PrefixOf(lower))
    }

    /** The vowel table lookup with its fallback (lines 194-197). */
    function LookupVowel(vowelPart: string): string {
      if vowelPart in vowelCvnToCqn then vowelCvnToCqn[vowelPart] else vowelPart
    }

    /**
     * Lines 176-204 on the lowercased word: the CQN consonant and the CQN vowel before
     * the adjustment; None where MapConsonantCvnToCqn throws.
     */
    function SplitWord(lower: string): Option<(string, string)>
    {
      var k := ConsonantIndex(lower);
      if k < 0 then Some(("", LookupVowel(lower)))
      else
        var consonant := consonantsCvn[k];
        var vowelPart := lower[|consonant|..];
        match MapConsonant(consonant)
        case None => None
        case Some(pad) =>
          if consonant == "j" && vowelPart == "ịa" then Some(("gi", "ỵa"))
          else Some((pad, LookupVowel(vowelPart)))
    }

    /**
     * AdjustConsonantVowel: "qu" before a u-vowel becomes "q"; no consonant before an
     * i-vowel swaps in the y-set character at the i-set index; "gi" before an i-vowel
     * becomes "g"; "ngh", "gh" and "k" before a vowel outside nguyenAmSet become "ng",
     * "g" and "c". The vowel keeps its length. None where Substring(1) of an empty vowel throws.
     */
    function Adjust(pad: string, van: string): (r: Option<(string, string)>)
      ensures var b := GetBaseVowel(FirstChar(van));
        var idx := IndexOf(iSet, FirstChar(van));
        && (r.None? <==> pad == "" && b == 'i' && 0 <= idx < |ySet| && |van| == 0)
        && (r.Some? ==> |r.value.1| == |van|)
        && (pad == "qu" && b == 'u' ==> r == Some(("q", van)))
        && (pad == "qu" && b != 'u' ==> r == Some((pad, van)))
        && (pad == "gi" && b == 'i' ==> r == Some(("g", van)))
        && (pad == "gi" && b != 'i' ==> r == Some((pad, van)))
        && (pad == "" && !(b == 'i' && 0 <= idx < |ySet|) ==> r == Some((pad, van)))
        && (pad == "" && b == 'i' && 0 <= idx < |ySet| && |van| > 0 ==> r == Some(("", [ySet[idx]] + van[1..])))
        && (IndexOf(nguyenAmSet, b) < 0 ==>
             && (pad == "ngh" ==> r == Some(("ng", van)))
             && (pad == "gh" ==> r == Some(("g", van)))
             && (pad == "k" ==> r == Some(("c", van))))
        && (pad !in {"qu", "gi", "", "ngh", "gh", "k"} ==> r == Some((pad, van)))
        && (IndexOf(nguyenAmSet, b) >= 0 && pad in {"ngh", "gh", "k"} ==> r == Some((pad, van)))
    {
      var firstChar := FirstChar(van);
      var b := GetBaseVowel(firstChar);
      var pad1 := if pad == "qu" && b == 'u' then "q" else pad;
      var idx := IndexOf(iSet, firstChar);
      var swap := pad1 == "" && b == 'i' && 0 <= idx < |ySet|;
      if swap && |van| == 0 then None
      else
        var van1 := if swap then [ySet[idx]] + van[1..] else van;
        var pad2 := if pad1 == "gi" && b == 'i' then "g" else pad1;
        var pad3 :=
          if (pad2 == "ngh" || pad2 == "gh" || pad2 == "k") && IndexOf(nguyenAmSet, b) < 0 then
            (if pad2 == "ngh" then "ng" else if pad2 == "gh" then "g" else "c")
          else pad2;
        Some((pad3, van1))
    }

    /** The conversion of a lowercased word, before its case is carried over (lines 176-209). */
    function ConvertLower(lower: string): Option<string> {
      match SplitWord(lower)
      case None => None
      case Some(sv) =>
        match Adjust(sv.0, sv.1)
        case None => None
        case Some(pv) => Some(pv.0 + pv.1)
    }

    /** ConvertWordCvnToCqn (lines 170-222). */
    function ConvertWord(word: string): (r: Option<string>)
      ensures word == "" ==> r == Some("")
    {
      if |word| == 0 then Some(word)
      else
        match ConvertLower(LowerString(word))
        case None => None
        case Some(out) => Some(Recase(word, out))
    }

    /** A token of a text: special tokens are copied, anything else is converted (lines 237-240). */
    function ConvertToken(t: string): Option<string> {
      if t in specialTokens then Some(t) else ConvertWord(t)
    }

    /**
     * ConvertTextCvnToCqn (lines 227-243): a missing (null) text gives "", any other is
     * normalised, cut into tokens and converted token by token; None as soon as one
     * token's conversion throws. Unicode normalisation is the parameter normalize.
     */
    function ConvertText(input: Option<string>, normalize: string -> string): Option<string> {
      match input
      case None => Some("")
      case Some(s) => ConvertAll(Tokens(normalize(s), IsDelimiter), ConvertToken)
    }

    // -------------------------------------------------------------------------
    // The methods, which keep the source's loops and reassignments

    method AdjustConsonantVowel(cqnPad: string, cqnVan: string) returns (r: Option<(string, string)>)
      ensures r == Adjust(cqnPad, cqnVan)
    {
      var pad, van := cqnPad, cqnVan;
      var firstChar := if |van| > 0 then van[0] else '\0';
      var baseVowel := GetBaseVowel(firstChar);
      if pad == "qu" && baseVowel == 'u' {
        pad := "q";
      }
      if pad == "" && baseVowel == 'i' {
        var idx := IndexOf(iSet, firstChar);
        if 0 <= idx < |ySet| {
          if |van| == 0 {
            return None;
          }
          van := [ySet[idx]] + van[1..];
        }
      }
      if pad == "gi" && baseVowel == 'i' {
        pad := "g";
      }
      if (pad == "ngh" || pad == "gh" || pad == "k") && IndexOf(nguyenAmSet, baseVowel) < 0 {
        pad := if pad == "ngh" then "ng" else if pad == "gh" then "g" else "c";
      }
      return Some((pad, van));
    }

    method ConvertWordCvnToCqn(word: string) returns (r: Option<string>)
      ensures r == ConvertWord(word)
    {
      if |word| == 0 {
        return Some(word);
      }
      var lower := LowerString(word);
      var split := SplitLowerWord(lower);
      if split.None? {
        return None;
      }
      var adjusted := AdjustConsonantVowel(split.value.0, split.value.1);
      if adjusted.None? {
        return None;
      }
      var cqnOutput := adjusted.value.0 + adjusted.value.1;
      assert ConvertLower(lower) == Some(cqnOutput);
      if IsAllUpper(word) {
        return Some(UpperString(cqnOutput));
      }
      if IsLetter(word[0]) && IsUpper(word[0]) {
        if |cqnOutput| > 0 {
          cqnOutput := [ToUpper(cqnOutput[0])] + cqnOutput[1..];
        }
      }
      return Some(cqnOutput);
    }

    /** The first part of ConvertWordCvnToCqn: the consonant search, its mapping and the vowel lookup. */
    method SplitLowerWord(lower: string) returns (r: Option<(string, string)>)
      ensures r == SplitWord(lower)
    {
      var consonant := "";
      var vowelPart := lower;
      var cqnConsonant := "";
      var i := 0;
      while i < |consonantsCvn| && !(consonantsCvn[i] <= lower)
        invariant 0 <= i <= |consonantsCvn|
        invariant forall j | 0 <= j < i :: !(consonantsCvn[j] <= lower)
      {
        i := i + 1;
      }
      assert i < |consonantsCvn| <==> ConsonantIndex(lower) >= 0;
      if i < |consonantsCvn| {
        assert i == ConsonantIndex(lower);
        consonant := consonantsCvn[i];
        var mapped := MapConsonant(consonant);
        if mapped.None? {
          return None;
        }
        cqnConsonant := mapped.value;
        vowelPart := lower[|consonant|..];
      }
      var cqnVowel := LookupVowel(vowelPart);
      if consonant == "j" && vowelPart == "ịa" {
        cqnConsonant := "gi";
        cqnVowel := "ỵa";
      }
      return Some((cqnConsonant, cqnVowel));
    }

    method ConvertTextCvnToCqn(input: Option<string>, normalize: string -> string) returns (r: Option<string>)
      ensures r == ConvertText(input, normalize)
    {
      if input.None? {
        return Some("");
      }
      var s := normalize(input.value);
      var tokens := SplitStringLikeJs(s);
      assert ConvertText(input, normalize) == ConvertAll(tokens, ConvertToken);
      var sb := "";
      var i := 0;
      while i < |tokens|
        invariant 0 <= i <= |tokens|
        invariant ConvertAll(tokens[..i], ConvertToken) == Some(sb)
      {
        var t := tokens[i];
        var piece := t;
        if t !in specialTokens {
          var w := ConvertWordCvnToCqn(t);
          if w.None? {
            TokenFails(tokens, i);
            return None;
          }
          piece := w.value;
        }
        TokenConverts(tokens, i, sb, piece);
        sb := sb + piece;
        i := i + 1;
      }
      assert tokens[..i] == tokens;
      return Some(sb);
    }

    /** A token that does not convert makes the whole text fail. */
    lemma TokenFails(tokens: seq<string>, i: nat)
      requires i < |tokens| && ConvertToken(tokens[i]).None?
      ensures ConvertAll(tokens, ConvertToken) == None
    {
      ConvertAllSpec(tokens, ConvertToken);
    }

    /** A token that converts extends the converted prefix. */
    lemma TokenConverts(tokens: seq<string>, i: nat, sb: string, piece: string)
      requires i < |tokens| && ConvertAll(tokens[..i], ConvertToken) == Some(sb)
      requires ConvertToken(tokens[i]) == Some(piece)
      ensures ConvertAll(tokens[..i + 1], ConvertToken) == Some(sb + piece)
    {
      ConvertAllStep(tokens, i, ConvertToken, sb, piece);
    }

    // -------------------------------------------------------------------------
    // Properties

    /**
     * Only the case of a word reaches the output through Recase: two words with the same
     * lower-case form convert to outputs with the same lower-case form, and one converts
     * exactly when the other does.
     */
    lemma ConvertWordCaseBlind(w: string, v: string)
      requires LowerString(w) == LowerString(v)
      ensures ConvertWord(w).Some? <==> ConvertWord(v).Some?
      ensures ConvertWord(w).Some? ==> LowerString(ConvertWord(w).value) == LowerString(ConvertWord(v).value)
    {
      if |w| > 0 {
        var out := ConvertLower(LowerString(w));
        if out.Some? {
          RecaseSpec(w, out.value);
          RecaseSpec(v, out.value);
        }
      }
    }

    /**
     * The capitalisation of the output: an all-upper word converts to text with no
     * lower-case letter, a capitalised word to text whose first character is not lower
     * case, and a word that starts in lower case to the conversion of its lowercased form.
     */
    lemma ConvertWordCase(w: string)
      requires |w| > 0 && ConvertWord(w).Some?
      ensures var r := ConvertWord(w).value;
        && (IsAllUpper(w) ==> forall i | 0 <= i < |r| :: !IsLower(r[i]))
        && (IsUpper(w[0]) && |r| > 0 ==> !IsLower(r[0]))
        && (!IsUpper(w[0]) && !IsAllUpper(w) ==> ConvertLower(LowerString(w)) == Some(r))
    {
      var out := ConvertLower(LowerString(w)).value;
      RecaseSpec(w, out);
      if IsAllUpper(w) && |out| > 0 {
        assert !IsLower(Recase(w, out)[0]);
      }
    }

    /**
     * With a CQN list at least as long as the CVN list (as AlignConsonants guarantees) and
     * no '\0' in the i-set, converting a word never throws.
     */
    lemma ConvertWordTotal(w: string)
      requires |consonantsCvn| <= |consonantsCqn| && '\0' !in iSet
      ensures ConvertWord(w).Some?
    {
      if |w| > 0 {
        var lower := LowerString(w);
        var k := ConsonantIndex(lower);
        if k >= 0 {
          var consonant := consonantsCvn[k];
          var m := First(consonantsCvn, EqualTo(consonant));
          assert m >= 0 && m <= k;
        }
        var sv := SplitWord(lower).value;
        assert IndexOf(iSet, FirstChar("")) < 0;
      }
    }

    /**
     * When the CVN list is ordered by length, longest first (as LoadFromJson orders it),
     * the first consonant that prefixes the word is a longest one.
     */
    lemma LongestConsonantFirst(lower: string)
      requires forall i, j | 0 <= i < j < |consonantsCvn| :: |consonantsCvn[j]| <= |consonantsCvn[i]|
      ensures var k := ConsonantIndex(lower);
        k >= 0 ==> forall j | 0 <= j < |consonantsCvn| && consonantsCvn[j] <= lower :: |consonantsCvn[j]| <= |consonantsCvn[k]|
    {
    }

    /**
     * Adjusting twice is adjusting once, provided no character of the y-set has 'i' as
     * its base vowel (otherwise a swapped-in y would be swapped again).
     */
    lemma AdjustIdempotent(pad: string, van: string)
      requires forall k | 0 <= k < |ySet| :: GetBaseVowel(ySet[k]) != 'i'
      requires Adjust(pad, van).Some?
      ensures var p := Adjust(pad, van).value;
        Adjust(p.0, p.1) == Some(p)
    {
      var p := Adjust(pad, van).value;
      var b := GetBaseVowel(FirstChar(van));
      var idx := IndexOf(iSet, FirstChar(van));
      if pad == "" && b == 'i' && 0 <= idx < |ySet| {
        assert FirstChar(p.1) == ySet[idx];
      } else {
        assert p.1 == van;
      }
    }

    /**
     * A text that is one word without delimiters, and not a special token, converts as
     * that word; a text of words and delimiters converts token by token, in order.
     */
    lemma ConvertTextOfWord(w: string, normalize: string -> string)
      requires IsWordToken(normalize(w), IsDelimiter) && normalize(w) !in specialTokens
      ensures ConvertText(Some(w), normalize) == ConvertWord(normalize(w))
    {
      var nw := normalize(w);
      SingleWord(nw, IsDelimiter);
      assert [nw][..0] == [];
      if ConvertWord(nw).Some? {
        ConvertAllStep([nw], 0, ConvertToken, "", ConvertWord(nw).value);
        assert "" + ConvertWord(nw).value == ConvertWord(nw).value;
      }
    }
  }

  // ---------------------------------------------------------------------------
  // The tokenizer (SplitStringLikeJs)

  /** IsSplitPunctuation: the punctuation characters the tokenizer cuts at. */
  predicate IsSplitPunctuation(ch: char) {
    || ch == ',' || ch == ';' || ch == '`' || ch == '@' || ch == '<' || ch == '>' || ch == '“' || ch == '”'
    || ch == '.' || ch == '=' || ch == '…' || ch == '?' || ch == '!' || ch == '\\' || ch == '\'' || ch == '"'
    || ch == '(' || ch == ')' || ch == '[' || ch == ']' || ch == '{' || ch == '}' || ch == '%' || ch == '#'
    || ch == '$' || ch == '&' || ch == '-' || ch == '_' || ch == '/' || ch == '*' || ch == ':' || ch == '+'
    || ch == '~' || ch == '^' || ch == '|'
  }

  predicate IsDelimiter(ch: char) {
    IsWhiteSpace(ch) || IsSplitPunctuation(ch)
  }

  /**
   * Every split character is punctuation or a symbol to .NET, so no letter or digit
   * is ever cut at, and a word the CVNSS engine buffers holds no split character.
   */
  lemma SplitPunctuationIsPunctuation(ch: char)
    requires IsSplitPunctuation(ch)
    ensures IsPunctuation(ch) || IsSymbol(ch)
    ensures !IsLetter(ch) && !IsDigit(ch)
  {
    SplitPunctuationClass(ch);
    SplitPunctuationNoLetter(ch);
  }

  lemma SplitPunctuationClass(ch: char)
    requires IsSplitPunctuation(ch)
    ensures IsPunctuation(ch) || IsSymbol(ch)
  {
  }

  lemma SplitPunctuationNoLetter(ch: char)
    requires IsSplitPunctuation(ch)
    ensures !IsLetter(ch) && !IsDigit(ch)
  {
  }

  method SplitStringLikeJs(s: string) returns (tokens: seq<string>)
    ensures tokens == Tokens(s, IsDelimiter)
  {
    tokens := [];
    var current := "";
    var i := 0;
    while i < |s|
      invariant 0 <= i <= |s|
      invariant (tokens, current) == SplitState(s[..i], IsDelimiter)
    {
      var ch := s[i];
      assert s[..i + 1][..i] == s[..i] && s[..i + 1][i] == ch;
      ghost var st := SplitState(s[..i + 1], IsDelimiter);
      if IsDelimiter(ch) {
        assert st == (tokens + (if |current| > 0 then [current] else []) + [[ch]], "");
        if |current| > 0 {
          tokens := tokens + [current];
          current := "";
        } else {
          assert tokens + [] == tokens;
        }
        tokens := tokens + [[ch]];
      } else {
        assert st == (tokens, current + [ch]);
        current := current + [ch];
      }
      i := i + 1;
    }
    assert s[..i] == s;
    if |current| > 0 {
      tokens := tokens + [current];
    }
  }

  // ---------------------------------------------------------------------------
  // Consonant table ordering (AlignConsonants)

  /** One entry of the consonant table with its original position. */
  datatype Consonant = Consonant(cvn: string, cqn: string, index: nat)

  function Length(s: string): int { |s| }
  function CvnLength(p: Consonant): int { |p.cvn| }
  function CvnOf(p: Consonant): string { p.cvn }
  function CqnOf(p: Consonant): string { p.cqn }
  function IndexOfPair(p: Consonant): int { p.index }

  /** cvn.Select((v, i) => (v, cqn[i], i)); the source throws when cqn is shorter. */
  function ConsonantPairs(cvn: seq<string>, cqn: seq<string>): (ps: seq<Consonant>)
    requires |cvn| <= |cqn|
    ensures |ps| == |cvn| && forall i | 0 <= i < |cvn| :: ps[i] == Consonant(cvn[i], cqn[i], i)
  {
    seq(|cvn|, i requires 0 <= i < |cvn| => Consonant(cvn[i], cqn[i], i))
  }

  /** cvn.OrderByDescending(s => s.Length) (line 156). */
  function OrderByLength(cvn: seq<string>): seq<string> {
    SortDesc(cvn, Length)
  }

  /** The consonant pairs ordered by CVN length, longest first, then by original position. */
  function SortedPairs(cvn: seq<string>, cqn: seq<string>): seq<Consonant>
    requires |cvn| <= |cqn|
  {
    SortDesc(ConsonantPairs(cvn, cqn), CvnLength)
  }

  /** AlignConsonants (lines 321-331); None where cqn[i] is out of range. */
  function AlignConsonants(cvn: seq<string>, cqn: seq<string>): Option<seq<string>> {
    if |cqn| < |cvn| then None else Some(Map(CqnOf, SortedPairs(cvn, cqn)))
  }

  /**
   * AlignConsonants sorts the (cvn, cqn) pairs, not the two lists apart: the pairs are
   * a permutation of the input pairs ordered by CVN length, longest first, and then by
   * original position; the CVN list sorted on its own (line 156) is the CVN column of the
   * sorted pairs and the aligned CQN list is their CQN column.
   */
  lemma AlignConsonantsSpec(cvn: seq<string>, cqn: seq<string>)
    requires |cvn| <= |cqn|
    ensures var sorted := SortedPairs(cvn, cqn);
      && multiset(sorted) == multiset(ConsonantPairs(cvn, cqn))
      && StableFor(sorted, CvnLength, IndexOfPair)
      && OrderByLength(cvn) == Map(CvnOf, sorted)
      && AlignConsonants(cvn, cqn) == Some(Map(CqnOf, sorted))
  {
    var ps := ConsonantPairs(cvn, cqn);
    SortStable(ps, CvnLength, IndexOfPair);
    SortNatural(ps, CvnOf, CvnLength, Length);
    assert Map(CvnOf, ps) == cvn;
  }

  /**
   * After AlignConsonants position k of the sorted CVN list and position k of the CQN
   * list hold the two halves of one original pair: the one at the original position
   * SortedPairs(cvn, cqn)[k].index.
   */
  lemma AlignedPartners(cvn: seq<string>, cqn: seq<string>)
    requires |cvn| <= |cqn|
    ensures var o := OrderByLength(cvn);
      var q := AlignConsonants(cvn, cqn).value;
      var sorted := SortedPairs(cvn, cqn);
      && |o| == |cvn| && |q| == |cvn| && |sorted| == |cvn|
      && forall k | 0 <= k < |cvn| ::
           0 <= sorted[k].index < |cvn| && o[k] == cvn[sorted[k].index] && q[k] == cqn[sorted[k].index]
  {
    var ps := ConsonantPairs(cvn, cqn);
    SortNatural(ps, CvnOf, CvnLength, Length);
    assert Map(CvnOf, ps) == cvn;
    SortedPairIndices(cvn, cqn);
  }

  /** Each sorted pair is the input pair at its own recorded index. */
  lemma SortedPairIndices(cvn: seq<string>, cqn: seq<string>)
    requires |cvn| <= |cqn|
    ensures var sorted := SortedPairs(cvn, cqn);
      && |sorted| == |cvn|
      && forall k | 0 <= k < |sorted| ::
           var i := sorted[k].index; 0 <= i < |cvn| && sorted[k] == Consonant(cvn[i], cqn[i], i)
  {
    var sorted := SortedPairs(cvn, cqn);
    var ps := ConsonantPairs(cvn, cqn);
    PermutationMembers(sorted, ps);
    forall k | 0 <= k < |sorted|
      ensures var i := sorted[k].index; 0 <= i < |cvn| && sorted[k] == Consonant(cvn[i], cqn[i], i)
    {
      var j :| 0 <= j < |ps| && ps[j] == sorted[k];
    }
  }

  /** The CVN list LoadFromJson keeps is ordered by length, longest first. */
  lemma OrderedByLength(cvn: seq<string>)
    ensures var o := OrderByLength(cvn);
      forall k, l | 0 <= k < l < |o| :: |o[l]| <= |o[k]|
  {
    var cqn := cvn;
    AlignConsonantsSpec(cvn, cqn);
    var sorted := SortedPairs(cvn, cqn);
    forall k, l | 0 <= k < l < |sorted|
      ensures CvnLength(sorted[l]) <= CvnLength(sorted[k])
    {
      assert Before(sorted[k], sorted[l], CvnLength, IndexOfPair);
    }
  }

  /**
   * The converter LoadFromJson builds from its parsed tables (lines 154-163): the CVN
   * consonants ordered by length and the CQN consonants aligned with them. None where
   * AlignConsonants throws.
   */
  function FromTables(specialTokens: set<string>, cvn: seq<string>, cqn: seq<string>,
                      vowelMap: map<string, string>, baseVowels: seq<string>,
                      iSet: string, ySet: string, nguyenAmSet: string): Option<Converter>
  {
    match AlignConsonants(cvn, cqn)
    case None => None
    case Some(aligned) =>
      Some(Converter(specialTokens, OrderByLength(cvn), aligned, vowelMap, baseVowels, iSet, ySet, nguyenAmSet))
  }

  /**
   * A converter built by LoadFromJson has its CVN consonants ordered longest first, so the
   * consonant split takes a longest prefix, and, without '\0' in its i-set, converting a
   * word never throws.
   */
  lemma FromTablesConverts(specialTokens: set<string>, cvn: seq<string>, cqn: seq<string>,
                           vowelMap: map<string, string>, baseVowels: seq<string>,
                           iSet: string, ySet: string, nguyenAmSet: string, w: string)
    requires |cvn| <= |cqn| && '\0' !in iSet
    ensures var c := FromTables(specialTokens, cvn, cqn, vowelMap, baseVowels, iSet, ySet, nguyenAmSet);
      && c.Some?
      && (forall i, j | 0 <= i < j < |c.value.consonantsCvn| :: |c.value.consonantsCvn[j]| <= |c.value.consonantsCvn[i]|)
      && c.value.ConvertWord(w).Some?
  {
    OrderedByLength(cvn);
    AlignedPartners(cvn, cqn);
    var c := FromTables(specialTokens, cvn, cqn, vowelMap, baseVowels, iSet, ySet, nguyenAmSet).value;
    c.ConvertWordTotal(w);
  }
}
