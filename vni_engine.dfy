/**
 * The VNI input engine (VietIME.Core.Engines.VniEngine): letters are collected in a word
 * buffer; the digits 0-5 put a tone on the vowel chosen by the placement rule and the
 * digits 6-9 add a circumflex, breve, horn or the stroke of đ to the nearest matching
 * letter. A rewrite of buffer position i is reported as "erase Count - i characters,
 * then type buffer[i..]".
 *
 * The VniEngine class is proved against the pure functions of this module (VniStep,
 * ToneRewrite, HatRewrite, TonePosition), which follow the source's own mark and hat
 * tests; the lemmas state what those functions mean. The functions ending in Corrected
 * use the tests the source evidently intends, on the vowel without its tone.
 */
module Vni {
  import opened Wrappers
  import opened Unicode
  import opened Engines
  import opened Scan
  import VC = VietnameseChar

  /** The digit keys that set a tone; 0 removes it. */
  const ToneKeys: map<char, VC.ToneIndex> :=
    map['1' := VC.Acute, '2' := VC.Grave, '3' := VC.Hook, '4' := VC.Tilde, '5' := VC.Dot, '0' := VC.None]

  /** A plain Vietnamese vowel letter in either case, or any character of the vowel table. */
  predicate IsVowel(c: char) {
    var lower := ToLower(c);
    || lower == 'a' || lower == 'ă' || lower == 'â' || lower == 'e' || lower == 'ê' || lower == 'i'
    || lower == 'o' || lower == 'ô' || lower == 'ơ' || lower == 'u' || lower == 'ư' || lower == 'y'
    || VC.IsVietnameseVowel(c)
  }

  /** A rewrite of one buffer position: the character at `pos` becomes `ch`. */
  datatype Rewrite = Rewrite(pos: nat, ch: char)

  /** The buffer after a rewrite, and the edit that brings the screen from the old buffer to it. */
  function Apply(buf: string, rw: Rewrite): (string, Edit)
    requires rw.pos < |buf|
  {
    var b := buf[rw.pos := rw.ch];
    (b, Edit(|b| - rw.pos, b[rw.pos..]))
  }

  /** A rewrite that may be absent (`null`): nothing changes and there is no edit. */
  function ApplyOption(buf: string, rw: Option<Rewrite>): (string, Option<Edit>)
    requires rw.Some? ==> rw.value.pos < |buf|
  {
    match rw
    case None => (buf, None)
    case Some(w) => var (b, e) := Apply(buf, w); (b, Some(e))
  }

  // ---------------------------------------------------------------------------
  // Tone placement.

  /** The indices of the vowels of buf, in increasing order (vowelPositions). */
  function VowelPositions(buf: string): seq<nat> {
    Positions(buf, IsVowel)
  }

  /** The test of the source for a vowel that carries a mark: its lower case is ê, ô, ơ, â, ă or ư. */
  predicate HasMarkAsWritten(c: char) {
    var lower := ToLower(c);
    lower == 'ê' || lower == 'ô' || lower == 'ơ' || lower == 'â' || lower == 'ă' || lower == 'ư'
  }

  /** The same test made on the vowel without its tone, so that ế counts as marked like ê. */
  predicate HasMark(c: char) {
    HasMarkAsWritten(VC.GetVowelWithoutTone(c))
  }

  /** The mark test of the source (asWritten) or the corrected one. */
  function MarkTest(asWritten: bool): char -> bool {
    if asWritten then HasMarkAsWritten else HasMark
  }

  /**
   * FindVowelPositionForTone, over a vowel test and a mark test: the only vowel, else the
   * only vowel of the last group, else for a group of two the first marked vowel of the
   * group, then the first vowel if a non-vowel follows the group and the second if not;
   * for a longer group the second vowel.
   */
  function TonePlacement(buf: string, isVowel: char -> bool, marked: char -> bool): (r: int)
    ensures -1 <= r < |buf|
  {
    var ps := Positions(buf, isVowel);
    if |ps| == 0 then -1
    else if |ps| == 1 then ps[0]
    else
      var g := LastGroup(ps);
      if |g| == 1 then g[0]
      else if |g| == 2 then
        var lastVowelPos := g[1];
        var hasConsonantAfter := lastVowelPos < |buf| - 1 && !isVowel(buf[lastVowelPos + 1]);
        if marked(buf[g[0]]) then g[0]
        else if marked(buf[g[1]]) then g[1]
        else if hasConsonantAfter then g[0]
        else g[1]
      else g[1]
  }

  /** The placement with the engine's vowel test and the source's or the corrected mark test. */
  function TonePositionBy(buf: string, asWritten: bool): (r: int)
    ensures -1 <= r < |buf|
  {
    TonePlacement(buf, IsVowel, MarkTest(asWritten))
  }

  /** The placement as the source writes it: the engine's. */
  function TonePosition(buf: string): int {
    TonePositionBy(buf, true)
  }

  /** The corrected placement: marks are recognised on toned vowels too. */
  function TonePositionCorrected(buf: string): int {
    TonePositionBy(buf, false)
  }

  /**
   * The same rule stated directly on the buffer, by its last run buf[s..e] of vowels: e
   * for a run of one; for a run of two the first marked vowel, else s when a letter
   * follows the run and e when the run ends the word; s + 1 for a longer run. -1 when
   * there is no vowel.
   */
  function ToneTarget(buf: string, isVowel: char -> bool, marked: char -> bool): int {
    var e := LastBelow(buf, |buf|, isVowel);
    if e < 0 then -1
    else
      var s := RunStart(buf, e, isVowel);
      if s == e then e
      else if s + 1 == e then
        (if marked(buf[s]) then s
         else if marked(buf[e]) then e
         else if e < |buf| - 1 then s
         else e)
      else s + 1
  }

  /** The tone rewrite (TryApplyTone): none without a vowel, or when the vowel already has that tone. */
  function ToneRewriteBy(buf: string, tone: VC.ToneIndex, asWritten: bool): (r: Option<Rewrite>)
    ensures r.Some? ==> r.value.pos < |buf|
  {
    var p := TonePositionBy(buf, asWritten);
    if p < 0 then None
    else
      var newVowel := VC.ApplyTone(buf[p], tone);
      if newVowel == buf[p] then None else Some(Rewrite(p, newVowel))
  }

  /** The tone rewrite as the source writes it: the engine's. */
  function ToneRewrite(buf: string, tone: VC.ToneIndex): Option<Rewrite> {
    ToneRewriteBy(buf, tone, true)
  }

  /** The tone rewrite with the corrected placement. */
  function ToneRewriteCorrected(buf: string, tone: VC.ToneIndex): Option<Rewrite> {
    ToneRewriteBy(buf, tone, false)
  }

  // ---------------------------------------------------------------------------
  // Hats (keys 6 to 9).

  /** The letter hat key `key` turns the lower-case letter `lower` into, if any. */
  function HatTarget(key: char, lower: char): Option<char> {
    if key == '6' then
      (if lower == 'a' then Some('â') else if lower == 'e' then Some('ê') else if lower == 'o' then Some('ô') else None)
    else if key == '7' then
      (if lower == 'a' then Some('ă') else if lower == 'u' then Some('ư') else None)
    else if key == '8' then
      (if lower == 'o' then Some('ơ') else None)
    else if key == '9' then
      (if lower == 'd' then Some(VC.LowerD) else None)
    else None
  }

  /**
   * The letter a hat key looks at: the source tests the character itself (asWritten),
   * so a toned vowel such as á is never found; the corrected test looks at the vowel
   * without its tone.
   */
  function HatBase(c: char, asWritten: bool): char {
    if asWritten then c else VC.GetVowelWithoutTone(c)
  }

  predicate Matches(key: char, c: char, asWritten: bool) {
    HatTarget(key, ToLower(HatBase(c, asWritten))).Some?
  }

  /** Hats 6, 7 and 8 stop at the first non-vowel; hat 9 never stops. */
  predicate Stops(key: char, c: char) {
    key != '9' && !IsVowel(c)
  }

  /** The matching test of a hat key, as a test on characters. */
  function HatFound(key: char, asWritten: bool): char -> bool {
    c => Matches(key, c, asWritten)
  }

  /** The stop test of a hat key, as a test on characters. */
  function HatStops(key: char): char -> bool {
    c => Stops(key, c)
  }

  /** A letter a hat applies to never stops the scan. */
  lemma MatchDoesNotStop(key: char, c: char, asWritten: bool)
    requires Matches(key, c, asWritten)
    ensures !Stops(key, c)
  {
    if key != '9' && !asWritten && VC.FindRow(c) >= 0 {
      VC.AnyRowFindsRow(c, 0);
    }
  }

  /**
   * The new character for a matched letter c: đ or Đ for hat 9; otherwise the target in
   * c's case, with c's tone put back on it.
   */
  function HatChar(key: char, c: char, asWritten: bool): char
    requires Matches(key, c, asWritten)
  {
    if key == '9' then (if IsUpper(c) then VC.UpperD else VC.LowerD)
    else
      var target := HatTarget(key, ToLower(HatBase(c, asWritten))).value;
      var cased := if IsUpper(c) then ToUpper(target) else target;
      var tone := VC.GetToneIndex(c);
      if tone != VC.None then VC.ApplyTone(cased, tone) else cased
  }

  predicate IsHatKey(key: char) {
    key == '6' || key == '7' || key == '8' || key == '9'
  }

  /**
   * TryApplyHat: none on an empty buffer or for any other key; otherwise the backward scan
   * of TryApplyHat6..9 for the nearest letter the key applies to.
   */
  function HatRewriteBy(buf: string, key: char, asWritten: bool): (r: Option<Rewrite>)
    ensures r.Some? ==> r.value.pos < |buf|
  {
    if |buf| == 0 || !IsHatKey(key) then None
    else
      var i := ScanBack(buf, |buf|, HatFound(key, asWritten), HatStops(key));
      if i < 0 then None else Some(Rewrite(i, HatChar(key, buf[i], asWritten)))
  }

  /** The hat rewrite as the source writes it: the engine's. */
  function HatRewrite(buf: string, key: char): Option<Rewrite> {
    HatRewriteBy(buf, key, true)
  }

  /** The corrected hat rewrite: a toned vowel takes the hat and keeps its tone. */
  function HatRewriteCorrected(buf: string, key: char): Option<Rewrite> {
    HatRewriteBy(buf, key, false)
  }

  /** One step of the hat scan: the letter at i is found, stops the scan, or is passed over. */
  lemma HatScanStep(buf: string, i: nat, key: char, asWritten: bool)
    requires i < |buf|
    ensures ScanBack(buf, i + 1, HatFound(key, asWritten), HatStops(key)) ==
      if Matches(key, buf[i], asWritten) then i
      else if Stops(key, buf[i]) then -1
      else ScanBack(buf, i, HatFound(key, asWritten), HatStops(key))
  {
  }

  /** HatScanStep for the source's test, stated on the letter's lower-case form. */
  lemma HatScanStepAsWritten(buf: string, i: nat, key: char)
    requires i < |buf|
    ensures var s := ScanBack(buf, i + 1, HatFound(key, true), HatStops(key));
      if HatTarget(key, ToLower(buf[i])).Some? then s == i
      else if Stops(key, buf[i]) then s == -1
      else s == ScanBack(buf, i, HatFound(key, true), HatStops(key))
  {
    HatScanStep(buf, i, key, true);
  }

  lemma HatFoundAt(buf: string, key: char, i: nat)
    requires IsHatKey(key) && i < |buf|
    requires ScanBack(buf, |buf|, HatFound(key, true), HatStops(key)) == i
    ensures HatRewrite(buf, key) == Some(Rewrite(i, HatChar(key, buf[i], true)))
  {
  }

  lemma HatNotFound(buf: string, key: char)
    requires ScanBack(buf, |buf|, HatFound(key, true), HatStops(key)) == -1
    ensures HatRewrite(buf, key) == None
  {
  }

  // ---------------------------------------------------------------------------
  // One key press.

  /**
   * The buffer after a key and the ProcessKeyResult for it (ProcessKey), with the
   * source's mark and hat tests (asWritten) or the corrected ones.
   */
  function VniStepBy(buf: string, key: char, asWritten: bool): (string, KeyResult) {
    if IsDigit(key) then
      var toneRw := if key in ToneKeys then ToneRewriteBy(buf, ToneKeys[key], asWritten) else None;
      if toneRw.Some? then
        var (b, e) := Apply(buf, toneRw.value);
        (b, HandledResult(e, b))
      else
        var hatRw := HatRewriteBy(buf, key, asWritten);
        if hatRw.Some? then
          var (b, e) := Apply(buf, hatRw.value);
          (b, HandledResult(e, b))
        else ([], NewResult())
    else if !IsLetter(key) then ([], NewResult())
    else (buf + [key], NewResult().(currentBuffer := buf + [key]))
  }

  /** The step of the engine, as the source writes it. */
  function VniStep(buf: string, key: char): (string, KeyResult) {
    VniStepBy(buf, key, true)
  }

  /** The step with the corrected mark and hat tests. */
  function VniStepCorrected(buf: string, key: char): (string, KeyResult) {
    VniStepBy(buf, key, false)
  }

  /** ProcessBackspace: the last character goes, and the key always passes through. */
  function VniBackspace(buf: string): (string, bool) {
    if |buf| > 0 then (buf[..|buf| - 1], false) else (buf, false)
  }

  // ---------------------------------------------------------------------------
  // What the rules mean.

  /** The vowel test of the engine accepts exactly the characters of the vowel table. */
  lemma IsVowelIff(c: char)
    ensures IsVowel(c) <==> VC.IsVietnameseVowel(c)
  {
    var lower := ToLower(c);
    if VC.IsModifiable(lower) || lower == 'i' || lower == 'y' {
      VC.LowerVowelIsKey(c);
    }
  }

  /** The placement agrees with the rule stated on the last run of vowels. */
  lemma TonePlacementIsToneTarget(buf: string, isVowel: char -> bool, marked: char -> bool)
    ensures TonePlacement(buf, isVowel, marked) == ToneTarget(buf, isVowel, marked)
  {
    LastGroupIsLastRun(buf, isVowel);
    var ps := Positions(buf, isVowel);
    if |ps| > 0 {
      var e := LastBelow(buf, |buf|, isVowel);
      var g := LastGroup(ps);
      if |ps| == 1 {
        assert |g| == 1 && g[0] == ps[0];
      }
      if e < |buf| - 1 {
        assert !isVowel(buf[e + 1]);
      }
    }
  }

  /**
   * The tone goes on a vowel of the last run of vowels buf[s..e]: on its only vowel, on
   * its first or second vowel for a run of two, on its second for a longer run; there is
   * no position exactly when the word has no vowel.
   */
  lemma TonePlacementSpec(buf: string, isVowel: char -> bool, marked: char -> bool)
    ensures var p := TonePlacement(buf, isVowel, marked);
      && (p < 0 <==> forall x | 0 <= x < |buf| :: !isVowel(buf[x]))
      && (p >= 0 ==>
            var e := LastBelow(buf, |buf|, isVowel);
            var s := RunStart(buf, e, isVowel);
            && isVowel(buf[p]) && s <= p <= e && p <= s + 1
            && (s == e ==> p == e)
            && (s + 1 < e ==> p == s + 1))
  {
    TonePlacementIsToneTarget(buf, isVowel, marked);
  }

  /** The placement of the engine is on a vowel of the table. */
  lemma TonePositionIsVowel(buf: string, asWritten: bool)
    ensures var p := TonePositionBy(buf, asWritten);
      p >= 0 ==> IsVowel(buf[p]) && VC.IsVietnameseVowel(buf[p])
  {
    TonePlacementSpec(buf, IsVowel, MarkTest(asWritten));
    var p := TonePositionBy(buf, asWritten);
    if p >= 0 {
      IsVowelIff(buf[p]);
    }
  }

  /**
   * A tone key rewrites the placed vowel to the same vowel with the new tone; it does
   * nothing exactly when there is no vowel or the vowel already has that tone.
   */
  lemma ToneRewriteSpec(buf: string, tone: VC.ToneIndex, asWritten: bool)
    ensures var p := TonePositionBy(buf, asWritten);
      var r := ToneRewriteBy(buf, tone, asWritten);
      && (r.None? <==> p < 0 || VC.GetToneIndex(buf[p]) == tone)
      && (r.Some? ==>
            && r.value.pos == p
            && VC.GetToneIndex(r.value.ch) == tone
            && VC.GetVowelWithoutTone(r.value.ch) == VC.GetVowelWithoutTone(buf[p])
            && VC.IsVietnameseVowel(r.value.ch))
  {
    var p := TonePositionBy(buf, asWritten);
    TonePositionIsVowel(buf, asWritten);
    if p >= 0 {
      var k, a := VC.EntryOf(buf[p]);
      VC.ApplyToneEntry(k, a, tone);
      VC.LookupsOfEntry(k, a);
      VC.StripTone(k, a, tone);
      VC.EntryUnique(k, a, k, VC.ToneValue(tone));
      VC.ToneValueRoundTrip(tone);
      VC.RowInAnyRow(VC.Row(k)[VC.ToneValue(tone)], 0, k);
    }
  }

  /**
   * Applying a rewrite changes the one position, and its edit brings a screen showing the
   * old buffer to the new one: it erases exactly the characters it types again.
   */
  lemma RewriteEdit(buf: string, rw: Rewrite)
    requires rw.pos < |buf|
    ensures var (b, e) := Apply(buf, rw);
      && |b| == |buf| && b[rw.pos] == rw.ch
      && (forall i | 0 <= i < |buf| && i != rw.pos :: b[i] == buf[i])
      && 0 <= e.backspaceCount <= |buf| && e.backspaceCount == |e.output|
      && Replay(buf, e) == b
  {
    var (b, e) := Apply(buf, rw);
    assert b == b[..rw.pos] + b[rw.pos..];
  }

  /**
   * A hat key rewrites the nearest letter it applies to, with nothing between that letter
   * and the end of the word stopping the scan; it finds nothing exactly when no letter
   * after the last stop does.
   */
  lemma HatRewriteSpec(buf: string, key: char, asWritten: bool)
    ensures var r := HatRewriteBy(buf, key, asWritten);
      && (!IsHatKey(key) || |buf| == 0 ==> r.None?)
      && (IsHatKey(key) ==>
            (r.None? <==> forall j | LastBelow(buf, |buf|, HatStops(key)) < j < |buf| :: !Matches(key, buf[j], asWritten)))
      && (r.Some? ==>
            && Matches(key, buf[r.value.pos], asWritten)
            && r.value.ch == HatChar(key, buf[r.value.pos], asWritten)
            && forall j | r.value.pos < j < |buf| :: !Matches(key, buf[j], asWritten) && !Stops(key, buf[j]))
  {
    if IsHatKey(key) {
      FoundNeverStops(key, asWritten);
      var i := ScanBack(buf, |buf|, HatFound(key, asWritten), HatStops(key));
      ScanBackNone(buf, |buf|, HatFound(key, asWritten), HatStops(key));
      ScanBackNearest(buf, |buf|, HatFound(key, asWritten), HatStops(key));
      if |buf| > 0 && i >= 0 {
        assert HatRewriteBy(buf, key, asWritten) == Some(Rewrite(i, HatChar(key, buf[i], asWritten)));
      }
    }
  }

  /** No letter a hat key applies to stops its scan. */
  lemma FoundNeverStops(key: char, asWritten: bool)
    ensures forall c :: HatFound(key, asWritten)(c) ==> !HatStops(key)(c)
  {
    forall c | HatFound(key, asWritten)(c)
      ensures !HatStops(key)(c)
    {
      MatchDoesNotStop(key, c, asWritten);
    }
  }

  /** A vowel with a hat, in either case, is a key of the table. */
  lemma MarkedKey(t: char, upper: bool)
    requires t == 'â' || t == 'ê' || t == 'ô' || t == 'ă' || t == 'ư' || t == 'ơ'
    ensures var cased := if upper then ToUpper(t) else t;
      cased in VC.Keys && ToLower(cased) == t && IsUpper(cased) == upper
  {
    VC.MarkedLetterCase();
    var cased := if upper then ToUpper(t) else t;
    var i := if t == 'â' then 4 else if t == 'ê' then 8 else if t == 'ô' then 14
      else if t == 'ă' then 2 else if t == 'ư' then 20 else 16;
    assert VC.Keys[if upper then i + 1 else i] == cased;
  }

  /**
   * Hats 6, 7 and 8 add the mark the key stands for and keep the tone: the new vowel is
   * in the table, has the tone of the old one, and without its tone it is the lower-case
   * target of the key, in the old letter's case.
   */
  lemma HatCharSpec(key: char, c: char, asWritten: bool)
    requires key != '9' && Matches(key, c, asWritten)
    ensures var h := HatChar(key, c, asWritten);
      var target := HatTarget(key, ToLower(HatBase(c, asWritten))).value;
      && VC.IsVietnameseVowel(h)
      && VC.GetToneIndex(h) == VC.GetToneIndex(c)
      && ToLower(VC.GetVowelWithoutTone(h)) == target
      && IsUpper(VC.GetVowelWithoutTone(h)) == IsUpper(c)
  {
    var target := HatTarget(key, ToLower(HatBase(c, asWritten))).value;
    var cased := if IsUpper(c) then ToUpper(target) else target;
    MarkedKey(target, IsUpper(c));
    var tone := VC.GetToneIndex(c);
    if tone != VC.None {
      VC.ToneOnKey(cased, tone);
    } else {
      VC.KeyUntoned(cased);
    }
  }

  /**
   * One key press keeps the screen and the buffer in step: a handled key is a digit
   * whose edit turns the old buffer into the new one; an unhandled letter is appended;
   * any other unhandled key ends the word.
   */
  lemma VniStepSpec(buf: string, key: char, asWritten: bool)
    ensures var (b, r) := VniStepBy(buf, key, asWritten);
      && WellFormed(r) && r.currentBuffer == b
      && (r.handled <==>
            IsDigit(key) &&
            ((key in ToneKeys && ToneRewriteBy(buf, ToneKeys[key], asWritten).Some?) || HatRewriteBy(buf, key, asWritten).Some?))
      && (r.handled ==>
            && |b| == |buf| && 0 <= r.backspaceCount <= |buf|
            && Replay(buf, Edit(r.backspaceCount, r.outputText.value)) == b)
      && (!r.handled ==> b == if IsLetter(key) then buf + [key] else [])
  {
    if IsDigit(key) {
      var toneRw := if key in ToneKeys then ToneRewriteBy(buf, ToneKeys[key], asWritten) else None;
      if toneRw.Some? {
        RewriteEdit(buf, toneRw.value);
      } else {
        var hatRw := HatRewriteBy(buf, key, asWritten);
        if hatRw.Some? {
          RewriteEdit(buf, hatRw.value);
        }
      }
    }
  }

  /** The edit of a handled key also holds against the whole text before the cursor, of which the buffer is the end. */
  lemma EditOnScreen(pre: string, buf: string, key: char)
    ensures var (b, r) := VniStep(buf, key);
      r.handled ==>
        && r.backspaceCount <= |buf|
        && Replay(pre + buf, Edit(r.backspaceCount, r.outputText.value)) == pre + b
  {
    VniStepSpec(buf, key, true);
    var (b, r) := VniStep(buf, key);
    if r.handled {
      ReplayExtends(pre, buf, Edit(r.backspaceCount, r.outputText.value));
    }
  }

  /** Backspace undoes a typed letter. */
  lemma BackspaceUndoesLetter(buf: string, key: char, asWritten: bool)
    requires IsLetter(key)
    ensures VniBackspace(VniStepBy(buf, key, asWritten).0) == (buf, false)
  {
    assert !IsDigit(key);
    assert VniStepBy(buf, key, asWritten).0 == buf + [key];
    assert (buf + [key])[..|buf|] == buf;
  }

  /** The placement depends only on which characters are vowels and which are marked. */
  lemma {:induction false} TonePlacementCongruent(buf: string, b: string, isVowel: char -> bool, marked: char -> bool)
    requires |b| == |buf|
    requires forall i | 0 <= i < |buf| :: isVowel(b[i]) == isVowel(buf[i]) && marked(b[i]) == marked(buf[i])
    ensures TonePlacement(b, isVowel, marked) == TonePlacement(buf, isVowel, marked)
  {
    PositionsCongruent(buf, b, isVowel);
  }

  /**
   * With the corrected mark test, after a tone is placed the placement rule still points
   * at the same vowel, so the same tone key again changes nothing.
   */
  lemma RetoneStableCorrected(buf: string, tone: VC.ToneIndex)
    requires ToneRewriteCorrected(buf, tone).Some?
    ensures var rw := ToneRewriteCorrected(buf, tone).value;
      var b := Apply(buf, rw).0;
      TonePositionCorrected(b) == rw.pos && ToneRewriteCorrected(b, tone) == None
  {
    var rw := ToneRewriteCorrected(buf, tone).value;
    var b := Apply(buf, rw).0;
    ToneRewriteSpec(buf, tone, false);
    TonePositionIsVowel(buf, false);
    IsVowelIff(rw.ch);
    IsVowelIff(buf[rw.pos]);
    assert HasMark(rw.ch) == HasMark(buf[rw.pos]);
    TonePlacementCongruent(buf, b, IsVowel, MarkTest(false));
    ToneRewriteSpec(b, tone, false);
  }

  /** The source's mark test only sees untoned marked vowels, which the corrected test sees too. */
  lemma MarkAsWrittenIsMark(c: char)
    ensures HasMarkAsWritten(c) ==> HasMark(c)
  {
    if HasMarkAsWritten(c) {
      var t := ToLower(c);
      CaseFolding(c);
      MarkedKey(t, IsUpper(c));
      var cased := if IsUpper(c) then ToUpper(t) else t;
      assert cased == c;
      VC.KeyUntoned(c);
    }
  }

  /**
   * With the source's mark test the same holds when the vowel the tone goes on has no
   * circumflex, breve or horn: the placement still points at it, and the same tone key
   * again changes nothing.
   */
  lemma RetoneStable(buf: string, tone: VC.ToneIndex)
    requires ToneRewrite(buf, tone).Some?
    requires !HasMark(buf[ToneRewrite(buf, tone).value.pos])
    ensures var rw := ToneRewrite(buf, tone).value;
      var b := Apply(buf, rw).0;
      TonePosition(b) == rw.pos && ToneRewrite(b, tone) == None
  {
    var rw := ToneRewrite(buf, tone).value;
    var b := Apply(buf, rw).0;
    ToneRewriteSpec(buf, tone, true);
    TonePositionIsVowel(buf, true);
    IsVowelIff(rw.ch);
    IsVowelIff(buf[rw.pos]);
    assert HasMark(rw.ch) == HasMark(buf[rw.pos]);
    MarkAsWrittenIsMark(rw.ch);
    MarkAsWrittenIsMark(buf[rw.pos]);
    TonePlacementCongruent(buf, b, IsVowel, MarkTest(true));
    ToneRewriteSpec(b, tone, true);
  }

  /** The tone keys are digits and none of them is a hat key. */
  lemma ToneKeyIsDigit(key: char)
    requires key in ToneKeys
    ensures IsDigit(key) && !IsHatKey(key)
  {
  }

  /** No hat key is a tone key. */
  lemma HatKeyIsNotToneKey(key: char)
    requires IsHatKey(key)
    ensures IsDigit(key) && key !in ToneKeys
  {
  }

  /** With the corrected tests, pressing a tone key twice: the second press is not handled and ends the word. */
  lemma RepeatedToneUnhandledCorrected(buf: string, key: char)
    requires key in ToneKeys && VniStepCorrected(buf, key).1.handled
    ensures VniStepCorrected(VniStepCorrected(buf, key).0, key) == ([], NewResult())
  {
    ToneKeyIsDigit(key);
    var tone := ToneKeys[key];
    assert HatRewriteCorrected(buf, key) == None;
    var rw := ToneRewriteCorrected(buf, tone);
    assert rw.Some?;
    var b := Apply(buf, rw.value).0;
    assert VniStepCorrected(buf, key).0 == b;
    RetoneStableCorrected(buf, tone);
    assert HatRewriteCorrected(b, key) == None;
  }

  /**
   * In the engine, pressing a tone key twice on a vowel without a mark: the second press
   * is not handled and ends the word.
   */
  lemma RepeatedToneUnhandled(buf: string, key: char)
    requires key in ToneKeys && VniStep(buf, key).1.handled
    requires ToneRewrite(buf, ToneKeys[key]).Some? && !HasMark(buf[ToneRewrite(buf, ToneKeys[key]).value.pos])
    ensures VniStep(VniStep(buf, key).0, key) == ([], NewResult())
  {
    ToneKeyIsDigit(key);
    var tone := ToneKeys[key];
    var rw := ToneRewrite(buf, tone);
    var b := Apply(buf, rw.value).0;
    assert VniStep(buf, key).0 == b;
    RetoneStable(buf, tone);
    assert HatRewrite(b, key) == None;
  }

  // ---------------------------------------------------------------------------
  // Where the source's own tests go wrong: two words, worked through.

  /** m is not a vowel, and no hat applies to it. */
  lemma LetterM()
    ensures !IsVowel('m') && VC.GetVowelWithoutTone('m') == 'm'
  {
    VC.NotInTable('m');
    assert ToLower('m') == 'm';
    assert !IsVowel('m');
    VC.NonVowel('m');
  }

  lemma LetterU()
    ensures IsVowel('ư') && VC.GetVowelWithoutTone('ư') == 'ư'
  {
    assert VC.Keys[20] == 'ư';
    VC.KeyUntoned('ư');
  }

  /** ừ is ư with the grave tone. */
  lemma LetterUGrave()
    ensures VC.ApplyTone('ư', VC.Grave) == 'ừ'
    ensures IsVowel('ừ') && VC.GetVowelWithoutTone('ừ') == 'ư'
  {
    assert VC.Row(20)[0] == 'ư' && VC.Row(20)[1] == 'ừ';
    VC.ApplyToneFromEntry(20, 0, VC.Grave, 0);
    VC.UntonedFromEntry(20, 1, 0);
    VC.RowInAnyRow('ừ', 0, 20);
  }

  lemma LetterUGraveToAcute()
    ensures VC.ApplyTone('ừ', VC.Acute) == 'ứ'
  {
    assert VC.Row(20)[1] == 'ừ' && VC.Row(20)[2] == 'ứ';
    VC.ApplyToneFromEntry(20, 1, VC.Acute, 0);
  }

  /** á is a with the acute tone. */
  lemma LetterAAcute()
    ensures IsVowel('a') && VC.ApplyTone('a', VC.Acute) == 'á'
  {
    assert VC.Row(0)[0] == 'a' && VC.Row(0)[2] == 'á';
    VC.ApplyToneFromEntry(0, 0, VC.Acute, 0);
  }

  lemma LetterAcuteA()
    ensures IsVowel('á') && VC.GetVowelWithoutTone('á') == 'a' && VC.GetToneIndex('á') == VC.Acute
  {
    assert VC.Row(0)[0] == 'a' && VC.Row(0)[2] == 'á';
    VC.UntonedFromEntry(0, 2, 0);
    VC.ToneSearchOfEntry(0, 2, 0);
    VC.RowInAnyRow('á', 0, 0);
  }

  /** â takes the acute tone as ấ. */
  lemma LetterCircumflexA()
    ensures VC.ApplyTone('â', VC.Acute) == 'ấ'
  {
    assert VC.Row(4)[0] == 'â' && VC.Row(4)[2] == 'ấ';
    VC.ApplyToneFromEntry(4, 0, VC.Acute, 0);
  }

  /** In a consonant followed by two vowels, the tone goes on the first vowel if it is marked and on the second if not. */
  lemma PlacementOfThree(w: string, asWritten: bool)
    requires |w| == 3 && !IsVowel(w[0]) && IsVowel(w[1]) && IsVowel(w[2])
    ensures TonePositionBy(w, asWritten) == if MarkTest(asWritten)(w[1]) then 1 else 2
  {
    assert w[..1][..0] == [];
    assert Positions(w[..1], IsVowel) == [];
    assert w[..2][..1] == w[..1];
    assert Positions(w[..2], IsVowel) == [1];
    assert Positions(w, IsVowel) == [1, 2];
    assert GroupStart([1, 2], 1) == 0;
  }

  /** A tone key whose rewrite is found changes that one position of the buffer. */
  lemma ToneKeyRewrites(buf: string, key: char, asWritten: bool, p: nat, ch: char)
    requires key in ToneKeys && IsDigit(key)
    requires TonePositionBy(buf, asWritten) == p && p < |buf|
    requires VC.ApplyTone(buf[p], ToneKeys[key]) == ch && ch != buf[p]
    ensures VniStepBy(buf, key, asWritten).0 == buf[p := ch]
  {
    assert ToneRewriteBy(buf, ToneKeys[key], asWritten) == Some(Rewrite(p, ch));
  }

  /** In mưa and in mừa the tone goes on the second vowel by the source's test. */
  lemma PlacementOnMuaAsWritten(w: string)
    requires |w| == 3 && w[0] == 'm' && (w[1] == 'ư' || w[1] == 'ừ') && w[2] == 'a'
    ensures TonePositionBy(w, true) == (if w[1] == 'ư' then 1 else 2)
  {
    LetterM();
    LetterAAcute();
    if w[1] == 'ư' {
      LetterU();
      MarkAsWrittenOnU();
      PlacementOfThree(w, true);
    } else {
      LetterUGrave();
      MarkAsWrittenOnUGrave();
      PlacementOfThree(w, true);
    }
  }

  /**
   * The source's mark test also lets a repeated tone key move: mưa + 2 gives mừa, and a
   * second 2 no longer sees the horn of ừ, so it puts the grave tone on the a as well,
   * giving mừà, where the corrected test leaves the word alone.
   */
  lemma RepeatedToneMovesAsWritten(w: string)
    requires |w| == 3 && w[0] == 'm' && w[1] == 'ư' && w[2] == 'a'
    ensures VniStep(w, '2').0 == w[1 := 'ừ']
    ensures var (b, r) := VniStep(VniStep(w, '2').0, '2');
      r.handled && b == w[1 := 'ừ'][2 := 'à']
  {
    GraveOnMua(w);
    var w1 := w[1 := 'ừ'];
    PlacementOnMuaAsWritten(w1);
    LetterAGrave();
    ToneKeyRewrites(w1, '2', true, 2, 'à');
    VniStepSpec(w1, '2', true);
  }

  /** With the corrected test, the second 2 on mưa is refused and the word ends. */
  lemma RepeatedToneOnMuaCorrected(w: string)
    requires |w| == 3 && w[0] == 'm' && w[1] == 'ư' && w[2] == 'a'
    ensures VniStepCorrected(VniStepCorrected(w, '2').0, '2') == ([], NewResult())
  {
    GraveOnMua(w);
    VniStepSpec(w, '2', false);
    ToneKeyIsDigit('2');
    RepeatedToneUnhandledCorrected(w, '2');
  }

  /** à is a with the grave tone. */
  lemma LetterAGrave()
    ensures VC.ApplyTone('a', VC.Grave) == 'à'
  {
    assert VC.Row(0)[0] == 'a' && VC.Row(0)[1] == 'à';
    VC.ApplyToneFromEntry(0, 0, VC.Grave, 0);
  }

  /** The source's mark test sees the horn of an untoned ư. */
  lemma MarkAsWrittenOnU()
    ensures HasMarkAsWritten('ư')
  {
  }

  /** The source's mark test misses the horn of ừ: the lower case of ừ is ừ, not ư. */
  lemma MarkAsWrittenOnUGrave()
    ensures !HasMarkAsWritten('ừ')
  {
    assert ToLower('ừ') == 'ừ';
  }

  /** With the corrected test the tone of mưa and of mừa goes on the ư. */
  lemma PlacementOnMua(w: string)
    requires |w| == 3 && w[0] == 'm' && (w[1] == 'ư' || w[1] == 'ừ') && w[2] == 'a'
    ensures TonePositionBy(w, false) == 1
  {
    LetterM();
    LetterU();
    LetterUGrave();
    LetterAAcute();
    PlacementOfThree(w, false);
    assert HasMark('ư') && HasMark('ừ');
  }

  /** Both tests put the grave tone of mưa + 2 on the ư, giving mừa. */
  lemma GraveOnMua(w: string)
    requires |w| == 3 && w[0] == 'm' && w[1] == 'ư' && w[2] == 'a'
    ensures VniStep(w, '2').0 == w[1 := 'ừ'] && VniStepCorrected(w, '2').0 == w[1 := 'ừ']
  {
    PlacementOnMuaAsWritten(w);
    PlacementOnMua(w);
    LetterUGrave();
    ToneKeyRewrites(w, '2', true, 1, 'ừ');
    ToneKeyRewrites(w, '2', false, 1, 'ừ');
  }

  /**
   * The mark test of the source does not see the horn of a toned ư: on mừa the key 1
   * puts a second tone on the a, giving mừá, instead of changing the tone of ừ.
   */
  lemma MarkTestMissesTonedVowel(w: string)
    requires |w| == 3 && w[0] == 'm' && w[1] == 'ừ' && w[2] == 'a'
    ensures VniStep(w, '1').0 == w[2 := 'á']
  {
    PlacementOnMuaAsWritten(w);
    LetterAAcute();
    ToneKeyRewrites(w, '1', true, 2, 'á');
  }

  /** With the mark test on the vowel without its tone, mừa + 1 gives mứa. */
  lemma MarkTestOnUntonedVowel(w: string)
    requires |w| == 3 && w[0] == 'm' && w[1] == 'ừ' && w[2] == 'a'
    ensures VniStepCorrected(w, '1').0 == w[1 := 'ứ']
  {
    PlacementOnMua(w);
    LetterUGraveToAcute();
    ToneKeyRewrites(w, '1', false, 1, 'ứ');
  }

  /** The scan of hat 6 over má with the source's test passes over á and stops at m. */
  lemma HatScanOfMaAsWritten(w: string)
    requires |w| == 2 && w[0] == 'm' && w[1] == 'á'
    ensures ScanBack(w, 2, HatFound('6', true), HatStops('6')) == -1
  {
    HatSixOnAcuteA();
    HatSixOnM();
    HatScanStep(w, 1, '6', true);
    HatScanStep(w, 0, '6', true);
  }

  /** Hat 6 does not apply to á as the source tests it, and á does not stop the scan. */
  lemma HatSixOnAcuteA()
    ensures !Matches('6', 'á', true) && !Stops('6', 'á')
  {
    LetterAcuteA();
  }

  /** Hat 6 stops at m. */
  lemma HatSixOnM()
    ensures !Matches('6', 'm', true) && !Matches('6', 'm', false) && Stops('6', 'm')
  {
    LetterM();
  }

  /** The scan of hat 6 over má with the corrected test finds á. */
  lemma HatScanOfMa(w: string)
    requires |w| == 2 && w[0] == 'm' && w[1] == 'á'
    ensures ScanBack(w, 2, HatFound('6', false), HatStops('6')) == 1
  {
    HatSixOnUntonedA();
    HatScanStep(w, 1, '6', false);
  }

  /** The corrected hat test of 6 sees the a under the tone of á. */
  lemma HatSixOnUntonedA()
    ensures Matches('6', 'á', false)
  {
    LetterAcuteA();
  }

  /**
   * The hat test of the source does not see the letter under a tone: má + 6 finds no a
   * and ends the word, so the tone-keeping branch of TryApplyHat6 is never reached.
   */
  lemma HatTestMissesTonedVowel(w: string)
    requires |w| == 2 && w[0] == 'm' && w[1] == 'á'
    ensures HatRewrite(w, '6') == None
    ensures VniStep(w, '6') == ([], NewResult())
  {
    HatScanOfMaAsWritten(w);
    HatKeyIsNotToneKey('6');
  }

  /** With the hat test on the vowel without its tone, má + 6 is handled and gives mấ. */
  lemma HatTestOnUntonedVowel(w: string)
    requires |w| == 2 && w[0] == 'm' && w[1] == 'á'
    ensures VniStepCorrected(w, '6').0 == w[1 := 'ấ'] && VniStepCorrected(w, '6').1.handled
  {
    HatScanOfMa(w);
    LetterAcuteA();
    LetterCircumflexA();
    assert HatChar('6', 'á', false) == 'ấ';
    assert HatRewriteCorrected(w, '6') == Some(Rewrite(1, 'ấ'));
    HatKeyIsNotToneKey('6');
  }

  // ---------------------------------------------------------------------------
  // The engine.

  class VniEngine {
    const name: string
    var buffer: string

    constructor()
      ensures buffer == [] && name == "VNI"
    {
      name := "VNI";
      buffer := [];
    }

    method ProcessKey(key: char, isShiftPressed: bool) returns (r: KeyResult)
      modifies this
      ensures (buffer, r) == VniStep(old(buffer), key)
    {
      if IsDigit(key) {
        if key in ToneKeys {
          var toneResult := TryApplyTone(ToneKeys[key]);
          if toneResult.Some? {
            var current := GetBuffer();
            return HandledResult(toneResult.value, current);
          }
        }
        var hatResult := TryApplyHat(key);
        if hatResult.Some? {
          var current := GetBuffer();
          return HandledResult(hatResult.value, current);
        }
        Reset();
        return NewResult();
      }
      if !IsLetter(key) {
        Reset();
        return NewResult();
      }
      buffer := buffer + [key];
      var current := GetBuffer();
      r := NewResult().(currentBuffer := current);
    }

    method TryApplyTone(tone: VC.ToneIndex) returns (e: Option<Edit>)
      modifies this
      ensures (buffer, e) == ApplyOption(old(buffer), ToneRewrite(old(buffer), tone))
    {
      var vowelPos := FindVowelPositionForTone();
      if vowelPos < 0 {
        return None;
      }
      var oldVowel := buffer[vowelPos];
      var newVowel := VC.ApplyTone(oldVowel, tone);
      if newVowel == oldVowel {
        return None;
      }
      var edit := ReplaceAt(vowelPos, newVowel);
      return Some(edit);
    }

    method TryApplyHat(key: char) returns (e: Option<Edit>)
      modifies this
      ensures (buffer, e) == ApplyOption(old(buffer), HatRewrite(old(buffer), key))
    {
      if |buffer| == 0 {
        return None;
      }
      if IsHatKey(key) {
        e := ScanForHat(key);
      } else {
        e := None;
      }
    }

    /**
     * The tail shared by TryApplyTone and TryApplyHat6..9: the buffer character at i is
     * replaced, and the screen is told to erase from i to the end and retype it.
     */
    method ReplaceAt(i: nat, ch: char) returns (e: Edit)
      requires i < |buffer|
      modifies this
      ensures (buffer, e) == Apply(old(buffer), Rewrite(i, ch))
    {
      buffer := buffer[i := ch];
      var backspaceCount := |buffer| - i;
      var output := buffer[i..];
      return Edit(backspaceCount, output);
    }

    /** The loop shared by TryApplyHat6, TryApplyHat7, TryApplyHat8 and TryApplyHat9. */
    method ScanForHat(key: char) returns (e: Option<Edit>)
      requires |buffer| > 0 && IsHatKey(key)
      modifies this
      ensures (buffer, e) == ApplyOption(old(buffer), HatRewrite(old(buffer), key))
    {
      ghost var start := buffer;
      ghost var found := ScanBack(start, |start|, HatFound(key, true), HatStops(key));
      var pos := -1;
      var i: int := |buffer| - 1;
      while i >= 0
        invariant -1 <= i < |buffer| && buffer == start && pos == -1
        invariant ScanBack(start, i + 1, HatFound(key, true), HatStops(key)) == found
        decreases i + 1
      {
        var c := buffer[i];
        HatScanStepAsWritten(start, i, key);
        var target := HatTarget(key, ToLower(c));
        if target.Some? {
          pos := i;
          break;
        }
        if Stops(key, c) {
          break;
        }
        i := i - 1;
      }
      // The source returns from inside the loop; here the loop leaves with the position.
      if pos >= 0 {
        e := PutHat(key, pos);
      } else {
        HatNotFound(start, key);
        e := None;
      }
    }

    /** The body of the hat loop once the letter at i matches: the hatted letter, its tone kept. */
    method PutHat(key: char, i: nat) returns (e: Option<Edit>)
      requires IsHatKey(key) && i < |buffer| && HatTarget(key, ToLower(buffer[i])).Some?
      requires ScanBack(buffer, |buffer|, HatFound(key, true), HatStops(key)) == i
      modifies this
      ensures (buffer, e) == ApplyOption(old(buffer), HatRewrite(old(buffer), key))
    {
      HatFoundAt(buffer, key, i);
      var edit := ReplaceAt(i, HatChar(key, buffer[i], true));
      return Some(edit);
    }

    method CollectVowelPositions() returns (vowelPositions: seq<nat>)
      ensures vowelPositions == VowelPositions(buffer)
    {
      vowelPositions := [];
      var i := 0;
      while i < |buffer|
        invariant 0 <= i <= |buffer|
        invariant vowelPositions == Positions(buffer[..i], IsVowel)
      {
        assert buffer[..i + 1][..i] == buffer[..i];
        if IsVowel(buffer[i]) {
          vowelPositions := vowelPositions + [i];
        }
        i := i + 1;
      }
      assert buffer[..i] == buffer;
    }

    /** The second loop of FindVowelPositionForTone: the last group of consecutive positions. */
    static method CollectLastGroup(vowelPositions: seq<nat>) returns (lastGroup: seq<nat>)
      ensures lastGroup == LastGroup(vowelPositions)
    {
      lastGroup := [];
      var j := |vowelPositions| - 1;
      while j >= 0
        invariant -1 <= j < |vowelPositions|
        invariant lastGroup == vowelPositions[j + 1..]
        invariant GroupStart(vowelPositions, j) == GroupStart(vowelPositions, |vowelPositions| - 1)
        decreases j + 1
      {
        if |lastGroup| == 0 || vowelPositions[j] + 1 == lastGroup[0] {
          lastGroup := [vowelPositions[j]] + lastGroup;
        } else {
          break;
        }
        j := j - 1;
      }
    }

    method FindVowelPositionForTone() returns (pos: int)
      ensures pos == TonePosition(buffer)
    {
      var vowelPositions := CollectVowelPositions();
      if |vowelPositions| == 0 {
        return -1;
      }
      if |vowelPositions| == 1 {
        return vowelPositions[0];
      }
      var lastGroup := CollectLastGroup(vowelPositions);
      if |lastGroup| == 1 {
        return lastGroup[0];
      }
      if |lastGroup| == 2 {
        var lastVowelPos := lastGroup[1];
        var hasConsonantAfter := lastVowelPos < |buffer| - 1 && !IsVowel(buffer[lastVowelPos + 1]);
        assert TonePosition(buffer) ==
          if HasMarkAsWritten(buffer[lastGroup[0]]) then lastGroup[0]
          else if HasMarkAsWritten(buffer[lastGroup[1]]) then lastGroup[1]
          else if hasConsonantAfter then lastGroup[0]
          else lastGroup[1];
        var k := 0;
        while k < |lastGroup|
          invariant 0 <= k <= |lastGroup|
          invariant k >= 1 ==> !HasMarkAsWritten(buffer[lastGroup[0]])
          invariant k >= 2 ==> !HasMarkAsWritten(buffer[lastGroup[1]])
        {
          var p := lastGroup[k];
          if HasMarkAsWritten(buffer[p]) {
            if k == 0 {
              assert p == lastGroup[0];
            } else {
              assert k == 1 && p == lastGroup[1];
            }
            return p;
          }
          k := k + 1;
        }
        return if hasConsonantAfter then lastGroup[0] else lastGroup[1];
      }
      return lastGroup[1];
    }

    method Reset()
      modifies this
      ensures buffer == []
    {
      buffer := [];
    }

    method ProcessBackspace() returns (absorbed: bool)
      modifies this
      ensures (buffer, absorbed) == VniBackspace(old(buffer))
    {
      if |buffer| > 0 {
        buffer := buffer[..|buffer| - 1];
        return false;
      }
      return false;
    }

    method GetBuffer() returns (s: string)
      ensures s == buffer
    {
      return buffer;
    }
  }
}
