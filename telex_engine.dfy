/**
 * The CVNSS4.0 input engine (the class VietIME.Core.Engines.TelexEngine, which keeps that
 * name for the settings but wraps the CVNSS converter). It keeps the raw CVNSS word typed
 * so far and the text it last put on screen for it; every key of a word retypes the
 * whole converted word, erasing exactly what was put there before.
 *
 * The converter is loaded once per process (a static Lazy); the outcome of that load is
 * the constructor parameter converter, None when loading throws.
 */
module Telex {
  import opened Wrappers
  import opened Unicode
  import opened Engines
  import Cvnss
  import Tokenizer

  /** The backspace character, '\b' in the source. */
  const Backspace: char := 8 as char

  /** IsWordDelimiter: whitespace, punctuation and symbols end the word. */
  predicate IsWordDelimiter(ch: char) {
    IsWhiteSpace(ch) || IsPunctuation(ch) || IsSymbol(ch)
  }

  /** NotHandled: a result with only Handled set, to false; that is the default result. */
  function NotHandled(): (r: KeyResult)
    ensures r == NewResult() && WellFormed(r)
  {
    KeyResult(false, None, 0, "")
  }

  /**
   * SafeConvert fails open: when the converter did not load, or converting throws, the
   * word itself is the output.
   */
  function SafeConvert(converter: Option<Cvnss.Converter>, word: string): (r: string)
    ensures (converter.None? || converter.value.ConvertWord(word).None?) ==> r == word
    ensures converter.Some? && converter.value.ConvertWord(word).Some? ==> r == converter.value.ConvertWord(word).value
  {
    match converter
    case None => word
    case Some(c) =>
      match c.ConvertWord(word)
      case None => word
      case Some(out) => out
  }

  /** The text the engine has put on screen for the word buffer: nothing for an empty one. */
  function OutputOf(converter: Option<Cvnss.Converter>, buffer: string): string {
    if buffer == "" then "" else SafeConvert(converter, buffer)
  }

  /** The fields the engine updates: _buffer and _lastOutput. */
  datatype State = State(buffer: string, lastOutput: string)

  /**
   * The engine's invariant: the last output is the conversion of the buffer (nothing for an
   * empty buffer), and the buffer holds no line break and no word delimiter.
   */
  predicate Consistent(converter: Option<Cvnss.Converter>, st: State) {
    && st.lastOutput == OutputOf(converter, st.buffer)
    && InWord(st.buffer)
  }

  /** A key that ends the word: a line break or a word delimiter. */
  predicate EndsWord(ch: char) {
    ch == '\r' || ch == '\n' || IsWordDelimiter(ch)
  }

  /** No character of s ends a word. */
  predicate InWord(s: string) {
    forall i | 0 <= i < |s| :: !EndsWord(s[i])
  }

  lemma InWordPrefix(s: string, n: nat)
    requires InWord(s) && n <= |s|
    ensures InWord(s[..n])
  {
    assert forall i | 0 <= i < n :: s[..n][i] == s[i];
  }

  lemma InWordSnoc(s: string, ch: char)
    requires InWord(s) && !EndsWord(ch)
    ensures InWord(s + [ch])
  {
    assert forall i | 0 <= i < |s| :: (s + [ch])[i] == s[i];
  }

  /** ProcessKey for any key but '\b' (lines 29-64): the new state and the result. */
  function TelexStep(converter: Option<Cvnss.Converter>, st: State, key: char): (State, KeyResult)
    requires key != Backspace
  {
    if EndsWord(key) then (State("", ""), NotHandled())
    else
      var buffer := st.buffer + [key];
      var converted := SafeConvert(converter, buffer);
      (State(buffer, converted), KeyResult(true, Some(converted), |st.lastOutput|, buffer))
  }

  /** ProcessBackspace (lines 66-79): the new state and whether the buffer absorbed the key. */
  function TelexBackspace(converter: Option<Cvnss.Converter>, st: State): (State, bool) {
    if |st.buffer| == 0 then (st, false)
    else
      var buffer := st.buffer[..|st.buffer| - 1];
      (State(buffer, if |buffer| == 0 then "" else SafeConvert(converter, buffer)), true)
  }

  /**
   * A key ends the word, and is left to the application, exactly when it is a line break or
   * a word delimiter; then both fields are cleared. Any other key is appended and handled:
   * the result erases as many characters as the previous output had and types the
   * conversion of the new buffer. The invariant is kept.
   */
  lemma TelexStepSpec(converter: Option<Cvnss.Converter>, st: State, key: char)
    requires key != Backspace && Consistent(converter, st)
    ensures var (st', r) := TelexStep(converter, st, key);
      && Consistent(converter, st') && WellFormed(r) && r.currentBuffer == st'.buffer
      && (r.handled <==> !EndsWord(key))
      && (!r.handled ==> st' == State("", "") && r == NewResult())
      && (r.handled ==>
            && st'.buffer == st.buffer + [key]
            && r.backspaceCount == |st.lastOutput|
            && r.outputText == Some(st'.lastOutput))
  {
    var (st', r) := TelexStep(converter, st, key);
    if r.handled {
      InWordSnoc(st.buffer, key);
    }
  }

  /**
   * The erase count is the length of what is on screen for the word: when the screen ends
   * with the last output, replaying a handled result leaves the new output in its place
   * and everything before untouched.
   */
  lemma TelexReplay(converter: Option<Cvnss.Converter>, st: State, key: char, pre: string)
    requires key != Backspace && Consistent(converter, st)
    ensures var (st', r) := TelexStep(converter, st, key);
      r.handled ==>
        && 0 <= r.backspaceCount <= |pre + st.lastOutput|
        && Replay(pre + st.lastOutput, Edit(r.backspaceCount, r.outputText.value)) == pre + st'.lastOutput
  {
    var (st', r) := TelexStep(converter, st, key);
    if r.handled {
      var e := Edit(r.backspaceCount, r.outputText.value);
      ReplayExtends(pre, st.lastOutput, e);
      assert st.lastOutput[..0] == "";
    }
  }

  /**
   * Backspace on an empty buffer is refused and changes nothing; otherwise it drops the
   * last character of the buffer, is absorbed, and keeps the invariant.
   */
  lemma TelexBackspaceSpec(converter: Option<Cvnss.Converter>, st: State)
    requires Consistent(converter, st)
    ensures var (st', absorbed) := TelexBackspace(converter, st);
      && Consistent(converter, st')
      && (absorbed <==> |st.buffer| > 0)
      && (!absorbed ==> st' == st)
      && (absorbed ==> st'.buffer + [st.buffer[|st.buffer| - 1]] == st.buffer)
  {
    var (st', absorbed) := TelexBackspace(converter, st);
    if absorbed {
      InWordPrefix(st.buffer, |st.buffer| - 1);
      DropLast(st.buffer);
    }
  }

  lemma DropLast(s: string)
    requires |s| > 0
    ensures s[..|s| - 1] + [s[|s| - 1]] == s
  {
  }

  /** Backspace after a typed letter gives back the state before it. */
  lemma BackspaceUndoesKey(converter: Option<Cvnss.Converter>, st: State, key: char)
    requires key != Backspace && Consistent(converter, st)
    requires !EndsWord(key)
    ensures TelexBackspace(converter, TelexStep(converter, st, key).0) == (st, true)
  {
    assert (st.buffer + [key])[..|st.buffer|] == st.buffer;
  }

  /**
   * The buffer is one token to the converter's tokenizer: it holds none of the characters
   * ConvertTextCvnToCqn cuts at, so converting it as a word is converting it as a text.
   */
  lemma BufferIsOneToken(converter: Option<Cvnss.Converter>, st: State)
    requires Consistent(converter, st) && |st.buffer| > 0
    ensures Tokenizer.Tokens(st.buffer, Cvnss.IsDelimiter) == [st.buffer]
  {
    forall i | 0 <= i < |st.buffer|
      ensures !Cvnss.IsDelimiter(st.buffer[i])
    {
      if Cvnss.IsSplitPunctuation(st.buffer[i]) {
        Cvnss.SplitPunctuationIsPunctuation(st.buffer[i]);
      }
    }
    Tokenizer.SingleWord(st.buffer, Cvnss.IsDelimiter);
  }

  class TelexEngine {
    const name: string
    const converter: Option<Cvnss.Converter>
    var buffer: string
    var lastOutput: string

    predicate Valid()
      reads this
    {
      Consistent(converter, State(buffer, lastOutput))
    }

    constructor(converter: Option<Cvnss.Converter>)
      ensures name == "CVNSS4.0" && this.converter == converter
      ensures buffer == "" && lastOutput == "" && Valid()
    {
      name := "CVNSS4.0";
      this.converter := converter;
      buffer := "";
      lastOutput := "";
    }

    /** ProcessKey, for every key but backspace, whose branch does not type-check in the source. */
    method ProcessKey(key: char, isShiftPressed: bool) returns (r: KeyResult)
      requires key != Backspace && Valid()
      modifies this
      ensures Valid()
      ensures (State(buffer, lastOutput), r) == TelexStep(converter, State(old(buffer), old(lastOutput)), key)
    {
      TelexStepSpec(converter, State(buffer, lastOutput), key);
      if key == '\r' || key == '\n' {
        Reset();
        return NotHandled();
      }
      if IsWordDelimiter(key) {
        Reset();
        return NotHandled();
      }
      buffer := buffer + [key];
      var converted := Convert(buffer);
      r := KeyResult(true, Some(converted), |lastOutput|, buffer);
      lastOutput := converted;
    }

    method ProcessBackspace() returns (absorbed: bool)
      requires Valid()
      modifies this
      ensures Valid()
      ensures (State(buffer, lastOutput), absorbed) == TelexBackspace(converter, State(old(buffer), old(lastOutput)))
    {
      ghost var st := State(buffer, lastOutput);
      TelexBackspaceSpec(converter, st);
      if |buffer| == 0 {
        return false;
      }
      var shorter := buffer[..|buffer| - 1];
      var converted := "";
      if |shorter| > 0 {
        converted := Convert(shorter);
      }
      buffer, lastOutput := shorter, converted;
      assert State(buffer, lastOutput) == TelexBackspace(converter, st).0;
      return true;
    }

    method Reset()
      modifies this
      ensures buffer == "" && lastOutput == "" && Valid()
    {
      buffer := "";
      lastOutput := "";
    }

    method GetBuffer() returns (s: string)
      ensures s == buffer
    {
      return buffer;
    }

    /** SafeConvert through the converter's own method. */
    method Convert(word: string) returns (r: string)
      ensures r == SafeConvert(converter, word)
    {
      if converter.None? {
        return word;
      }
      var out := converter.value.ConvertWordCvnToCqn(word);
      if out.None? {
        return word;
      }
      return out.value;
    }
  }
}
