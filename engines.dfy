/**
 * The contract shared by the input engines (VietIME.Core.Engines.IInputEngine and
 * ProcessKeyResult): the result of one key press, and what it tells the keyboard hook
 * to do with the text already on screen.
 */
module Engines {
  import opened Wrappers

  /**
   * ProcessKeyResult. Handled means the key is consumed and must not reach the target
   * application; the hook then erases BackspaceCount characters and types OutputText.
   * CurrentBuffer is the engine's word buffer after the key.
   */
  datatype KeyResult = KeyResult(handled: bool, outputText: Option<string>, backspaceCount: int, currentBuffer: string)

  /** `new ProcessKeyResult()`: every property at its default. */
  function NewResult(): (r: KeyResult)
    ensures !r.handled && r.outputText.None? && r.backspaceCount == 0 && r.currentBuffer == ""
  {
    KeyResult(false, None, 0, "")
  }

  /** The `(int backspaceCount, string output)` pair an engine computes for a rewritten key. */
  datatype Edit = Edit(backspaceCount: int, output: string)

  /** The result the engines build for an edit: handled, carrying the edit and the buffer. */
  function HandledResult(e: Edit, buffer: string): (r: KeyResult)
    ensures r.handled && r.outputText == Some(e.output)
    ensures r.backspaceCount == e.backspaceCount && r.currentBuffer == buffer
  {
    KeyResult(true, Some(e.output), e.backspaceCount, buffer)
  }

  /**
   * What the target application shows once a handled result is replayed: the last
   * BackspaceCount characters of the old text erased, then OutputText typed.
   */
  function Replay(screen: string, e: Edit): (s: string)
    requires 0 <= e.backspaceCount <= |screen|
    ensures |s| == |screen| - e.backspaceCount + |e.output|
    ensures s[..|screen| - e.backspaceCount] == screen[..|screen| - e.backspaceCount]
    ensures s[|screen| - e.backspaceCount..] == e.output
  {
    screen[..|screen| - e.backspaceCount] + e.output
  }

  /**
   * An edit computed against the end of the screen text works on the whole text: what
   * comes before is left as it is.
   */
  lemma ReplayExtends(pre: string, screen: string, e: Edit)
    requires 0 <= e.backspaceCount <= |screen|
    ensures Replay(pre + screen, e) == pre + Replay(screen, e)
  {
    var n := |screen| - e.backspaceCount;
    assert (pre + screen)[..|pre| + n] == pre + screen[..n];
  }

  /**
   * The shape both engines give their results: a handled result carries text and a
   * non-negative erase count; an unhandled one carries neither.
   */
  predicate WellFormed(r: KeyResult) {
    && (r.handled ==> r.outputText.Some? && r.backspaceCount >= 0)
    && (!r.handled ==> r.outputText.None? && r.backspaceCount == 0)
  }

  lemma NewResultWellFormed()
    ensures WellFormed(NewResult()) && !NewResult().handled
  {
  }
}
