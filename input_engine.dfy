/**
 * IInputEngine: the four operations the keyboard hook uses, for whichever engine is
 * selected. An engine is referred to by an EngineRef (one of the two engine classes);
 * EngineState is the value of its fields, and the pure functions on it say what each
 * operation does to the engine.
 *
 * The contract both engines keep is the one ProcessKeyResult describes: Shown is the
 * text the engine has put on screen for the current word, and a handled key is an edit
 * of exactly that text, while an unhandled key reaches the application itself.
 */
module InputEngine {
  import opened Wrappers
  import opened Engines
  import Vni
  import Telex
  import Cvnss

  datatype EngineState =
    | VniState(word: string)
    | TelexState(converter: Option<Cvnss.Converter>, fields: Telex.State)

  /** The engine's own invariant. */
  predicate Ok(es: EngineState) {
    es.TelexState? ==> Telex.Consistent(es.converter, es.fields)
  }

  /** GetBuffer. */
  function BufferOf(es: EngineState): string {
    match es
    case VniState(word) => word
    case TelexState(_, fields) => fields.buffer
  }

  /** The text on screen that belongs to the current word. */
  function ShownOf(es: EngineState): string {
    match es
    case VniState(word) => word
    case TelexState(_, fields) => fields.lastOutput
  }

  /** The keys ProcessKey accepts: every key, but backspace for the CVNSS engine. */
  predicate Accepts(es: EngineState, key: char) {
    es.TelexState? ==> key != Telex.Backspace
  }

  /** ProcessKey. */
  function KeyStep(es: EngineState, key: char): (EngineState, KeyResult)
    requires Accepts(es, key)
  {
    match es
    case VniState(word) =>
      var (b, r) := Vni.VniStep(word, key);
      (VniState(b), r)
    case TelexState(converter, fields) =>
      var (f, r) := Telex.TelexStep(converter, fields, key);
      (TelexState(converter, f), r)
  }

  /** ProcessBackspace. */
  function BackspaceStep(es: EngineState): (EngineState, bool) {
    match es
    case VniState(word) =>
      var (b, absorbed) := Vni.VniBackspace(word);
      (VniState(b), absorbed)
    case TelexState(converter, fields) =>
      var (f, absorbed) := Telex.TelexBackspace(converter, fields);
      (TelexState(converter, f), absorbed)
  }

  /** Reset. */
  function ResetState(es: EngineState): EngineState {
    match es
    case VniState(_) => VniState([])
    case TelexState(converter, _) => TelexState(converter, Telex.State("", ""))
  }

  /**
   * One key press, for either engine: a handled key carries an edit that erases part of
   * what the engine has shown for the word and turns it into what it shows now; an
   * unhandled key is typed by the application itself, and the engine then shows either
   * the old word followed by that key or nothing at all (the word ended). The result is
   * well formed, CurrentBuffer is the new buffer, and the invariant is kept.
   */
  lemma KeyStepInSync(es: EngineState, key: char)
    requires Ok(es) && Accepts(es, key)
    ensures var (es', r) := KeyStep(es, key);
      && Ok(es') && WellFormed(r) && r.currentBuffer == BufferOf(es')
      && (r.handled ==>
            && 0 <= r.backspaceCount <= |ShownOf(es)|
            && Replay(ShownOf(es), Edit(r.backspaceCount, r.outputText.value)) == ShownOf(es'))
      && (!r.handled ==> ShownOf(es') == ShownOf(es) + [key] || ShownOf(es') == "")
  {
    match es
    case VniState(word) =>
      Vni.VniStepSpec(word, key, true);
    case TelexState(converter, fields) =>
      Telex.TelexStepSpec(converter, fields, key);
      Telex.TelexReplay(converter, fields, key, "");
      assert "" + fields.lastOutput == fields.lastOutput;
      var (f, r) := Telex.TelexStep(converter, fields, key);
      assert "" + f.lastOutput == f.lastOutput;
  }

  /** A screen ends with what the engine has shown for the word. */
  predicate EndsWith(screen: string, shown: string) {
    |shown| <= |screen| && screen[|screen| - |shown|..] == shown
  }

  /**
   * The same against the whole text before the cursor: when it ends with what the engine
   * has shown, it still does after a handled key's edit, or after an unhandled key has
   * been typed as it is.
   */
  lemma ScreenStaysInSync(es: EngineState, key: char, screen: string)
    requires Ok(es) && Accepts(es, key) && EndsWith(screen, ShownOf(es))
    ensures var (es', r) := KeyStep(es, key);
      && (r.handled ==>
            && 0 <= r.backspaceCount <= |screen|
            && EndsWith(Replay(screen, Edit(r.backspaceCount, r.outputText.value)), ShownOf(es')))
      && (!r.handled ==> EndsWith(screen + [key], ShownOf(es')))
  {
    KeyStepInSync(es, key);
    var (es', r) := KeyStep(es, key);
    var shown := ShownOf(es);
    var pre := screen[..|screen| - |shown|];
    assert screen == pre + shown;
    if r.handled {
      var e := Edit(r.backspaceCount, r.outputText.value);
      ReplayExtends(pre, shown, e);
      var after := pre + ShownOf(es');
      assert after[|after| - |ShownOf(es')|..] == ShownOf(es');
    } else {
      var after := screen + [key];
      if ShownOf(es') == shown + [key] {
        assert after == pre + (shown + [key]);
        assert after[|after| - |ShownOf(es')|..] == ShownOf(es');
      } else {
        assert after[|after|..] == "";
      }
    }
  }

  /** After Reset the buffer is empty, nothing is shown for the word, and the invariant holds. */
  lemma ResetStateSpec(es: EngineState)
    ensures var es' := ResetState(es);
      Ok(es') && BufferOf(es') == "" && ShownOf(es') == "" && es'.VniState? == es.VniState?
  {
  }

  /**
   * Backspace drops the last character of a non-empty buffer and leaves an empty one alone,
   * keeping the invariant. It reports the key absorbed only for a non-empty buffer of the
   * CVNSS engine; the VNI engine never absorbs it. For the VNI engine, whose word is on
   * screen as it is, the screen stays in step with it once the application erases the
   * character itself.
   */
  lemma BackspaceStepSpec(es: EngineState)
    requires Ok(es)
    ensures var (es', absorbed) := BackspaceStep(es);
      && Ok(es')
      && (|BufferOf(es)| == 0 ==> es' == es)
      && (|BufferOf(es)| > 0 ==> BufferOf(es') == BufferOf(es)[..|BufferOf(es)| - 1])
      && (absorbed <==> es.TelexState? && |BufferOf(es)| > 0)
      && (es.VniState? && |ShownOf(es)| > 0 ==> ShownOf(es') == ShownOf(es)[..|ShownOf(es)| - 1])
  {
    match es
    case VniState(word) =>
    case TelexState(converter, fields) =>
      Telex.TelexBackspaceSpec(converter, fields);
  }

  /** The engine objects an EngineRef stands for. */
  datatype EngineRef = VniRef(vni: Vni.VniEngine) | TelexRef(telex: Telex.TelexEngine)

  function Repr(e: EngineRef): set<object> {
    match e
    case VniRef(v) => {v}
    case TelexRef(t) => {t}
  }

  /** The value of the engine's fields. */
  function Value(e: EngineRef): EngineState
    reads Repr(e)
  {
    match e
    case VniRef(v) => VniState(v.buffer)
    case TelexRef(t) => TelexState(t.converter, Telex.State(t.buffer, t.lastOutput))
  }

  predicate Valid(e: EngineRef)
    reads Repr(e)
  {
    Ok(Value(e))
  }

  /** IInputEngine.Name. */
  function Name(e: EngineRef): (n: string)
    reads Repr(e)
    ensures e.VniRef? ==> n == e.vni.name
    ensures e.TelexRef? ==> n == e.telex.name
  {
    match e
    case VniRef(v) => v.name
    case TelexRef(t) => t.name
  }

  method ProcessKey(e: EngineRef, key: char, isShiftPressed: bool) returns (r: KeyResult)
    requires Valid(e) && Accepts(Value(e), key)
    modifies Repr(e)
    ensures Valid(e)
    ensures (Value(e), r) == KeyStep(old(Value(e)), key)
  {
    KeyStepInSync(Value(e), key);
    match e
    case VniRef(v) =>
      r := v.ProcessKey(key, isShiftPressed);
    case TelexRef(t) =>
      r := t.ProcessKey(key, isShiftPressed);
  }

  method ProcessBackspace(e: EngineRef) returns (absorbed: bool)
    requires Valid(e)
    modifies Repr(e)
    ensures Valid(e)
    ensures (Value(e), absorbed) == BackspaceStep(old(Value(e)))
  {
    BackspaceStepSpec(Value(e));
    match e
    case VniRef(v) =>
      absorbed := v.ProcessBackspace();
    case TelexRef(t) =>
      absorbed := t.ProcessBackspace();
  }

  method Reset(e: EngineRef)
    modifies Repr(e)
    ensures Valid(e)
    ensures Value(e) == ResetState(old(Value(e)))
  {
    match e
    case VniRef(v) =>
      v.Reset();
    case TelexRef(t) =>
      t.Reset();
  }

  method GetBuffer(e: EngineRef) returns (s: string)
    ensures s == BufferOf(Value(e))
  {
    match e
    case VniRef(v) =>
      s := v.GetBuffer();
    case TelexRef(t) =>
      s := t.GetBuffer();
  }
}
