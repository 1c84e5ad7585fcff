/**
 * The decision logic of VietIME.Hook.KeyboardHook: what the low-level keyboard callback
 * does with each event, the enable toggle with its debounce, the inactivity reset, the
 * queue of keys typed while output is being sent, and the background worker that sends
 * an edit and then drains that queue.
 *
 * The operating system is reduced to inputs: the event and its message, the modifier
 * state, the clock in milliseconds, the character VirtualKeyToChar gives for the key, and
 * whether the clipboard could be set. Everything the hook sends is appended to a log of
 * HookEvents actions. HookState is the value of the hook's fields; the class
 * KeyboardHook is proved against the functions on it.
 */
module Hook {
  import opened Wrappers
  import opened Engines
  import opened HookEvents
  import IE = InputEngine
  import Telex

  const WM_KEYDOWN: int := 0x0100
  const WM_SYSKEYDOWN: int := 0x0104
  /** The ` / ~ key. */
  const VK_OEM_3: int := 0xC0
  const BUFFER_TIMEOUT_MS: int := 2000
  const TOGGLE_DEBOUNCE_MS: int := 300

  /** KBDLLHOOKSTRUCT: the fields the callback reads. */
  datatype KeyEvent = KeyEvent(vkCode: int, scanCode: int, extraInfo: int)

  /** IsShiftPressed, IsCtrlPressed and IsAltPressed at the time of the event. */
  datatype Modifiers = Modifiers(shift: bool, ctrl: bool, alt: bool)

  /** One call of the callback. sendingInput is _isSendingInput as the call finds it: it is
   * set only while the worker is inside a send. translated is VirtualKeyToChar's result. */
  datatype HookInput = HookInput(
    nCode: int, sendingInput: bool, msg: int, ev: KeyEvent, mods: Modifiers, now: int,
    translated: Option<char>)

  datatype PendingKey = PendingKey(ch: char, isShift: bool)

  /**
   * The hook's fields. A time of None is DateTime.MinValue. inFlight is the edit the
   * callback hands to the background worker (the bs and text captured by the lambda given to Task.Run).
   */
  datatype HookState = HookState(
    enabled: bool, busy: bool, useClipboard: bool, useSelectReplace: bool,
    lastKeyTime: Option<int>, lastToggleTime: Option<int>,
    engine: Option<IE.EngineState>, pending: seq<PendingKey>, inFlight: Option<Edit>,
    log: seq<Action>)

  predicate NoBackspace(pending: seq<PendingKey>) {
    forall i | 0 <= i < |pending| :: pending[i].ch != Telex.Backspace
  }

  /** The hook's invariant: a valid engine, a queue of keys the engines accept, and a
   * worker running exactly while the busy flag is set. */
  predicate HookOk(hs: HookState) {
    && (hs.engine.Some? ==> IE.Ok(hs.engine.value))
    && NoBackspace(hs.pending)
    && (hs.busy <==> hs.inFlight.Some?)
  }

  function ResetEngine(e: Option<IE.EngineState>): Option<IE.EngineState> {
    match e
    case None => None
    case Some(es) => Some(IE.ResetState(es))
  }

  /** The IsEnabled setter: a change resets the engine, the same value changes nothing. */
  function SetEnabled(hs: HookState, value: bool): HookState {
    if hs.enabled != value then hs.(enabled := value, engine := ResetEngine(hs.engine)) else hs
  }

  /** Ctrl+` without Shift, or Shift with Ctrl. */
  predicate IsToggleChord(vk: int, mods: Modifiers) {
    (vk == VK_OEM_3 && mods.ctrl && !mods.shift) || (vk == VK_SHIFT && mods.ctrl)
  }

  /** Less than the debounce time since the last accepted toggle. */
  predicate Debounced(lastToggleTime: Option<int>, now: int) {
    lastToggleTime.Some? && now - lastToggleTime.value < TOGGLE_DEBOUNCE_MS
  }

  function Toggle(hs: HookState, now: int): HookState {
    if Debounced(hs.lastToggleTime, now) then hs
    else SetEnabled(hs.(lastToggleTime := Some(now)), !hs.enabled)
  }

  /** Keys after which the word cannot continue where it was. */
  predicate IsResetKey(vk: int) {
    vk == VK_SPACE || vk == VK_RETURN || vk == VK_TAB || vk == VK_ESCAPE || IsNavigationKey(vk)
  }

  predicate IsSpecialKey(vk: int) {
    IsResetKey(vk) || vk == VK_BACK
  }

  /** HandleSpecialKey's effect on the engine. */
  function SpecialKey(es: IE.EngineState, vk: int): IE.EngineState {
    if vk == VK_BACK then IE.BackspaceStep(es).0
    else if IsResetKey(vk) then IE.ResetState(es)
    else es
  }

  /** More than the buffer timeout since the last key that reached the check. */
  predicate TimedOut(lastKeyTime: Option<int>, now: int) {
    lastKeyTime.Some? && now - lastKeyTime.value > BUFFER_TIMEOUT_MS
  }

  /** Events the callback passes on before looking at them. */
  predicate Filtered(inp: HookInput) {
    || inp.nCode < 0 || inp.sendingInput || inp.ev.extraInfo == VIET_IME_MARKER
    || (inp.msg != WM_KEYDOWN && inp.msg != WM_SYSKEYDOWN)
  }

  /** The inactivity check: the engine is reset after a pause, and the time recorded. */
  function AfterTimeout(hs: HookState, now: int): HookState
    requires hs.engine.Some?
  {
    hs.(engine := if TimedOut(hs.lastKeyTime, now) then Some(IE.ResetState(hs.engine.value)) else hs.engine,
        lastKeyTime := Some(now))
  }

  /** The translated key: queued while busy, otherwise given to the engine. */
  function Translate(hs: HookState, ch: Option<char>, shift: bool): (HookState, bool)
    requires hs.engine.Some? && ch != Some(Telex.Backspace)
  {
    match ch
    case None => (hs, false)
    case Some(c) =>
      if hs.busy then (hs.(pending := hs.pending + [PendingKey(c, shift)]), true)
      else
        var (es, r) := IE.KeyStep(hs.engine.value, c);
        if r.handled && r.outputText.Some? then
          (hs.(engine := Some(es), busy := true, inFlight := Some(Edit(r.backspaceCount, r.outputText.value))), true)
        else (hs.(engine := Some(es)), false)
  }

  /** HookCallback: the new state, and whether the event is swallowed. */
  function Callback(hs: HookState, inp: HookInput): (HookState, bool)
    requires inp.translated != Some(Telex.Backspace)
  {
    if Filtered(inp) then (hs, false)
    else if IsToggleChord(inp.ev.vkCode, inp.mods) then (Toggle(hs, inp.now), true)
    else EngineKey(hs, inp)
  }

  /** The callback from the idle check on: a key-down that is not the toggle chord. */
  function EngineKey(hs: HookState, inp: HookInput): (HookState, bool)
    requires inp.translated != Some(Telex.Backspace)
  {
    if !hs.enabled || hs.engine.None? then (hs, false)
    else if inp.mods.ctrl || inp.mods.alt then (hs, false)
    else if IsSpecialKey(inp.ev.vkCode) then (hs.(engine := Some(SpecialKey(hs.engine.value, inp.ev.vkCode))), false)
    else Translate(AfterTimeout(hs, inp.now), inp.translated, inp.mods.shift)
  }

  /** The event reaches the engine's keys: the chord, the idle and the modifier checks all let it by. */
  predicate Active(hs: HookState, inp: HookInput) {
    && !Filtered(inp) && !IsToggleChord(inp.ev.vkCode, inp.mods)
    && hs.enabled && hs.engine.Some? && !inp.mods.ctrl && !inp.mods.alt
  }

  /**
   * The callback never sends anything itself, and changes nothing for an event it passes
   * on before the engine checks (injected, not a key-down, IME off, no engine, Ctrl or Alt
   * held): only the toggle chord and active events change state.
   */
  lemma CallbackFrame(hs: HookState, inp: HookInput)
    requires inp.translated != Some(Telex.Backspace)
    ensures var (hs', blocked) := Callback(hs, inp);
      && hs'.log == hs.log
      && hs'.useClipboard == hs.useClipboard && hs'.useSelectReplace == hs.useSelectReplace
      && (Filtered(inp) ==> hs' == hs && !blocked)
      && (!Filtered(inp) && !IsToggleChord(inp.ev.vkCode, inp.mods) && !Active(hs, inp) ==> hs' == hs && !blocked)
  {
  }

  /** The callback keeps the hook's invariant. */
  lemma CallbackKeepsOk(hs: HookState, inp: HookInput)
    requires HookOk(hs) && inp.translated != Some(Telex.Backspace)
    ensures HookOk(Callback(hs, inp).0)
  {
    if !Filtered(inp) && !IsToggleChord(inp.ev.vkCode, inp.mods) {
      EngineKeyKeepsOk(hs, inp);
    }
  }

  lemma EngineKeyKeepsOk(hs: HookState, inp: HookInput)
    requires HookOk(hs) && inp.translated != Some(Telex.Backspace)
    ensures HookOk(EngineKey(hs, inp).0)
  {
    if hs.enabled && hs.engine.Some? && !inp.mods.ctrl && !inp.mods.alt {
      if IsSpecialKey(inp.ev.vkCode) {
        IE.BackspaceStepSpec(hs.engine.value);
        IE.ResetStateSpec(hs.engine.value);
      } else {
        IE.ResetStateSpec(hs.engine.value);
        TranslateKeepsOk(AfterTimeout(hs, inp.now), inp.translated, inp.mods.shift);
      }
    }
  }

  lemma TranslateKeepsOk(hs: HookState, ch: Option<char>, shift: bool)
    requires HookOk(hs) && hs.engine.Some? && ch != Some(Telex.Backspace)
    ensures HookOk(Translate(hs, ch, shift).0)
  {
    if ch.Some? {
      if !hs.busy {
        IE.KeyStepInSync(hs.engine.value, ch.value);
      } else {
        var hs' := Translate(hs, ch, shift).0;
        assert forall i | 0 <= i < |hs.pending| :: hs'.pending[i] == hs.pending[i];
      }
    }
  }

  /**
   * The toggle chord is always swallowed. It flips the enabled flag, resets the engine and
   * records the time when the debounce time has passed since the last accepted toggle,
   * and changes nothing otherwise.
   */
  lemma ToggleChord(hs: HookState, inp: HookInput)
    requires inp.translated != Some(Telex.Backspace)
    requires !Filtered(inp) && IsToggleChord(inp.ev.vkCode, inp.mods)
    ensures var (hs', blocked) := Callback(hs, inp);
      && blocked
      && (Debounced(hs.lastToggleTime, inp.now) ==> hs' == hs)
      && (!Debounced(hs.lastToggleTime, inp.now) ==>
            hs' == hs.(enabled := !hs.enabled, lastToggleTime := Some(inp.now), engine := ResetEngine(hs.engine)))
  {
  }

  /** Setting IsEnabled to a new value resets the engine; setting it to the same value changes nothing. */
  lemma SetEnabledSpec(hs: HookState, value: bool)
    ensures var hs' := SetEnabled(hs, value);
      && hs'.enabled == value
      && (hs.enabled == value ==> hs' == hs)
      && (hs.enabled != value ==> hs' == hs.(enabled := value, engine := ResetEngine(hs.engine)))
      && (hs'.engine.Some? <==> hs.engine.Some?)
      && (hs.enabled != value && hs.engine.Some? ==> IE.BufferOf(hs'.engine.value) == "" && IE.ShownOf(hs'.engine.value) == "")
  {
  }

  /**
   * Space, Enter, Tab, Esc and the navigation keys reset the engine, and Backspace goes to
   * ProcessBackspace; all of them are then passed on to the application, and nothing else
   * changes.
   */
  lemma SpecialKeysPass(hs: HookState, inp: HookInput)
    requires inp.translated != Some(Telex.Backspace)
    requires Active(hs, inp) && IsSpecialKey(inp.ev.vkCode)
    ensures var (hs', blocked) := Callback(hs, inp);
      && !blocked
      && (inp.ev.vkCode == VK_BACK ==> hs' == hs.(engine := Some(IE.BackspaceStep(hs.engine.value).0)))
      && (inp.ev.vkCode != VK_BACK ==> hs' == hs.(engine := Some(IE.ResetState(hs.engine.value))))
  {
  }

  /**
   * Any other active key records the time, after resetting the engine when more than the
   * timeout has passed since the previous such key, whether or not it gives a character.
   * A key without a character is then passed on. While the worker is busy the character is
   * queued with its shift state and swallowed, and the engine is not called. Otherwise the
   * engine processes it, and the key is swallowed, and handed to the worker, exactly when
   * the result is handled with text.
   */
  lemma TranslatedKey(hs: HookState, inp: HookInput)
    requires inp.translated != Some(Telex.Backspace)
    requires Active(hs, inp) && !IsSpecialKey(inp.ev.vkCode)
    ensures var (hs', blocked) := Callback(hs, inp);
      var es := if TimedOut(hs.lastKeyTime, inp.now) then IE.ResetState(hs.engine.value) else hs.engine.value;
      && hs'.lastKeyTime == Some(inp.now)
      && (inp.translated.None? ==> !blocked && hs' == hs.(engine := Some(es), lastKeyTime := Some(inp.now)))
      && (inp.translated.Some? && hs.busy ==>
            && blocked
            && hs' == hs.(engine := Some(es), lastKeyTime := Some(inp.now),
                          pending := hs.pending + [PendingKey(inp.translated.value, inp.mods.shift)]))
      && (inp.translated.Some? && !hs.busy ==>
            var (es', r) := IE.KeyStep(es, inp.translated.value);
            && hs'.engine == Some(es') && hs'.pending == hs.pending
            && (blocked <==> r.handled && r.outputText.Some?)
            && (blocked ==> hs'.busy && hs'.inFlight == Some(Edit(r.backspaceCount, r.outputText.value)))
            && (!blocked ==> hs'.busy == hs.busy && hs'.inFlight == hs.inFlight))
  {
  }

  /**
   * No typed key is lost: a swallowed event other than the toggle chord either joins the
   * end of the queue or has its edit handed to the worker.
   */
  lemma SwallowedKeysKept(hs: HookState, inp: HookInput)
    requires HookOk(hs) && inp.translated != Some(Telex.Backspace)
    requires !IsToggleChord(inp.ev.vkCode, inp.mods)
    ensures var (hs', blocked) := Callback(hs, inp);
      blocked ==>
        && inp.translated.Some?
        && ((hs.busy && hs'.pending == hs.pending + [PendingKey(inp.translated.value, inp.mods.shift)])
            || (!hs.busy && hs'.busy && hs'.inFlight.Some? && hs'.pending == hs.pending))
  {
    if Active(hs, inp) && !IsSpecialKey(inp.ev.vkCode) {
      TranslatedKey(hs, inp);
    }
  }

  /**
   * The text box stays in step with the engine: when it ends with what the engine has
   * shown for the word, it still does after the callback has run on a key the engine
   * processes, once the handed-over edit is performed, or once the application has typed
   * a key that was passed on.
   */
  lemma CallbackInSync(hs: HookState, inp: HookInput, screen: string)
    requires HookOk(hs) && inp.translated != Some(Telex.Backspace)
    requires Active(hs, inp) && !IsSpecialKey(inp.ev.vkCode) && !hs.busy && inp.translated.Some?
    requires IE.EndsWith(screen, IE.ShownOf(hs.engine.value))
    ensures var (hs', blocked) := Callback(hs, inp);
      && (blocked ==>
            && 0 <= hs'.inFlight.value.backspaceCount <= |screen|
            && IE.EndsWith(Replay(screen, hs'.inFlight.value), IE.ShownOf(hs'.engine.value)))
      && (!blocked ==> IE.EndsWith(screen + [inp.translated.value], IE.ShownOf(hs'.engine.value)))
  {
    var es := if TimedOut(hs.lastKeyTime, inp.now) then IE.ResetState(hs.engine.value) else hs.engine.value;
    assert IE.EndsWith(screen, IE.ShownOf(es)) by {
      if TimedOut(hs.lastKeyTime, inp.now) {
        assert screen[|screen|..] == "";
      }
    }
    IE.ScreenStaysInSync(es, inp.translated.value, screen);
    TranslatedKey(hs, inp);
    var out := Callback(hs, inp);
    var step := IE.KeyStep(es, inp.translated.value);
    assert out.0.engine.value == step.0;
    assert out.1 ==> out.0.inFlight.value == Edit(step.1.backspaceCount, step.1.outputText.value);
    assert !out.1 ==> !step.1.handled;
  }

  /** ProcessPendingKeys: the engine, the keys left in the queue, and what was sent. */
  function Drain(engine: Option<IE.EngineState>, pending: seq<PendingKey>, useClipboard: bool, useSelectReplace: bool, clipboardOk: bool)
    : (Option<IE.EngineState>, seq<PendingKey>, seq<Action>)
    requires NoBackspace(pending)
    decreases |pending|
  {
    if |pending| == 0 then (engine, [], [])
    else if engine.None? then (engine, pending[1..], [])
    else
      var step := IE.KeyStep(engine.value, pending[0].ch);
      var tail := Drain(Some(step.0), pending[1..], useClipboard, useSelectReplace, clipboardOk);
      (tail.0, tail.1, SendFor(step.1, pending[0].ch, useClipboard, useSelectReplace, clipboardOk) + tail.2)
  }

  /** What the drain sends for one key: the engine's edit when it has one, the key itself otherwise. */
  function SendFor(r: KeyResult, ch: char, useClipboard: bool, useSelectReplace: bool, clipboardOk: bool): seq<Action> {
    if r.handled && r.outputText.Some?
    then Output(useClipboard, useSelectReplace, clipboardOk, r.backspaceCount, r.outputText.value)
    else CharDirectly(ch)
  }

  /** The background task: send the handed-over edit, drain the queue, then clear busy. */
  function Worker(hs: HookState, clipboardOk: bool): HookState
    requires hs.inFlight.Some? && NoBackspace(hs.pending)
  {
    var e := hs.inFlight.value;
    var sent := Output(hs.useClipboard, hs.useSelectReplace, clipboardOk, e.backspaceCount, e.output);
    var (es, rest, more) := Drain(hs.engine, hs.pending, hs.useClipboard, hs.useSelectReplace, clipboardOk);
    hs.(engine := es, pending := rest, log := hs.log + sent + more, busy := false, inFlight := None)
  }

  /** The engine after a sequence of keys, one at a time from the last: the reference for the drain. */
  function Typed(es: IE.EngineState, keys: seq<PendingKey>): IE.EngineState
    requires NoBackspace(keys)
    decreases |keys|
  {
    if |keys| == 0 then es
    else
      assert NoBackspace(keys[..|keys| - 1]) by {
        assert forall i | 0 <= i < |keys| - 1 :: keys[..|keys| - 1][i] == keys[i];
      }
      IE.KeyStep(Typed(es, keys[..|keys| - 1]), keys[|keys| - 1].ch).0
  }

  lemma NoBackspaceParts(a: seq<PendingKey>, b: seq<PendingKey>)
    requires NoBackspace(a + b)
    ensures NoBackspace(a) && NoBackspace(b)
  {
    assert forall i | 0 <= i < |a| :: (a + b)[i] == a[i];
    assert forall i | 0 <= i < |b| :: (a + b)[|a| + i] == b[i];
  }

  /** With an engine present the drain keeps one and leaves nothing in the queue. */
  lemma {:induction false} DrainKeepsEngine(es: IE.EngineState, a: seq<PendingKey>, uc: bool, usr: bool, ok: bool)
    requires NoBackspace(a)
    ensures Drain(Some(es), a, uc, usr, ok).0.Some? && Drain(Some(es), a, uc, usr, ok).1 == []
    decreases |a|
  {
    if |a| > 0 {
      assert NoBackspace(a[1..]) by {
        assert forall i | 0 <= i < |a| - 1 :: a[1..][i] == a[i + 1];
      }
      DrainKeepsEngine(IE.KeyStep(es, a[0].ch).0, a[1..], uc, usr, ok);
    }
  }

  /**
   * The queue is drained in order: draining a + b with an engine present is draining a
   * and then b, and whatever a sends comes before what b sends.
   */
  lemma {:induction false} DrainFifo(es: IE.EngineState, a: seq<PendingKey>, b: seq<PendingKey>, uc: bool, usr: bool, ok: bool)
    requires NoBackspace(a + b)
    ensures NoBackspace(a) && NoBackspace(b)
    ensures var da := Drain(Some(es), a, uc, usr, ok);
      var db := Drain(da.0, b, uc, usr, ok);
      Drain(Some(es), a + b, uc, usr, ok) == (db.0, db.1, da.2 + db.2)
    decreases |a|
  {
    NoBackspaceParts(a, b);
    if |a| == 0 {
      assert a + b == b;
      assert [] + Drain(Some(es), b, uc, usr, ok).2 == Drain(Some(es), b, uc, usr, ok).2;
    } else {
      TailOfAppend(a, b);
      var step := IE.KeyStep(es, a[0].ch);
      DrainCons(es, a, uc, usr, ok);
      DrainCons(es, a + b, uc, usr, ok);
      DrainFifo(step.0, a[1..], b, uc, usr, ok);
      var da := Drain(Some(step.0), a[1..], uc, usr, ok);
      var db := Drain(da.0, b, uc, usr, ok);
      AppendAssoc(SendFor(step.1, a[0].ch, uc, usr, ok), da.2, db.2);
    }
  }

  lemma TailOfAppend(a: seq<PendingKey>, b: seq<PendingKey>)
    requires |a| > 0
    ensures (a + b)[0] == a[0] && (a + b)[1..] == a[1..] + b
  {
  }

  lemma NoBackspaceTail(p: seq<PendingKey>)
    requires NoBackspace(p) && |p| > 0
    ensures NoBackspace(p[1..])
  {
    assert forall i | 0 <= i < |p| - 1 :: p[1..][i] == p[i + 1];
  }

  /** One unfolding of the drain with an engine present. */
  lemma DrainCons(es: IE.EngineState, p: seq<PendingKey>, uc: bool, usr: bool, ok: bool)
    requires |p| > 0 && NoBackspace(p)
    ensures NoBackspace(p[1..])
    ensures var step := IE.KeyStep(es, p[0].ch);
      var tail := Drain(Some(step.0), p[1..], uc, usr, ok);
      Drain(Some(es), p, uc, usr, ok) == (tail.0, tail.1, SendFor(step.1, p[0].ch, uc, usr, ok) + tail.2)
  {
    NoBackspaceTail(p);
  }

  lemma AppendAssoc(x: seq<Action>, y: seq<Action>, z: seq<Action>)
    ensures x + (y + z) == (x + y) + z
  {
  }

  /**
   * With an engine present every queued key is put through ProcessKey exactly once, in
   * the order it was typed: the drain leaves the queue empty and the engine as the keys
   * typed one after the other leave it.
   */
  lemma {:induction false} DrainTypesAll(es: IE.EngineState, keys: seq<PendingKey>, uc: bool, usr: bool, ok: bool)
    requires NoBackspace(keys)
    ensures var (e', rest, _) := Drain(Some(es), keys, uc, usr, ok);
      e' == Some(Typed(es, keys)) && rest == []
    decreases |keys|
  {
    if |keys| > 0 {
      var n := |keys| - 1;
      var init, last := keys[..n], keys[n];
      assert keys == init + [last];
      DrainFifo(es, init, [last], uc, usr, ok);
      DrainTypesAll(es, init, uc, usr, ok);
      var t := Typed(es, init);
      assert [last][1..] == [];
    }
  }

  /**
   * The drain loop's invariant: draining the rest of the queue from the current engine
   * ends where draining the whole queue does, and what has been sent followed by what the
   * rest sends is what the whole drain sends.
   */
  predicate DrainsTo(engine: Option<IE.EngineState>, pending: seq<PendingKey>, sent: seq<Action>,
                     target: (Option<IE.EngineState>, seq<PendingKey>, seq<Action>), sent0: seq<Action>,
                     uc: bool, usr: bool, ok: bool)
    requires NoBackspace(pending)
  {
    var d := Drain(engine, pending, uc, usr, ok);
    d.0 == target.0 && d.1 == target.1 && sent + d.2 == sent0 + target.2
  }

  /**
   * One turn of the loop keeps the invariant: without an engine the loop stops with the
   * drain's result, otherwise the first key's step and sends lead to the rest of the drain.
   */
  lemma DrainTurn(engine: Option<IE.EngineState>, pending: seq<PendingKey>, sent: seq<Action>,
                  target: (Option<IE.EngineState>, seq<PendingKey>, seq<Action>), sent0: seq<Action>,
                  uc: bool, usr: bool, ok: bool)
    requires NoBackspace(pending) && |pending| > 0
    requires DrainsTo(engine, pending, sent, target, sent0, uc, usr, ok)
    ensures pending[0].ch != Telex.Backspace && NoBackspace(pending[1..])
    ensures engine.None? ==> (engine, pending[1..], sent) == (target.0, target.1, sent0 + target.2)
    ensures engine.Some? ==> var step := IE.KeyStep(engine.value, pending[0].ch);
      DrainsTo(Some(step.0), pending[1..], sent + SendFor(step.1, pending[0].ch, uc, usr, ok), target, sent0, uc, usr, ok)
  {
    NoBackspaceTail(pending);
    if engine.None? {
      assert sent + [] == sent;
    } else {
      DrainCons(engine.value, pending, uc, usr, ok);
      var step := IE.KeyStep(engine.value, pending[0].ch);
      var tail := Drain(Some(step.0), pending[1..], uc, usr, ok);
      AppendAssoc(sent, SendFor(step.1, pending[0].ch, uc, usr, ok), tail.2);
    }
  }

  /** When the queue is empty the invariant is the drain's result. */
  lemma DrainDone(engine: Option<IE.EngineState>, pending: seq<PendingKey>, sent: seq<Action>,
                  target: (Option<IE.EngineState>, seq<PendingKey>, seq<Action>), sent0: seq<Action>,
                  uc: bool, usr: bool, ok: bool)
    requires NoBackspace(pending)
    requires |pending| == 0 ==> DrainsTo(engine, pending, sent, target, sent0, uc, usr, ok)
    requires |pending| > 0 ==> (engine, pending, sent) == (target.0, target.1, sent0 + target.2)
    ensures (engine, pending, sent) == (target.0, target.1, sent0 + target.2)
  {
    if |pending| == 0 {
      assert sent + [] == sent;
    }
  }

  /** Without an engine the drain takes the first key off the queue, drops it, and stops. */
  lemma DrainWithoutEngine(pending: seq<PendingKey>, uc: bool, usr: bool, ok: bool)
    requires NoBackspace(pending) && |pending| > 0
    ensures Drain(None, pending, uc, usr, ok) == (None, pending[1..], [])
  {
  }

  /**
   * The drain keeps the text box in step with the engine: typing the queued keys, each
   * either as the engine's edit or as the key itself, leaves a text box that ends with
   * what the engine shows, provided the clipboard can be set whenever it is used.
   */
  lemma {:induction false} DrainInSync(es: IE.EngineState, keys: seq<PendingKey>, uc: bool, usr: bool, f: TextField)
    requires IE.Ok(es) && NoBackspace(keys)
    requires FieldOk(f) && f.selected == 0 && !f.shift && IE.EndsWith(f.text, IE.ShownOf(es))
    ensures var (e', _, sent) := Drain(Some(es), keys, uc, usr, true);
      var f' := Perform(f, sent);
      && e'.Some? && IE.Ok(e'.value) && FieldOk(f') && f'.selected == 0 && !f'.shift && IE.EndsWith(f'.text, IE.ShownOf(e'.value))
    decreases |keys|
  {
    if |keys| > 0 {
      var c := keys[0].ch;
      var (es1, r) := IE.KeyStep(es, c);
      var sent := SendFor(r, c, uc, usr, true);
      KeyInSync(es, c, uc, usr, f);
      var f1 := Perform(f, sent);
      assert NoBackspace(keys[1..]) by {
        assert forall i | 0 <= i < |keys| - 1 :: keys[1..][i] == keys[i + 1];
      }
      DrainInSync(es1, keys[1..], uc, usr, f1);
      var (e', rest, more) := Drain(Some(es1), keys[1..], uc, usr, true);
      PerformAppend(f, sent, more);
    }
  }

  /** One queued key: what the drain sends for it keeps the text box in step with the engine. */
  lemma KeyInSync(es: IE.EngineState, c: char, uc: bool, usr: bool, f: TextField)
    requires IE.Ok(es) && c != Telex.Backspace
    requires FieldOk(f) && f.selected == 0 && !f.shift && IE.EndsWith(f.text, IE.ShownOf(es))
    ensures var (es1, r) := IE.KeyStep(es, c);
      var f1 := Perform(f, SendFor(r, c, uc, usr, true));
      && IE.Ok(es1) && FieldOk(f1) && f1.selected == 0 && !f1.shift && IE.EndsWith(f1.text, IE.ShownOf(es1))
  {
    IE.KeyStepInSync(es, c);
    IE.ScreenStaysInSync(es, c, f.text);
    var step := IE.KeyStep(es, c);
    SendInSync(f, c, step.1, IE.ShownOf(step.0), uc, usr);
  }

  /**
   * The sends for one key result, performed on the text box: a handled edit that leaves
   * the text ending with shown, or a key typed as it is after which it does, keep the
   * text box in step.
   */
  lemma SendInSync(f: TextField, c: char, r: KeyResult, shown: string, uc: bool, usr: bool)
    requires FieldOk(f) && f.selected == 0 && !f.shift && WellFormed(r)
    requires r.handled ==>
      && 0 <= r.backspaceCount <= |f.text|
      && IE.EndsWith(Replay(f.text, Edit(r.backspaceCount, r.outputText.value)), shown)
    requires !r.handled ==> IE.EndsWith(f.text + [c], shown)
    ensures var f1 := Perform(f, SendFor(r, c, uc, usr, true));
      && FieldOk(f1) && f1.selected == 0 && !f1.shift && IE.EndsWith(f1.text, shown)
  {
    if r.handled {
      OutputEdits(uc, usr, f, r.backspaceCount, r.outputText.value);
    } else {
      CharDirectlyTypes(f, c);
    }
  }

  /**
   * The worker finishes the hand-over: once it has run, nothing is in flight, busy is
   * clear, the edit's actions come first in the log, and the queue is empty when there is
   * an engine.
   */
  lemma WorkerKeepsOk(hs: HookState, clipboardOk: bool)
    requires HookOk(hs) && hs.busy
    ensures HookOk(Worker(hs, clipboardOk))
  {
    if hs.engine.Some? {
      DrainInvariant(hs.engine.value, hs.pending, hs.useClipboard, hs.useSelectReplace, clipboardOk);
      DrainKeepsEngine(hs.engine.value, hs.pending, hs.useClipboard, hs.useSelectReplace, clipboardOk);
    } else if |hs.pending| > 0 {
      NoBackspaceTail(hs.pending);
    }
  }

  lemma WorkerSpec(hs: HookState, clipboardOk: bool)
    requires HookOk(hs) && hs.busy
    ensures var hs' := Worker(hs, clipboardOk);
      var e := hs.inFlight.value;
      && HookOk(hs') && !hs'.busy && hs'.inFlight.None?
      && hs'.log[..|hs.log|] == hs.log
      && hs'.log[|hs.log|..][..|Output(hs.useClipboard, hs.useSelectReplace, clipboardOk, e.backspaceCount, e.output)|]
         == Output(hs.useClipboard, hs.useSelectReplace, clipboardOk, e.backspaceCount, e.output)
      && (hs.engine.Some? ==> hs'.pending == [] && hs'.engine == Some(Typed(hs.engine.value, hs.pending)))
      && (hs.engine.None? && |hs.pending| > 0 ==> hs'.pending == hs.pending[1..])
      && hs'.enabled == hs.enabled && hs'.lastKeyTime == hs.lastKeyTime && hs'.lastToggleTime == hs.lastToggleTime
  {
    var e := hs.inFlight.value;
    var sent := Output(hs.useClipboard, hs.useSelectReplace, clipboardOk, e.backspaceCount, e.output);
    var (es, rest, more) := Drain(hs.engine, hs.pending, hs.useClipboard, hs.useSelectReplace, clipboardOk);
    if hs.engine.Some? {
      DrainTypesAll(hs.engine.value, hs.pending, hs.useClipboard, hs.useSelectReplace, clipboardOk);
      DrainInvariant(hs.engine.value, hs.pending, hs.useClipboard, hs.useSelectReplace, clipboardOk);
    } else if |hs.pending| > 0 {
      NoBackspaceTail(hs.pending);
    }
    LogParts(hs.log, sent, more);
  }

  lemma LogParts(log: seq<Action>, sent: seq<Action>, more: seq<Action>)
    ensures (log + sent + more)[..|log|] == log && (log + sent + more)[|log|..][..|sent|] == sent
  {
    var all := log + sent + more;
    assert all[..|log|] == log;
    assert all[|log|..][..|sent|] == sent;
  }

  /** The drain keeps the engine valid. */
  lemma {:induction false} DrainInvariant(es: IE.EngineState, keys: seq<PendingKey>, uc: bool, usr: bool, ok: bool)
    requires IE.Ok(es) && NoBackspace(keys)
    ensures var (e', _, _) := Drain(Some(es), keys, uc, usr, ok); e'.Some? && IE.Ok(e'.value)
    decreases |keys|
  {
    if |keys| > 0 {
      IE.KeyStepInSync(es, keys[0].ch);
      NoBackspaceTail(keys);
      DrainInvariant(IE.KeyStep(es, keys[0].ch).0, keys[1..], uc, usr, ok);
    }
  }

  /** The hook before any event: enabled, no engine, the select-and-replace method. */
  function Initial(): (hs: HookState)
    ensures HookOk(hs) && hs.enabled && !hs.busy && hs.useClipboard && hs.useSelectReplace
    ensures hs.engine.None? && hs.pending == [] && hs.log == []
    ensures hs.lastKeyTime.None? && hs.lastToggleTime.None?
  {
    HookState(true, false, true, true, None, None, None, [], None, [])
  }

  /**
   * The hook object. The engine it drives is held by value: the state of the engine
   * object, changed by the same functions the engine classes are proved against. sent is
   * what the hook has handed to SetClipboardText and SendInput, in order; inFlight is the
   * edit captured by the lambda the callback gives to Task.Run.
   */
  class KeyboardHook {
    var engine: Option<IE.EngineState>
    var isEnabled: bool
    var isBusySending: bool
    var useClipboardMethod: bool
    var useSelectReplace: bool
    var lastKeyTime: Option<int>
    var lastToggleTime: Option<int>
    var pendingKeys: seq<PendingKey>
    var inFlight: Option<Edit>
    var sent: seq<Action>

    function State(): HookState
      reads this
    {
      HookState(isEnabled, isBusySending, useClipboardMethod, useSelectReplace, lastKeyTime, lastToggleTime,
                engine, pendingKeys, inFlight, sent)
    }

    predicate Valid()
      reads this
    {
      HookOk(State())
    }

    constructor()
      ensures Valid() && State() == Initial()
    {
      engine := None;
      isEnabled := true;
      isBusySending := false;
      useClipboardMethod := true;
      useSelectReplace := true;
      lastKeyTime := None;
      lastToggleTime := None;
      pendingKeys := [];
      inFlight := None;
      sent := [];
    }

    /** The IsEnabled setter. */
    method SetIsEnabled(value: bool)
      modifies this`isEnabled, this`engine
      ensures State() == SetEnabled(old(State()), value)
    {
      if isEnabled != value {
        isEnabled := value;
        if engine.Some? {
          engine := Some(IE.ResetState(engine.value));
        }
      }
    }

    /**
     * The Engine setter. The engine being replaced is reset first; as it is not used
     * again, only the new engine's state remains.
     */
    method SetEngine(value: Option<IE.EngineState>)
      modifies this`engine
      ensures engine == value
    {
      if engine.Some? {
        engine := Some(IE.ResetState(engine.value));
      }
      engine := value;
    }

    /** The UseClipboardMethod setter. */
    method SetUseClipboardMethod(value: bool)
      modifies this`useClipboardMethod
      ensures useClipboardMethod == value
    {
      useClipboardMethod := value;
    }

    method TryToggle(now: int) returns (swallowed: bool)
      modifies this`isEnabled, this`engine, this`lastToggleTime
      ensures swallowed && State() == Toggle(old(State()), now)
    {
      if Debounced(lastToggleTime, now) {
        return true;
      }
      lastToggleTime := Some(now);
      SetIsEnabled(!isEnabled);
      return true;
    }

    method HandleToggleHotkey(vk: int, mods: Modifiers, now: int) returns (swallowed: bool)
      modifies this`isEnabled, this`engine, this`lastToggleTime
      ensures swallowed == IsToggleChord(vk, mods)
      ensures State() == if swallowed then Toggle(old(State()), now) else old(State())
    {
      if vk == VK_OEM_3 && mods.ctrl && !mods.shift {
        swallowed := TryToggle(now);
        return;
      }
      if vk == VK_SHIFT && mods.ctrl {
        swallowed := TryToggle(now);
        return;
      }
      return false;
    }

    method HandleSpecialKey(vk: int) returns (special: bool)
      modifies this`engine
      ensures special == IsSpecialKey(vk)
      ensures engine == if special && old(engine).Some? then Some(SpecialKey(old(engine).value, vk)) else old(engine)
    {
      if vk == VK_SPACE || vk == VK_RETURN || vk == VK_TAB || vk == VK_ESCAPE {
        if engine.Some? {
          engine := Some(IE.ResetState(engine.value));
        }
        return true;
      }
      if vk == VK_BACK {
        if engine.Some? {
          var (es, _) := IE.BackspaceStep(engine.value);
          engine := Some(es);
        }
        return true;
      }
      if IsNavigationKey(vk) {
        if engine.Some? {
          engine := Some(IE.ResetState(engine.value));
        }
        return true;
      }
      return false;
    }

    /** HookCallback: true when the event is swallowed, false when it goes to the next hook. */
    method HookCallback(inp: HookInput) returns (blocked: bool)
      requires Valid() && inp.translated != Some(Telex.Backspace)
      modifies this
      ensures Valid() && (State(), blocked) == Callback(old(State()), inp)
    {
      CallbackKeepsOk(State(), inp);
      if inp.nCode < 0 || inp.sendingInput {
        return false;
      }
      if inp.ev.extraInfo == VIET_IME_MARKER {
        return false;
      }
      if inp.msg != WM_KEYDOWN && inp.msg != WM_SYSKEYDOWN {
        return false;
      }
      var toggled := HandleToggleHotkey(inp.ev.vkCode, inp.mods, inp.now);
      if toggled {
        return true;
      }
      blocked := HandleEngineKey(inp);
    }

    /** HookCallback after the toggle check: the idle, modifier and special-key checks, then the key. */
    method HandleEngineKey(inp: HookInput) returns (blocked: bool)
      requires inp.translated != Some(Telex.Backspace)
      modifies this`engine, this`lastKeyTime, this`pendingKeys, this`isBusySending, this`inFlight
      ensures (State(), blocked) == EngineKey(old(State()), inp)
    {
      if !isEnabled || engine.None? {
        return false;
      }
      if inp.mods.ctrl || inp.mods.alt {
        return false;
      }
      var special := HandleSpecialKey(inp.ev.vkCode);
      if special {
        return false;
      }
      blocked := HandleTypedKey(inp.translated, inp.mods.shift, inp.now);
    }

    /** The rest of HookCallback, from the timeout check on. */
    method HandleTypedKey(ch: Option<char>, shift: bool, now: int) returns (blocked: bool)
      requires engine.Some? && ch != Some(Telex.Backspace)
      modifies this`engine, this`lastKeyTime, this`pendingKeys, this`isBusySending, this`inFlight
      ensures (State(), blocked) == Translate(AfterTimeout(old(State()), now), ch, shift)
    {
      if TimedOut(lastKeyTime, now) {
        engine := Some(IE.ResetState(engine.value));
      }
      lastKeyTime := Some(now);
      if ch.None? {
        return false;
      }
      if isBusySending {
        pendingKeys := pendingKeys + [PendingKey(ch.value, shift)];
        return true;
      }
      var (es, result) := IE.KeyStep(engine.value, ch.value);
      engine := Some(es);
      if result.handled && result.outputText.Some? {
        isBusySending := true;
        inFlight := Some(Edit(result.backspaceCount, result.outputText.value));
        return true;
      }
      return false;
    }

    /** The body the callback gives to Task.Run: send the edit, then drain the queue, then clear busy. */
    method RunWorker(clipboardOk: bool)
      requires Valid() && isBusySending
      modifies this
      ensures Valid() && State() == Worker(old(State()), clipboardOk)
    {
      WorkerKeepsOk(State(), clipboardOk);
      var e := inFlight.value;
      SendOutput(e.backspaceCount, e.output, clipboardOk);
      ProcessPendingKeys(clipboardOk);
      isBusySending := false;
      inFlight := None;
    }

    method ProcessPendingKeys(clipboardOk: bool)
      requires NoBackspace(pendingKeys)
      modifies this`engine, this`pendingKeys, this`sent
      ensures (engine, pendingKeys, sent) ==
        var d := Drain(old(engine), old(pendingKeys), useClipboardMethod, useSelectReplace, clipboardOk);
        (d.0, d.1, old(sent) + d.2)
    {
      ghost var target := Drain(engine, pendingKeys, useClipboardMethod, useSelectReplace, clipboardOk);
      while |pendingKeys| > 0
        invariant NoBackspace(pendingKeys)
        invariant DrainsTo(engine, pendingKeys, sent, target, old(sent), useClipboardMethod, useSelectReplace, clipboardOk)
        decreases |pendingKeys|
      {
        ghost var e0, p0, sent0 := engine, pendingKeys, sent;
        var pending := pendingKeys[0];
        pendingKeys := pendingKeys[1..];
        DrainTurn(e0, p0, sent0, target, old(sent), useClipboardMethod, useSelectReplace, clipboardOk);
        if engine.None? {
          break;
        }
        TypeQueuedKey(pending.ch, clipboardOk);
      }
      DrainDone(engine, pendingKeys, sent, target, old(sent), useClipboardMethod, useSelectReplace, clipboardOk);
    }

    /** One queued key: the engine's step, then its edit or the key itself. */
    method TypeQueuedKey(ch: char, clipboardOk: bool)
      requires engine.Some? && ch != Telex.Backspace
      modifies this`engine, this`sent
      ensures var step := IE.KeyStep(old(engine).value, ch);
        engine == Some(step.0) && sent == old(sent) + SendFor(step.1, ch, useClipboardMethod, useSelectReplace, clipboardOk)
    {
      var (es, result) := IE.KeyStep(engine.value, ch);
      engine := Some(es);
      if result.handled && result.outputText.Some? {
        SendOutput(result.backspaceCount, result.outputText.value, clipboardOk);
      } else {
        SendCharDirectly(ch);
      }
    }

    /** The sends of one handled key, by the configured method. */
    method SendOutput(backspaceCount: int, text: string, clipboardOk: bool)
      modifies this`sent
      ensures sent == old(sent) + Output(useClipboardMethod, useSelectReplace, clipboardOk, backspaceCount, text)
    {
      if useClipboardMethod {
        if useSelectReplace {
          SendViaSelectReplace(backspaceCount, text, clipboardOk);
        } else {
          SendViaClipboard(backspaceCount, text, clipboardOk);
        }
      } else {
        SendBackspaces(backspaceCount);
        SendUnicodeString(text);
      }
    }

    /** One SendInput call. */
    method SendInput(inputs: seq<KeyInput>)
      modifies this`sent
      ensures sent == old(sent) + [Send(inputs)]
    {
      sent := sent + [Send(inputs)];
    }

    /** SetClipboardText, whose outcome after its retries is clipboardOk. */
    method SetClipboardText(text: string, clipboardOk: bool) returns (ok: bool)
      modifies this`sent
      ensures ok == clipboardOk
      ensures sent == old(sent) + (if ok then [Clipboard(text)] else [])
    {
      if clipboardOk {
        sent := sent + [Clipboard(text)];
      }
      return clipboardOk;
    }

    method SendViaSelectReplace(backspaceCount: int, text: string, clipboardOk: bool)
      modifies this`sent
      ensures sent == old(sent) + SelectReplace(clipboardOk, backspaceCount, text)
    {
      var ok := SetClipboardText(text, clipboardOk);
      if !ok {
        return;
      }
      ghost var afterClipboard := sent;
      if backspaceCount > 0 {
        SendInput([MakeKeyInput(VK_SHIFT, false)]);
        var leftInputs := FillPairs(VK_LEFT, backspaceCount);
        SendInput(leftInputs[..]);
        SendInput([MakeKeyInput(VK_SHIFT, true)]);
      }
      var pasteInputs := new KeyInput[4];
      pasteInputs[0] := MakeKeyInput(VK_CONTROL, false);
      pasteInputs[1] := MakeKeyInput(VK_V, false);
      pasteInputs[2] := MakeKeyInput(VK_V, true);
      pasteInputs[3] := MakeKeyInput(VK_CONTROL, true);
      assert pasteInputs[..] == PasteInputs();
      SendInput(pasteInputs[..]);
    }

    method SendViaClipboard(backspaceCount: int, text: string, clipboardOk: bool)
      modifies this`sent
      ensures sent == old(sent) + ViaClipboard(clipboardOk, backspaceCount, text)
    {
      var ok := SetClipboardText(text, clipboardOk);
      if !ok {
        return;
      }
      if backspaceCount > 0 {
        var bsInputs := FillPairs(VK_BACK, backspaceCount);
        SendInput(bsInputs[..]);
      }
      var pasteInputs := new KeyInput[4];
      pasteInputs[0] := MakeKeyInput(VK_CONTROL, false);
      pasteInputs[1] := MakeKeyInput(VK_V, false);
      pasteInputs[2] := MakeKeyInput(VK_V, true);
      pasteInputs[3] := MakeKeyInput(VK_CONTROL, true);
      assert pasteInputs[..] == PasteInputs();
      SendInput(pasteInputs[..]);
    }

    method SendBackspaces(count: int)
      modifies this`sent
      ensures sent == old(sent) + Backspaces(count)
    {
      if count <= 0 {
        return;
      }
      var inputs := FillPairs(VK_BACK, count);
      SendInput(inputs[..]);
    }

    method SendUnicodeString(text: string)
      modifies this`sent
      ensures sent == old(sent) + UnicodeString(text)
    {
      if |text| == 0 {
        assert sent + [] == sent;
        return;
      }
      var inputs := new KeyInput[|text| * 2];
      var i := 0;
      while i < |text|
        invariant 0 <= i <= |text|
        invariant inputs[..2 * i] == UnicodeInputs(text[..i])
        invariant sent == old(sent)
      {
        inputs[i * 2] := UnicodeInput(text[i], false);
        inputs[i * 2 + 1] := UnicodeInput(text[i], true);
        assert text[..i + 1][..i] == text[..i];
        assert inputs[..2 * (i + 1)] == inputs[..2 * i] + [inputs[2 * i], inputs[2 * i + 1]];
        i := i + 1;
      }
      assert text[..|text|] == text;
      assert inputs[..] == inputs[..2 * |text|];
      assert inputs[..] == UnicodeInputs(text);
      SendInput(inputs[..]);
    }

    /** SendCharDirectly: one call of the character's down and up events. */
    method SendCharDirectly(ch: char)
      modifies this`sent
      ensures sent == old(sent) + CharDirectly(ch)
    {
      var inputs := new KeyInput[2];
      inputs[0] := UnicodeInput(ch, false);
      inputs[1] := UnicodeInput(ch, true);
      assert [ch][..0] == [];
      assert inputs[..] == UnicodeInputs([ch]);
      SendInput(inputs[..]);
    }
  }

  /** The array the Left and Backspace loops fill: count down/up pairs of vk. */
  method FillPairs(vk: int, count: nat) returns (inputs: array<KeyInput>)
    ensures fresh(inputs) && inputs[..] == Pairs(vk, count)
  {
    inputs := new KeyInput[count * 2];
    var i := 0;
    while i < count
      invariant 0 <= i <= count
      invariant inputs[..2 * i] == Pairs(vk, i)
    {
      inputs[i * 2] := MakeKeyInput(vk, false);
      inputs[i * 2 + 1] := MakeKeyInput(vk, true);
      assert inputs[..2 * (i + 1)] == inputs[..2 * i] + [inputs[2 * i], inputs[2 * i + 1]];
      i := i + 1;
    }
    assert inputs[..] == inputs[..2 * count];
  }
}
