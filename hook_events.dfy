/**
 * The keyboard input the hook synthesizes (KeyboardHook.MakeKeyInput and the Send*
 * methods), as values: each SendInput call is one Send of KEYBDINPUT records, and a
 * successful SetClipboardText is a Clipboard action. The Win32 constants are those of
 * the Windows SDK headers (WinUser.h).
 *
 * TextField is an idealised application text box with the cursor at the end of the
 * text: it states what the hook's sequences are meant to do to the text, and the lemmas
 * prove that the three output methods all perform the engine's edit.
 */
module HookEvents {
  const VK_BACK: int := 0x08
  const VK_TAB: int := 0x09
  const VK_RETURN: int := 0x0D
  const VK_SHIFT: int := 0x10
  const VK_CONTROL: int := 0x11
  const VK_ESCAPE: int := 0x1B
  const VK_SPACE: int := 0x20
  const VK_PRIOR: int := 0x21
  const VK_NEXT: int := 0x22
  const VK_END: int := 0x23
  const VK_HOME: int := 0x24
  const VK_LEFT: int := 0x25
  const VK_UP: int := 0x26
  const VK_RIGHT: int := 0x27
  const VK_DOWN: int := 0x28
  const VK_DELETE: int := 0x2E
  const VK_V: int := 0x56

  const KEYEVENTF_EXTENDEDKEY: bv32 := 0x1
  const KEYEVENTF_KEYUP: bv32 := 0x2
  const KEYEVENTF_UNICODE: bv32 := 0x4

  /** The dwExtraInfo the hook stamps on its own input ("VIME"). */
  const VIET_IME_MARKER: int := 0x56494D45

  /** KEYBDINPUT, without the time field, which is always 0. */
  datatype KeyInput = KeyInput(vk: int, scan: int, flags: bv32, extraInfo: int)

  datatype Action =
    | Clipboard(text: string)
    | Send(inputs: seq<KeyInput>)

  predicate IsKeyUp(k: KeyInput) {
    k.flags & KEYEVENTF_KEYUP != 0
  }

  predicate IsExtended(k: KeyInput) {
    k.flags & KEYEVENTF_EXTENDEDKEY != 0
  }

  predicate IsUnicode(k: KeyInput) {
    k.flags & KEYEVENTF_UNICODE != 0
  }

  /** The keys MakeKeyInput marks as extended. */
  predicate IsNavigationKey(vk: int) {
    vk == VK_LEFT || vk == VK_RIGHT || vk == VK_UP || vk == VK_DOWN || vk == VK_HOME
    || vk == VK_END || vk == VK_PRIOR || vk == VK_NEXT || vk == VK_DELETE
  }

  /**
   * A virtual-key event carrying the marker: key-up exactly when asked, extended exactly
   * for the navigation keys, never a Unicode event.
   */
  function MakeKeyInput(vk: int, keyUp: bool): (k: KeyInput)
    ensures k.vk == vk && k.scan == 0 && k.extraInfo == VIET_IME_MARKER
    ensures IsKeyUp(k) <==> keyUp
    ensures IsExtended(k) <==> IsNavigationKey(vk)
    ensures !IsUnicode(k)
  {
    var up: bv32 := if keyUp then KEYEVENTF_KEYUP else 0;
    var ext: bv32 := if IsNavigationKey(vk) then KEYEVENTF_EXTENDEDKEY else 0;
    KeyInput(vk, 0, up | ext, VIET_IME_MARKER)
  }

  /** A Unicode event for one character, as SendCharDirectly and SendUnicodeString build it. */
  function UnicodeInput(ch: char, keyUp: bool): (k: KeyInput)
    ensures k.vk == 0 && k.scan == ch as int && k.extraInfo == VIET_IME_MARKER
    ensures IsUnicode(k) && (IsKeyUp(k) <==> keyUp) && !IsExtended(k)
  {
    KeyInput(0, ch as int, if keyUp then KEYEVENTF_UNICODE | KEYEVENTF_KEYUP else KEYEVENTF_UNICODE, VIET_IME_MARKER)
  }

  /** The array the Send* loops fill: count down/up pairs of one key. */
  function Pairs(vk: int, count: nat): seq<KeyInput> {
    if count == 0 then [] else Pairs(vk, count - 1) + [MakeKeyInput(vk, false), MakeKeyInput(vk, true)]
  }

  function PasteInputs(): seq<KeyInput> {
    [MakeKeyInput(VK_CONTROL, false), MakeKeyInput(VK_V, false), MakeKeyInput(VK_V, true), MakeKeyInput(VK_CONTROL, true)]
  }

  /** SendViaSelectReplace: select the old text with Shift+Left, then paste over it. */
  function SelectReplace(clipboardOk: bool, backspaceCount: int, text: string): seq<Action> {
    if !clipboardOk then []
    else
      [Clipboard(text)]
      + (if backspaceCount > 0 then
           [Send([MakeKeyInput(VK_SHIFT, false)]), Send(Pairs(VK_LEFT, backspaceCount)), Send([MakeKeyInput(VK_SHIFT, true)])]
         else [])
      + [Send(PasteInputs())]
  }

  /** SendViaClipboard: erase the old text with backspaces, then paste. */
  function ViaClipboard(clipboardOk: bool, backspaceCount: int, text: string): seq<Action> {
    if !clipboardOk then []
    else
      [Clipboard(text)]
      + (if backspaceCount > 0 then [Send(Pairs(VK_BACK, backspaceCount))] else [])
      + [Send(PasteInputs())]
  }

  /** SendBackspaces. */
  function Backspaces(count: int): seq<Action> {
    if count <= 0 then [] else [Send(Pairs(VK_BACK, count))]
  }

  /** The array SendUnicodeString fills: a down/up pair per character. */
  function UnicodeInputs(text: string): seq<KeyInput> {
    if |text| == 0 then [] else UnicodeInputs(text[..|text| - 1]) + [UnicodeInput(text[|text| - 1], false), UnicodeInput(text[|text| - 1], true)]
  }

  /** SendUnicodeString. */
  function UnicodeString(text: string): seq<Action> {
    if |text| == 0 then [] else [Send(UnicodeInputs(text))]
  }

  /** SendCharDirectly. */
  function CharDirectly(ch: char): seq<Action> {
    [Send(UnicodeInputs([ch]))]
  }

  /** The output of one handled key, by the configured method (the body of the worker). */
  function Output(useClipboard: bool, useSelectReplace: bool, clipboardOk: bool, backspaceCount: int, text: string): seq<Action> {
    if useClipboard then
      if useSelectReplace then SelectReplace(clipboardOk, backspaceCount, text)
      else ViaClipboard(clipboardOk, backspaceCount, text)
    else Backspaces(backspaceCount) + UnicodeString(text)
  }

  /**
   * The pairs the loops fill: 2·count events of the one key, alternately down and up,
   * all with the marker, extended exactly for a navigation key.
   */
  lemma {:induction false} PairsShape(vk: int, count: nat)
    ensures var p := Pairs(vk, count);
      && |p| == 2 * count
      && forall i | 0 <= i < |p| ::
           && p[i].vk == vk && p[i].scan == 0 && p[i].extraInfo == VIET_IME_MARKER
           && (IsKeyUp(p[i]) <==> i % 2 == 1)
           && (IsExtended(p[i]) <==> IsNavigationKey(vk))
           && !IsUnicode(p[i])
  {
    if count > 0 {
      PairsShape(vk, count - 1);
      var q := Pairs(vk, count - 1);
      assert forall i | 0 <= i < |q| :: Pairs(vk, count)[i] == q[i];
    }
  }

  /** Two events per character, down then up, each carrying that character. */
  lemma {:induction false} UnicodeInputsShape(text: string)
    ensures var u := UnicodeInputs(text);
      && |u| == 2 * |text|
      && forall i | 0 <= i < |u| ::
           && u[i].vk == 0 && u[i].scan == text[i / 2] as int && u[i].extraInfo == VIET_IME_MARKER
           && IsUnicode(u[i]) && !IsExtended(u[i]) && (IsKeyUp(u[i]) <==> i % 2 == 1)
  {
    if |text| > 0 {
      var t := text[..|text| - 1];
      UnicodeInputsShape(t);
      var q := UnicodeInputs(t);
      assert forall i | 0 <= i < |q| :: UnicodeInputs(text)[i] == q[i] && t[i / 2] == text[i / 2];
    }
  }

  /**
   * Select-and-replace sends nothing when the clipboard cannot be set. Otherwise, after
   * setting it, it sends Shift down, the Left pairs and Shift up as three separate calls
   * when there is something to select, and then one call of Ctrl down, V down, V up,
   * Ctrl up.
   */
  lemma SelectReplaceShape(clipboardOk: bool, backspaceCount: int, text: string)
    ensures var a := SelectReplace(clipboardOk, backspaceCount, text);
      && (!clipboardOk ==> a == [])
      && (clipboardOk && backspaceCount <= 0 ==> a == [Clipboard(text), Send(PasteInputs())])
      && (clipboardOk && backspaceCount > 0 ==>
            && |a| == 5 && a[0] == Clipboard(text)
            && a[1].Send? && |a[1].inputs| == 1 && a[1].inputs[0].vk == VK_SHIFT && !IsKeyUp(a[1].inputs[0])
            && a[2].Send? && |a[2].inputs| == 2 * backspaceCount
            && (forall i | 0 <= i < |a[2].inputs| :: a[2].inputs[i].vk == VK_LEFT && IsExtended(a[2].inputs[i]))
            && a[3].Send? && |a[3].inputs| == 1 && a[3].inputs[0].vk == VK_SHIFT && IsKeyUp(a[3].inputs[0])
            && a[4] == Send(PasteInputs()))
  {
    if clipboardOk && backspaceCount > 0 {
      PairsShape(VK_LEFT, backspaceCount);
    }
  }

  /** Backspaces: no call at all for a count of zero or less, otherwise one call of 2·count events. */
  lemma BackspacesShape(count: int)
    ensures count <= 0 ==> Backspaces(count) == []
    ensures count > 0 ==> var a := Backspaces(count);
      && |a| == 1 && a[0].Send? && |a[0].inputs| == 2 * count
      && forall i | 0 <= i < |a[0].inputs| :: a[0].inputs[i].vk == VK_BACK && (IsKeyUp(a[0].inputs[i]) <==> i % 2 == 1)
  {
    if count > 0 {
      PairsShape(VK_BACK, count);
    }
  }

  /** Everything the hook sends carries the marker, so the hook lets it through. */
  predicate Marked(actions: seq<Action>) {
    forall i, j | 0 <= i < |actions| && actions[i].Send? && 0 <= j < |actions[i].inputs| ::
      actions[i].inputs[j].extraInfo == VIET_IME_MARKER
  }

  lemma OutputMarked(useClipboard: bool, useSelectReplace: bool, clipboardOk: bool, backspaceCount: int, text: string)
    ensures Marked(Output(useClipboard, useSelectReplace, clipboardOk, backspaceCount, text))
  {
    if useClipboard && useSelectReplace {
      SelectReplaceMarked(clipboardOk, backspaceCount, text);
    } else if useClipboard {
      ViaClipboardMarked(clipboardOk, backspaceCount, text);
    } else {
      BackspacesMarked(backspaceCount);
      UnicodeStringMarked(text);
      MarkedAppend(Backspaces(backspaceCount), UnicodeString(text));
    }
  }

  lemma MarkedAppend(a: seq<Action>, b: seq<Action>)
    requires Marked(a) && Marked(b)
    ensures Marked(a + b)
  {
    forall i, j | 0 <= i < |a + b| && (a + b)[i].Send? && 0 <= j < |(a + b)[i].inputs|
      ensures (a + b)[i].inputs[j].extraInfo == VIET_IME_MARKER
    {
      if i >= |a| {
        assert (a + b)[i] == b[i - |a|];
      }
    }
  }

  lemma SelectReplaceMarked(clipboardOk: bool, backspaceCount: int, text: string)
    ensures Marked(SelectReplace(clipboardOk, backspaceCount, text))
  {
    if backspaceCount > 0 {
      PairsShape(VK_LEFT, backspaceCount);
    }
  }

  lemma ViaClipboardMarked(clipboardOk: bool, backspaceCount: int, text: string)
    ensures Marked(ViaClipboard(clipboardOk, backspaceCount, text))
  {
    if backspaceCount > 0 {
      PairsShape(VK_BACK, backspaceCount);
    }
  }

  lemma BackspacesMarked(count: int)
    ensures Marked(Backspaces(count))
  {
    if count > 0 {
      PairsShape(VK_BACK, count);
    }
  }

  lemma UnicodeStringMarked(text: string)
    ensures Marked(UnicodeString(text))
  {
    UnicodeInputsShape(text);
  }

  lemma CharDirectlyMarked(ch: char)
    ensures Marked(CharDirectly(ch))
  {
    UnicodeInputsShape([ch]);
  }

  /**
   * An idealised text box with the cursor at the end of its text: the last `selected`
   * characters are selected, and Shift and Ctrl are held or not.
   */
  datatype TextField = TextField(text: string, selected: nat, shift: bool, ctrl: bool, clipboard: string)

  /** The text with the selection replaced by s. */
  function ReplaceSelection(f: TextField, s: string): TextField
    requires f.selected <= |f.text|
  {
    f.(text := f.text[..|f.text| - f.selected] + s, selected := 0)
  }

  predicate FieldOk(f: TextField) {
    f.selected <= |f.text|
  }

  /** What one key event does to the text box. */
  function Key(f: TextField, k: KeyInput): (f': TextField)
    requires FieldOk(f)
    ensures FieldOk(f') && f'.clipboard == f.clipboard
  {
    if IsUnicode(k) then
      if !IsKeyUp(k) && (0 <= k.scan < 0xD800 || 0xE000 <= k.scan < 0x11_0000) then ReplaceSelection(f, [k.scan as char]) else f
    else if k.vk == VK_SHIFT then f.(shift := !IsKeyUp(k))
    else if k.vk == VK_CONTROL then f.(ctrl := !IsKeyUp(k))
    else if IsKeyUp(k) then f
    else if k.vk == VK_LEFT && f.shift then f.(selected := if f.selected < |f.text| then f.selected + 1 else f.selected)
    else if k.vk == VK_BACK then
      if f.selected > 0 then ReplaceSelection(f, "")
      else if |f.text| > 0 then f.(text := f.text[..|f.text| - 1]) else f
    else if k.vk == VK_V && f.ctrl then ReplaceSelection(f, f.clipboard)
    else f
  }

  function Keys(f: TextField, ks: seq<KeyInput>): (f': TextField)
    requires FieldOk(f)
    ensures FieldOk(f')
    decreases |ks|
  {
    if |ks| == 0 then f else Keys(Key(f, ks[0]), ks[1..])
  }

  /** What one action does: setting the clipboard, or one SendInput call. */
  function Act(f: TextField, a: Action): (f': TextField)
    requires FieldOk(f)
    ensures FieldOk(f')
  {
    match a
    case Clipboard(t) => f.(clipboard := t)
    case Send(ks) => Keys(f, ks)
  }

  function Perform(f: TextField, actions: seq<Action>): (f': TextField)
    requires FieldOk(f)
    ensures FieldOk(f')
    decreases |actions|
  {
    if |actions| == 0 then f else Perform(Act(f, actions[0]), actions[1..])
  }

  lemma KeysOne(f: TextField, k: KeyInput)
    requires FieldOk(f)
    ensures Keys(f, [k]) == Key(f, k)
  {
    assert [k][1..] == [];
  }

  lemma KeysTwo(f: TextField, a: KeyInput, b: KeyInput)
    requires FieldOk(f)
    ensures Keys(f, [a, b]) == Key(Key(f, a), b)
  {
    assert [a, b][1..] == [b];
    KeysOne(Key(f, a), b);
  }

  lemma {:induction false} KeysAppend(f: TextField, a: seq<KeyInput>, b: seq<KeyInput>)
    requires FieldOk(f)
    ensures Keys(f, a + b) == Keys(Keys(f, a), b)
    decreases |a|
  {
    if |a| > 0 {
      assert (a + b)[1..] == a[1..] + b;
      KeysAppend(Key(f, a[0]), a[1..], b);
    } else {
      assert a + b == b;
    }
  }

  lemma PerformOne(f: TextField, a: Action)
    requires FieldOk(f)
    ensures Perform(f, [a]) == Act(f, a)
  {
    assert [a][1..] == [];
  }

  lemma {:induction false} PerformAppend(f: TextField, a: seq<Action>, b: seq<Action>)
    requires FieldOk(f)
    ensures Perform(f, a + b) == Perform(Perform(f, a), b)
    decreases |a|
  {
    if |a| > 0 {
      assert (a + b)[1..] == a[1..] + b;
      assert (a + b)[0] == a[0];
      PerformAppend(Act(f, a[0]), a[1..], b);
    } else {
      assert a + b == b;
    }
  }

  lemma ShiftEvent(f: TextField, up: bool)
    requires FieldOk(f)
    ensures Key(f, MakeKeyInput(VK_SHIFT, up)) == f.(shift := !up)
  {
  }

  lemma CtrlEvent(f: TextField, up: bool)
    requires FieldOk(f)
    ensures Key(f, MakeKeyInput(VK_CONTROL, up)) == f.(ctrl := !up)
  {
  }

  lemma ReleaseEvent(f: TextField, vk: int)
    requires FieldOk(f) && vk != VK_SHIFT && vk != VK_CONTROL
    ensures Key(f, MakeKeyInput(vk, true)) == f
  {
  }

  lemma LeftEvent(f: TextField)
    requires FieldOk(f) && f.shift && f.selected < |f.text|
    ensures Key(f, MakeKeyInput(VK_LEFT, false)) == f.(selected := f.selected + 1)
  {
  }

  lemma BackEvent(f: TextField)
    requires FieldOk(f) && f.selected == 0 && |f.text| > 0
    ensures Key(f, MakeKeyInput(VK_BACK, false)) == f.(text := f.text[..|f.text| - 1])
  {
  }

  lemma VEvent(f: TextField)
    requires FieldOk(f) && f.ctrl
    ensures Key(f, MakeKeyInput(VK_V, false)) == ReplaceSelection(f, f.clipboard)
  {
  }

  lemma UnicodeEvents(f: TextField, ch: char)
    requires FieldOk(f) && f.selected == 0
    ensures Key(Key(f, UnicodeInput(ch, false)), UnicodeInput(ch, true)) == f.(text := f.text + [ch])
  {
    assert f.text[..|f.text| - 0] == f.text;
  }

  /** With Shift held, n Left pairs extend the selection by n characters. */
  lemma {:induction false} SelectLeft(f: TextField, n: nat)
    requires FieldOk(f) && f.shift && f.selected + n <= |f.text|
    ensures Keys(f, Pairs(VK_LEFT, n)) == f.(selected := f.selected + n)
  {
    if n > 0 {
      var down, up := MakeKeyInput(VK_LEFT, false), MakeKeyInput(VK_LEFT, true);
      SelectLeft(f, n - 1);
      var g := f.(selected := f.selected + n - 1);
      KeysAppend(f, Pairs(VK_LEFT, n - 1), [down, up]);
      KeysTwo(g, down, up);
      LeftEvent(g);
      ReleaseEvent(g.(selected := g.selected + 1), VK_LEFT);
    }
  }

  /** With nothing selected, n Backspace pairs erase the last n characters. */
  lemma {:induction false} EraseBack(f: TextField, n: nat)
    requires FieldOk(f) && f.selected == 0 && n <= |f.text|
    ensures Keys(f, Pairs(VK_BACK, n)) == f.(text := f.text[..|f.text| - n])
  {
    if n > 0 {
      var down, up := MakeKeyInput(VK_BACK, false), MakeKeyInput(VK_BACK, true);
      EraseBack(f, n - 1);
      var g := f.(text := f.text[..|f.text| - (n - 1)]);
      KeysAppend(f, Pairs(VK_BACK, n - 1), [down, up]);
      KeysTwo(g, down, up);
      BackEvent(g);
      assert g.text[..|g.text| - 1] == f.text[..|f.text| - n];
      ReleaseEvent(g.(text := g.text[..|g.text| - 1]), VK_BACK);
    }
  }

  /** With nothing selected, the Unicode events type the text after what is there. */
  lemma {:induction false} TypeText(f: TextField, text: string)
    requires FieldOk(f) && f.selected == 0
    ensures Keys(f, UnicodeInputs(text)) == f.(text := f.text + text)
    decreases |text|
  {
    if |text| > 0 {
      var t := text[..|text| - 1];
      var ch := text[|text| - 1];
      TypeText(f, t);
      var g := f.(text := f.text + t);
      KeysAppend(f, UnicodeInputs(t), [UnicodeInput(ch, false), UnicodeInput(ch, true)]);
      KeysTwo(g, UnicodeInput(ch, false), UnicodeInput(ch, true));
      UnicodeEvents(g, ch);
      assert f.text + t + [ch] == f.text + text;
    } else {
      assert f.text + text == f.text;
    }
  }

  /** Ctrl+V replaces the selection with the clipboard and leaves Ctrl released. */
  lemma PasteOver(f: TextField)
    requires FieldOk(f)
    ensures Keys(f, PasteInputs()) == ReplaceSelection(f, f.clipboard).(ctrl := false)
  {
    var c0, v0, v1, c1 := MakeKeyInput(VK_CONTROL, false), MakeKeyInput(VK_V, false), MakeKeyInput(VK_V, true), MakeKeyInput(VK_CONTROL, true);
    assert PasteInputs() == [c0, v0] + [v1, c1];
    KeysAppend(f, [c0, v0], [v1, c1]);
    KeysTwo(f, c0, v0);
    CtrlEvent(f, false);
    var f1 := f.(ctrl := true);
    VEvent(f1);
    var f2 := ReplaceSelection(f1, f1.clipboard);
    KeysTwo(f2, v1, c1);
    ReleaseEvent(f2, VK_V);
    CtrlEvent(f2, true);
  }

  /**
   * Every output method performs the edit: on a text box with nothing selected, the
   * actions for (backspaceCount, text) leave the last backspaceCount characters replaced
   * by text, provided the clipboard could be set when the method uses it.
   */
  lemma OutputEdits(useClipboard: bool, useSelectReplace: bool, f: TextField, backspaceCount: int, text: string)
    requires FieldOk(f) && f.selected == 0 && !f.shift && 0 <= backspaceCount <= |f.text|
    ensures var f' := Perform(f, Output(useClipboard, useSelectReplace, true, backspaceCount, text));
      f'.text == f.text[..|f.text| - backspaceCount] + text && f'.selected == 0 && !f'.shift
  {
    var n := backspaceCount;
    if useClipboard && useSelectReplace {
      SelectReplaceEdits(f, n, text);
    } else if useClipboard {
      ClipboardEdits(f, n, text);
    } else {
      TypedEdits(f, n, text);
    }
  }

  /** The Shift+Left selection of a non-empty edit: Shift is released again, n characters selected. */
  lemma SelectPhase(g: TextField, n: nat)
    requires FieldOk(g) && g.selected == 0 && !g.shift && 0 < n <= |g.text|
    ensures Perform(g, [Send([MakeKeyInput(VK_SHIFT, false)]), Send(Pairs(VK_LEFT, n)), Send([MakeKeyInput(VK_SHIFT, true)])])
      == g.(selected := n)
  {
    var a0, a1, a2 := Send([MakeKeyInput(VK_SHIFT, false)]), Send(Pairs(VK_LEFT, n)), Send([MakeKeyInput(VK_SHIFT, true)]);
    assert [a0, a1, a2] == [a0] + ([a1] + [a2]);
    PerformAppend(g, [a0], [a1] + [a2]);
    PerformOne(g, a0);
    KeysOne(g, MakeKeyInput(VK_SHIFT, false));
    ShiftEvent(g, false);
    var g1 := g.(shift := true);
    PerformAppend(g1, [a1], [a2]);
    PerformOne(g1, a1);
    SelectLeft(g1, n);
    var g2 := g1.(selected := n);
    PerformOne(g2, a2);
    KeysOne(g2, MakeKeyInput(VK_SHIFT, true));
    ShiftEvent(g2, true);
  }

  /** The paste send on its own. */
  lemma PastePhase(g: TextField)
    requires FieldOk(g)
    ensures Perform(g, [Send(PasteInputs())]) == ReplaceSelection(g, g.clipboard).(ctrl := false)
  {
    PerformOne(g, Send(PasteInputs()));
    PasteOver(g);
  }

  /** Setting the clipboard, then the rest. */
  lemma ClipboardPhase(f: TextField, text: string, rest: seq<Action>)
    requires FieldOk(f)
    ensures Perform(f, [Clipboard(text)] + rest) == Perform(f.(clipboard := text), rest)
  {
    PerformAppend(f, [Clipboard(text)], rest);
    PerformOne(f, Clipboard(text));
  }

  lemma SelectReplaceEdits(f: TextField, n: int, text: string)
    requires FieldOk(f) && f.selected == 0 && !f.shift && 0 <= n <= |f.text|
    ensures var f' := Perform(f, SelectReplace(true, n, text));
      f'.text == f.text[..|f.text| - n] + text && f'.selected == 0 && !f'.shift
  {
    if n > 0 {
      SelectReplaceSome(f, n, text);
    } else {
      PasteOnly(f, text);
      assert SelectReplace(true, n, text) == [Clipboard(text), Send(PasteInputs())];
      assert f.text[..|f.text| - 0] == f.text;
    }
  }

  /** With nothing to erase, both clipboard methods set the clipboard and paste it. */
  lemma PasteOnly(f: TextField, text: string)
    requires FieldOk(f) && f.selected == 0 && !f.shift
    ensures var f' := Perform(f, [Clipboard(text), Send(PasteInputs())]);
      f'.text == f.text + text && f'.selected == 0 && !f'.shift
  {
    var g := f.(clipboard := text);
    var paste := [Send(PasteInputs())];
    assert [Clipboard(text), Send(PasteInputs())] == [Clipboard(text)] + paste;
    ClipboardPhase(f, text, paste);
    PastePhase(g);
    assert f.text[..|f.text| - 0] == f.text;
  }

  lemma SelectReplaceSome(f: TextField, n: int, text: string)
    requires FieldOk(f) && f.selected == 0 && !f.shift && 0 < n <= |f.text|
    ensures var f' := Perform(f, SelectReplace(true, n, text));
      f'.text == f.text[..|f.text| - n] + text && f'.selected == 0 && !f'.shift
  {
    var g := f.(clipboard := text);
    var paste := [Send(PasteInputs())];
    var mid := [Send([MakeKeyInput(VK_SHIFT, false)]), Send(Pairs(VK_LEFT, n)), Send([MakeKeyInput(VK_SHIFT, true)])];
    SelectReplaceParts(n, text);
    ClipboardPhase(f, text, mid + paste);
    SelectThenPaste(g, n);
    assert Perform(f, SelectReplace(true, n, text)) == g.(text := g.text[..|g.text| - n] + g.clipboard, ctrl := false);
  }

  /** Shift+Left over n characters, then the paste: they are replaced by the clipboard. */
  lemma SelectThenPaste(g: TextField, n: nat)
    requires FieldOk(g) && g.selected == 0 && !g.shift && 0 < n <= |g.text|
    ensures var g' := Perform(g, [Send([MakeKeyInput(VK_SHIFT, false)]), Send(Pairs(VK_LEFT, n)), Send([MakeKeyInput(VK_SHIFT, true)])]
                                  + [Send(PasteInputs())]);
      g' == g.(text := g.text[..|g.text| - n] + g.clipboard, ctrl := false)
  {
    var mid := [Send([MakeKeyInput(VK_SHIFT, false)]), Send(Pairs(VK_LEFT, n)), Send([MakeKeyInput(VK_SHIFT, true)])];
    SelectPhase(g, n);
    PastePhase(g.(selected := n));
    PerformChain(g, mid, [Send(PasteInputs())], g.(selected := n), ReplaceSelection(g.(selected := n), g.clipboard).(ctrl := false));
  }

  /** The backspace send of a non-empty edit. */
  lemma ErasePhase(g: TextField, n: nat)
    requires FieldOk(g) && g.selected == 0 && 0 < n <= |g.text|
    ensures Perform(g, [Send(Pairs(VK_BACK, n))]) == g.(text := g.text[..|g.text| - n])
  {
    PerformOne(g, Send(Pairs(VK_BACK, n)));
    EraseBack(g, n);
  }

  lemma ClipboardEdits(f: TextField, n: int, text: string)
    requires FieldOk(f) && f.selected == 0 && !f.shift && 0 <= n <= |f.text|
    ensures var f' := Perform(f, ViaClipboard(true, n, text));
      f'.text == f.text[..|f.text| - n] + text && f'.selected == 0 && !f'.shift
  {
    if n > 0 {
      ClipboardSome(f, n, text);
    } else {
      PasteOnly(f, text);
      assert ViaClipboard(true, n, text) == [Clipboard(text), Send(PasteInputs())];
      assert f.text[..|f.text| - 0] == f.text;
    }
  }

  lemma ClipboardSome(f: TextField, n: int, text: string)
    requires FieldOk(f) && f.selected == 0 && !f.shift && 0 < n <= |f.text|
    ensures var f' := Perform(f, ViaClipboard(true, n, text));
      f'.text == f.text[..|f.text| - n] + text && f'.selected == 0 && !f'.shift
  {
    var g := f.(clipboard := text);
    var paste := [Send(PasteInputs())];
    var erase := [Send(Pairs(VK_BACK, n))];
    ViaClipboardParts(n, text);
    ClipboardPhase(f, text, erase + paste);
    EraseThenPaste(g, n);
    assert Perform(f, ViaClipboard(true, n, text)) == g.(text := g.text[..|g.text| - n] + g.clipboard, ctrl := false);
  }

  /** Backspaces, then the paste: the last n characters are replaced by the clipboard. */
  lemma EraseThenPaste(g: TextField, n: nat)
    requires FieldOk(g) && g.selected == 0 && 0 < n <= |g.text|
    ensures var g' := Perform(g, [Send(Pairs(VK_BACK, n))] + [Send(PasteInputs())]);
      g' == g.(text := g.text[..|g.text| - n] + g.clipboard, ctrl := false)
  {
    ErasePhase(g, n);
    var g1 := g.(text := g.text[..|g.text| - n]);
    PastePhase(g1);
    assert g1.text[..|g1.text| - 0] == g1.text;
    PerformChain(g, [Send(Pairs(VK_BACK, n))], [Send(PasteInputs())], g1, ReplaceSelection(g1, g1.clipboard).(ctrl := false));
  }

  /** Two runs of actions, one after the other. */
  lemma PerformChain(f: TextField, a: seq<Action>, b: seq<Action>, g: TextField, h: TextField)
    requires FieldOk(f) && FieldOk(g) && Perform(f, a) == g && Perform(g, b) == h
    ensures Perform(f, a + b) == h
  {
    PerformAppend(f, a, b);
  }

  /** The sends of SendViaSelectReplace for a non-empty edit, in their three phases. */
  lemma SelectReplaceParts(n: int, text: string)
    requires n > 0
    ensures SelectReplace(true, n, text) ==
      [Clipboard(text)]
      + ([Send([MakeKeyInput(VK_SHIFT, false)]), Send(Pairs(VK_LEFT, n)), Send([MakeKeyInput(VK_SHIFT, true)])]
         + [Send(PasteInputs())])
  {
  }

  /** The sends of SendViaClipboard for a non-empty edit, in their three phases. */
  lemma ViaClipboardParts(n: int, text: string)
    requires n > 0
    ensures ViaClipboard(true, n, text) == [Clipboard(text)] + ([Send(Pairs(VK_BACK, n))] + [Send(PasteInputs())])
  {
  }

  /** SendBackspaces on its own: the last count characters are erased. */
  lemma BackspacesErase(f: TextField, n: int)
    requires FieldOk(f) && f.selected == 0 && 0 <= n <= |f.text|
    ensures Perform(f, Backspaces(n)) == f.(text := f.text[..|f.text| - n])
  {
    if n > 0 {
      ErasePhase(f, n);
    } else {
      assert f.text[..|f.text| - 0] == f.text;
    }
  }

  /** SendUnicodeString on its own: the text is typed after what is there. */
  lemma UnicodeStringTypes(g: TextField, text: string)
    requires FieldOk(g) && g.selected == 0
    ensures Perform(g, UnicodeString(text)) == g.(text := g.text + text)
  {
    if |text| > 0 {
      PerformOne(g, Send(UnicodeInputs(text)));
      TypeText(g, text);
    } else {
      assert g.text + text == g.text;
    }
  }

  lemma TypedEdits(f: TextField, n: int, text: string)
    requires FieldOk(f) && f.selected == 0 && !f.shift && 0 <= n <= |f.text|
    ensures var f' := Perform(f, Backspaces(n) + UnicodeString(text));
      f'.text == f.text[..|f.text| - n] + text && f'.selected == 0 && !f'.shift
  {
    PerformAppend(f, Backspaces(n), UnicodeString(text));
    BackspacesErase(f, n);
    UnicodeStringTypes(f.(text := f.text[..|f.text| - n]), text);
  }

  /** A key sent directly is typed after the text. */
  lemma CharDirectlyTypes(f: TextField, ch: char)
    requires FieldOk(f) && f.selected == 0
    ensures Perform(f, CharDirectly(ch)) == f.(text := f.text + [ch])
  {
    PerformOne(f, Send(UnicodeInputs([ch])));
    TypeText(f, [ch]);
  }
}
