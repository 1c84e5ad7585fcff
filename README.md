# VietIME core in Dafny

This project models the text-transformation core of VietIME, a Vietnamese input method for Windows, and the decision logic of its low-level keyboard hook.

- **VietnameseChar.** The vowel table holds 24 rows of six tone-indexed forms. Its lookups read, apply and strip tones and transform vowels (modules `VietnameseChar` and `Unicode`).
- **VniEngine.** It collects a word buffer. The digits 0-5 put a tone on the vowel chosen by the last-vowel-run rule. The digits 6-9 add a circumflex, breve, horn or the stroke of đ to the nearest matching letter. A rewrite at position i is reported as "erase Count-i characters, type buffer[i..]" (modules `Vni` and `Scan`).
- **CvnssConverter.** It converts a CVNSS4.0 word to standard spelling:
  - a longest-prefix consonant split;
  - a vowel lookup with fallback;
  - the orthographic adjustments;
  - the case carried over.

  It also has the tokenizer of a text and the consonant-table alignment (modules `Cvnss`, `Tokenizer` and `StableSort`). The tables are the fields of a `Converter` value.
- **TelexEngine.** It keeps the raw CVNSS word and the text it last put on screen. Every key retypes the whole converted word (module `Telex`).
- **IInputEngine / ProcessKeyResult.** The result record, what a handled result does to the text on screen, and the dispatch to whichever engine is selected (modules `Engines` and `InputEngine`).
- **KeyboardHook.** The hook logic covers:
  - the per-event filter and the order of dispositions;
  - the toggle chord with its 300 ms debounce;
  - the 2000 ms inactivity reset;
  - the queue of keys typed while output is being sent;
  - the background worker that sends an edit and then drains that queue in FIFO order.

  Every input sequence the hook synthesizes is built as a value, and `HookEvents.TextField`, an idealised text box, says what each sequence does to the text (modules `Hook` and `HookEvents`).

Each class whose fields the source updates in place has a matching Dafny class: `Vni.VniEngine`, `Telex.TelexEngine` and `Hook.KeyboardHook`. Each is proved against pure step functions:
- `Vni.VniStep`;
- `Telex.TelexStep`;
- `Hook.Callback`, `Hook.Worker` and `Hook.Drain`.

The lemmas state what those functions mean. The main results are these:
- **Buffer and screen stay in step.** With either engine, a handled key's edit turns the text on screen for the word into the engine's new text (`InputEngine.KeyStepInSync`, `InputEngine.ScreenStaysInSync`).
- **The three output methods do the same edit.** Select-and-replace, backspace-and-paste and direct typing all perform that edit (`HookEvents.OutputEdits`).
- **The drain keeps the screen in step.** Keys drained from the queue keep screen and engine in step (`Hook.DrainInSync`), and are processed once each, in order (`Hook.DrainFifo`, `Hook.DrainTypesAll`).

The operating system is reduced to inputs:
- the hook event and its message;
- the Shift, Ctrl and Alt state;
- the clock in milliseconds;
- the character VirtualKeyToChar gives;
- whether the clipboard could be set.

What the hook sends is appended to a log of `HookEvents.Action` values.

Where the source throws (an index out of range in the converter), the model returns `None`.

### Behaviour of the code worth knowing

- **Repeated tone key.** `VniEngine.TryApplyTone` refuses a tone the chosen vowel already has. The key is then not handled and the word is reset, since no hat matches a tone digit (`Vni.RepeatedToneUnhandled`, for a chosen vowel without a hat). On a word whose hatted vowel took the tone, the second press moves the tone instead: "mưa" 2 2 gives "mừà" (`Vni.RepeatedToneMovesAsWritten`, and the first row under "## Findings").
- **The mark and hat tests look at the character itself.** The placement rule's preference for ê ô ơ â ă ư and the hat keys' search for a, e, o, u compare the lower-case character as it stands. A vowel that already has a tone is therefore passed over. `Vni.VniEngine`, `Vni.VniStep` and everything built on them (`InputEngine`, `Hook`) follow the code; the corrected tests are the second halves of the "## Findings" rows.
- **VNI backspace.** `VniEngine.ProcessBackspace` drops the last character of a non-empty buffer and always returns false, so the key always reaches the application.
- **Inactivity timeout.** The hook measures the 2000 ms from the previous key that reached the check, and records the time even when no character results.
- **The class named TelexEngine** is not a Telex tone engine: it wraps the CVNSS converter.
- **Backspace in the hook.** For backspace the hook calls only `ProcessBackspace`, with no reset, and passes the key on.
- **Special keys go ahead of the queue.** `KeyboardHook.HookCallback` calls `HandleSpecialKey` (KeyboardHook.cs:139) before the busy test (lines 155-158). While a send is in flight, Space, Enter, the navigation keys and Backspace therefore reset or shorten the engine at once and pass through, ahead of typed keys still waiting in the queue. `Hook.Callback` models this order. `Hook.CallbackInSync` requires an idle hook, so the model promises no screen sync for a special key that arrives while busy; in that case the engine and the screen can disagree.

## Model

| member | source | states |
|---|---|---|
| Engines.NewResult | src/VietIME.Core/Engines/IInputEngine.cs:6-27 | A new result is not handled, has no text, erases 0 characters and has an empty buffer. |
| Engines.NewResultWellFormed | src/VietIME.Core/Engines/IInputEngine.cs:8-21 | The default result has the unhandled shape: no text and nothing to erase. |
| Engines.HandledResult | src/VietIME.Core/Engines/VniEngine.cs:42-46 | The result built for an edit is handled and carries exactly the edit's text, erase count and the new buffer. |
| Engines.Replay | src/VietIME.Core/Engines/IInputEngine.cs:18-21 | Replaying an edit keeps all but the last BackspaceCount characters of the screen and then shows OutputText. |
| Engines.ReplayExtends | src/VietIME.Core/Engines/IInputEngine.cs:18-21 | An edit computed against the end of the screen leaves everything before it untouched. |
| InputEngine.KeyStepInSync | src/VietIME.Core/Engines/IInputEngine.cs:8-45 | For either engine, a handled key's edit erases at most what the engine has shown for the word and turns it into what the engine shows now. An unhandled key leaves the old word plus the key, or nothing (the word ended). The invariant is kept and CurrentBuffer is the new buffer. |
| InputEngine.ScreenStaysInSync | src/VietIME.Core/Engines/IInputEngine.cs:8-45 | If the whole text before the cursor ends with what the engine has shown, it still does after the key's edit, or after an unhandled key has been typed. |
| InputEngine.ResetStateSpec | src/VietIME.Core/Engines/IInputEngine.cs:47-61 | After Reset the buffer is empty, nothing is shown for the word, the invariant holds and the engine kind is unchanged. |
| InputEngine.BackspaceStepSpec | src/VietIME.Core/Engines/IInputEngine.cs:52-56 | Backspace drops the last character of a non-empty buffer and leaves an empty buffer unchanged. The key counts as absorbed exactly for a non-empty CVNSS buffer. For VNI the shown word loses its last character. |
| InputEngine.Name | src/VietIME.Core/Engines/IInputEngine.cs:37 | The name is the selected engine's own name. |
| InputEngine.ProcessKey | src/VietIME.Core/Engines/IInputEngine.cs:45 | Dispatches to the selected engine's ProcessKey; the new engine value and the result are those of KeyStep. |
| InputEngine.ProcessBackspace | src/VietIME.Core/Engines/IInputEngine.cs:56 | Dispatches ProcessBackspace; the new value and the answer are those of BackspaceStep. |
| InputEngine.Reset | src/VietIME.Core/Engines/IInputEngine.cs:50 | Dispatches Reset; the engine is left at ResetState of its old value. |
| InputEngine.GetBuffer | src/VietIME.Core/Engines/IInputEngine.cs:61 | Returns the selected engine's word buffer. |
| VietnameseChar.ToneValue | src/VietIME.Core/Models/VietnameseChar.cs:61-69 | A tone's number is a valid index into a six-entry row. |
| VietnameseChar.ToneOfValue | src/VietIME.Core/Models/VietnameseChar.cs:61-69 | The cast (ToneIndex)i inverts the tone's number. |
| VietnameseChar.ToneValueRoundTrip | src/VietIME.Core/Models/VietnameseChar.cs:61-69 | Converting a tone to its number and back gives the same tone. |
| VietnameseChar.Row | src/VietIME.Core/Models/VietnameseChar.cs:9-58 | Every row of VowelMap has six entries. |
| VietnameseChar.RowShape | src/VietIME.Core/Models/VietnameseChar.cs:9-58 | Every row has six entries and its entry 0 is its key. |
| VietnameseChar.EntryUnique | src/VietIME.Core/Models/VietnameseChar.cs:9-58 | Two table entries are equal only at the same row and index, so the rows are pairwise disjoint and dictionary order does not matter. |
| VietnameseChar.NotInOtherRow | src/VietIME.Core/Models/VietnameseChar.cs:9-58 | An entry of one row occurs in no other row. |
| VietnameseChar.TonedNotKey | src/VietIME.Core/Models/VietnameseChar.cs:9-58 | A toned form (index 1-5) is never a row key. |
| VietnameseChar.CaseOfRows | src/VietIME.Core/Models/VietnameseChar.cs:9-58 | Each upper-case row is, entry by entry, the upper case of the lower-case row before it. |
| VietnameseChar.EntryOf | src/VietIME.Core/Models/VietnameseChar.cs:98-102 | Every Vietnamese vowel occurs at some row and index of the table. |
| VietnameseChar.VowelIff | src/VietIME.Core/Models/VietnameseChar.cs:98-123 | IsVietnameseVowel holds exactly when some row holds the character, and exactly when its base vowel is one of aeiouy in either case. |
| VietnameseChar.FindRowFrom | src/VietIME.Core/Models/VietnameseChar.cs:110-121 | The foreach search returns a row that contains the character, or -1. |
| VietnameseChar.FindRowOfEntry | src/VietIME.Core/Models/VietnameseChar.cs:110-121 | The search finds an entry in its own row. |
| VietnameseChar.IndexFrom | src/VietIME.Core/Models/VietnameseChar.cs:149-155 | The index search returns the first position of the character, or -1 exactly when it is absent. |
| VietnameseChar.IndexOfEntry | src/VietIME.Core/Models/VietnameseChar.cs:149-155 | In its own row an entry is found at its own index. |
| VietnameseChar.UntonedFrom | src/VietIME.Core/Models/VietnameseChar.cs:129-140 | A character in no remaining row comes back unchanged. |
| VietnameseChar.ToneSearch | src/VietIME.Core/Models/VietnameseChar.cs:145-158 | A character in no remaining row has tone None. |
| VietnameseChar.ApplyToneFrom | src/VietIME.Core/Models/VietnameseChar.cs:163-178 | A character in no remaining row comes back unchanged. |
| VietnameseChar.ToneSearchOfEntry | src/VietIME.Core/Models/VietnameseChar.cs:145-158 | The tone search gives the tone whose number is the entry's index. |
| VietnameseChar.ApplyToneFromEntry | src/VietIME.Core/Models/VietnameseChar.cs:163-178 | Applying a tone to an entry gives the entry of the same row at that tone's index. |
| VietnameseChar.UntonedFromEntry | src/VietIME.Core/Models/VietnameseChar.cs:129-140 | Stripping the tone of an entry gives entry 0 of its row. |
| VietnameseChar.LookupsOfEntry | src/VietIME.Core/Models/VietnameseChar.cs:129-178 | For an entry at row k and index a, GetToneIndex gives tone a and GetVowelWithoutTone gives the row key. ApplyTone with tone t gives entry t of the same row. |
| VietnameseChar.KeyUntoned | src/VietIME.Core/Models/VietnameseChar.cs:129-158 | A row key has no tone and is its own untoned vowel. |
| VietnameseChar.ApplyToneEntry | src/VietIME.Core/Models/VietnameseChar.cs:145-178 | ApplyTone(c, t) is entry t of c's row, and GetToneIndex of the result is t. |
| VietnameseChar.StripTone | src/VietIME.Core/Models/VietnameseChar.cs:107-178 | Removing the tone after applying one gives GetVowelWithoutTone(v), the row key, which equals ApplyTone(v, None). It has no tone and keeps the same base vowel, i.e. the circumflex, breve and horn. |
| VietnameseChar.NonVowel | src/VietIME.Core/Models/VietnameseChar.cs:98-178 | A non-vowel is in no row: it has tone None, is its own base and untoned vowel, and every ApplyTone leaves it unchanged. |
| VietnameseChar.ApplyToneTwice | src/VietIME.Core/Models/VietnameseChar.cs:163-178 | The last tone applied wins, and applying the same tone twice equals applying it once. |
| VietnameseChar.ToneOnKey | src/VietIME.Core/Models/VietnameseChar.cs:145-178 | A tone applied to a row key reads back as that tone, strips back to the key, and gives a Vietnamese vowel. |
| VietnameseChar.BaseOfKey | src/VietIME.Core/Models/VietnameseChar.cs:72-89 | The base of each row key is its BaseVowelTransform entry, or the key itself for i and y. |
| VietnameseChar.BaseLetterCase | src/VietIME.Core/Models/VietnameseChar.cs:72-89 | Each row's base letter is one of aeiouy, upper case exactly for the upper-case rows. |
| VietnameseChar.BaseVowelOfEntry | src/VietIME.Core/Models/VietnameseChar.cs:72-123 | GetBaseVowel sends every entry of the a/ă/â rows to a, of o/ô/ơ to o, of u/ư to u, of e/ê to e, and of i and y to the key, keeping case. |
| VietnameseChar.TransformBreveHorn | src/VietIME.Core/Models/VietnameseChar.cs:183-242 | With modifier w, untoned a/ă/â become ă, o/ô/ơ become ơ and u/ư become ư, in the vowel's case; anything else is unchanged. |
| VietnameseChar.TransformCircumflex | src/VietIME.Core/Models/VietnameseChar.cs:183-242 | With modifier a, e or o, the matching untoned vowel becomes â, ê or ô in its case; a vowel the rule does not match is unchanged. |
| VietnameseChar.TransformOtherModifier | src/VietIME.Core/Models/VietnameseChar.cs:195-227 | Any modifier other than w, a, e and o leaves the vowel unchanged. |
| VietnameseChar.TransformNoRule | src/VietIME.Core/Models/VietnameseChar.cs:183-242 | A vowel that no rule of its modifier matches comes back unchanged. |
| VietnameseChar.TransformToned | src/VietIME.Core/Models/VietnameseChar.cs:183-242 | A toned vowel comes back unchanged, since its lower case matches no rule. |
| VietnameseChar.TransformIdempotent | src/VietIME.Core/Models/VietnameseChar.cs:183-242 | Transforming twice with the same modifier equals transforming once. |
| Unicode.LowerString | src/VietIME.Core/Cvnss/CvnssConverter.cs:174 | ToLowerInvariant lowercases every character and keeps the length. |
| Unicode.UpperString | src/VietIME.Core/Cvnss/CvnssConverter.cs:213 | ToUpperInvariant uppercases every character and keeps the length. |
| Unicode.CaseFolding | src/VietIME.Core/Cvnss/CvnssConverter.cs:212-219 | Case mapping round-trips on cased letters, is idempotent, and leaves non-letters alone. |
| Unicode.LowerStringFolding | src/VietIME.Core/Cvnss/CvnssConverter.cs:174 | Lowercasing a string is idempotent and erases any earlier uppercasing. |
| Vni.IsVowelIff | src/VietIME.Core/Engines/VniEngine.cs:311-316 | The engine's vowel test is exactly IsVietnameseVowel. The plain and marked letters it lists are all in the table. |
| Vni.TonePlacement | src/VietIME.Core/Engines/VniEngine.cs:254-309 | The placement is -1 or an index of the buffer. |
| Vni.TonePositionBy | src/VietIME.Core/Engines/VniEngine.cs:254-309 | With either mark test, the placement is -1 or an index of the buffer. |
| Vni.TonePlacementSpec | src/VietIME.Core/Engines/VniEngine.cs:254-309 | The result is -1 exactly when the buffer has no vowel. Otherwise it is a vowel inside the last maximal vowel run s..e: e for a run of one, s or e for a run of two, and s+1 for a longer run. |
| Vni.TonePlacementIsToneTarget | src/VietIME.Core/Engines/VniEngine.cs:273-308 | The list-building placement equals the rule stated on the buffer's last vowel run. A run of two takes its first marked vowel, else the first vowel when a letter follows, else the second. |
| Vni.PlacementOfThree | src/VietIME.Core/Engines/VniEngine.cs:289-305 | In consonant + two vowels, the tone goes on the first vowel when it is marked, otherwise on the second. |
| Vni.TonePositionIsVowel | src/VietIME.Core/Engines/VniEngine.cs:254-316 | A chosen position holds a Vietnamese vowel. |
| Vni.TonePlacementCongruent | src/VietIME.Core/Engines/VniEngine.cs:254-309 | The placement depends only on which characters are vowels and which are marked. |
| Vni.ToneRewriteBy | src/VietIME.Core/Engines/VniEngine.cs:82-101 | A tone rewrite targets a position inside the buffer. |
| Vni.ToneRewriteSpec | src/VietIME.Core/Engines/VniEngine.cs:82-101 | TryApplyTone fails exactly when there is no vowel or the chosen vowel already has the tone. Otherwise it rewrites the chosen vowel to one with the requested tone and the same untoned vowel. |
| Vni.RewriteEdit | src/VietIME.Core/Engines/VniEngine.cs:95-100 | A rewrite changes only buffer[i] and keeps the length. BackspaceCount is Count-i, equal to the length of OutputText, and replaying the edit on the old buffer gives the new one. |
| Vni.RetoneStable | src/VietIME.Core/Engines/VniEngine.cs:84-93 | As written: after a tone goes on a vowel that has no hat, the placement still picks that vowel and the same tone is refused. |
| Vni.RetoneStableCorrected | src/VietIME.Core/Engines/VniEngine.cs:84-93 | With the corrected mark test, after any tone is applied the placement still picks the same vowel and the same tone is refused. |
| Vni.MarkAsWrittenIsMark | src/VietIME.Core/Engines/VniEngine.cs:296-303 | A vowel the source's mark test accepts is also accepted by the corrected test, which looks at the vowel without its tone. |
| Vni.ToneKeyIsDigit | src/VietIME.Core/Engines/VniEngine.cs:19-27 | Every tone key is a digit and not a hat key. |
| Vni.HatKeyIsNotToneKey | src/VietIME.Core/Engines/VniEngine.cs:19-27 | The hat keys 6-9 are digits and not tone keys. |
| Vni.HatRewriteBy | src/VietIME.Core/Engines/VniEngine.cs:103-252 | A hat rewrite targets a position inside the buffer. |
| Vni.HatRewriteSpec | src/VietIME.Core/Engines/VniEngine.cs:103-252 | TryApplyHat fails on an empty buffer or a non-hat key. It finds nothing exactly when no matching letter follows the last stop character (a non-vowel for 6-8, none for 9). Otherwise it rewrites the nearest match to its hatted form, with no match or stop after it. |
| Vni.HatScanStep | src/VietIME.Core/Engines/VniEngine.cs:125-161 | One step of the backward loop either returns the matching letter, breaks at a non-vowel, or moves on. |
| Vni.HatScanStepAsWritten | src/VietIME.Core/Engines/VniEngine.cs:127-158 | The same step for the source's test, which looks at ToLower(c) itself: a match returns i, a non-vowel breaks, anything else moves on. |
| Vni.HatCharSpec | src/VietIME.Core/Engines/VniEngine.cs:134-147 | With either hat test, the hatted letter is a vowel with the hat's target as its untoned lower case, in the original letter's case and with its tone kept. |
| Vni.MatchDoesNotStop | src/VietIME.Core/Engines/VniEngine.cs:125-252 | A letter a hat applies to is never a stop for that hat. |
| Vni.VniStepSpec | src/VietIME.Core/Engines/VniEngine.cs:29-80 | A digit is handled exactly when its tone or hat rewrite applies. A handled key keeps the length, erases at most the buffer and replays to the new buffer. Otherwise a letter is appended and anything else clears the buffer. The result is well formed and CurrentBuffer is the new buffer. |
| Vni.EditOnScreen | src/VietIME.Core/Engines/VniEngine.cs:95-100 | For the engine's step, the edit applied to the whole screen text ending with the word changes only the word. |
| Vni.BackspaceUndoesLetter | src/VietIME.Core/Engines/VniEngine.cs:75-79 | A backspace after a typed letter gives back the buffer before it, and the key passes through. |
| Vni.RepeatedToneUnhandled | src/VietIME.Core/Engines/VniEngine.cs:37-64 | As written, repeating a tone key that was just applied to a vowel without a hat is not handled and clears the word. |
| Vni.RepeatedToneUnhandledCorrected | src/VietIME.Core/Engines/VniEngine.cs:37-64 | With the corrected mark test, repeating a tone key that was just applied is never handled and clears the word. |
| Vni.RepeatedToneMovesAsWritten | src/VietIME.Core/Engines/VniEngine.cs:289-305 | As written, mưa + 2 gives mừa, and a second 2 is handled and gives mừà. |
| Vni.RepeatedToneOnMuaCorrected | src/VietIME.Core/Engines/VniEngine.cs:289-305 | With the corrected mark test, the second 2 on mưa is refused and the word is reset. |
| Vni.ToneKeyRewrites | src/VietIME.Core/Engines/VniEngine.cs:37-48 | A tone key whose new vowel differs from the chosen one replaces exactly that position. |
| Vni.GraveOnMua | src/VietIME.Core/Engines/VniEngine.cs:289-305 | mưa + 2 gives mừa with both mark tests. |
| Vni.PlacementOnMuaAsWritten | src/VietIME.Core/Engines/VniEngine.cs:296-303 | As written, the tone of mưa goes on ư but that of mừa on a. |
| Vni.MarkAsWrittenOnU | src/VietIME.Core/Engines/VniEngine.cs:298-299 | As written, the mark test sees the horn of ư. |
| Vni.MarkAsWrittenOnUGrave | src/VietIME.Core/Engines/VniEngine.cs:298-299 | As written, the mark test misses the horn of ừ. |
| Vni.MarkTestMissesTonedVowel | src/VietIME.Core/Engines/VniEngine.cs:296-303 | As written, mừa + 1 gives mừá: a second tone on another vowel. |
| Vni.PlacementOnMua | src/VietIME.Core/Engines/VniEngine.cs:289-305 | With the mark test on the untoned vowel, the tone of mưa and mừa goes on ư. |
| Vni.MarkTestOnUntonedVowel | src/VietIME.Core/Engines/VniEngine.cs:296-303 | With the corrected mark test, mừa + 1 gives mứa. |
| Vni.HatScanOfMaAsWritten | src/VietIME.Core/Engines/VniEngine.cs:127-158 | As written, the scan of hat 6 over má passes á and stops at m without a match. |
| Vni.HatSixOnAcuteA | src/VietIME.Core/Engines/VniEngine.cs:129-157 | As written, hat 6 does not match á, and á does not stop the scan. |
| Vni.HatTestMissesTonedVowel | src/VietIME.Core/Engines/VniEngine.cs:125-161 | As written, má + 6 finds nothing and the word is reset, so the lines that keep the tone (144-147) are never reached. |
| Vni.HatScanOfMa | src/VietIME.Core/Engines/VniEngine.cs:127-158 | With the corrected test, the scan of hat 6 over má finds á. |
| Vni.HatSixOnUntonedA | src/VietIME.Core/Engines/VniEngine.cs:130-132 | The corrected hat test sees the a under the tone of á. |
| Vni.HatTestOnUntonedVowel | src/VietIME.Core/Engines/VniEngine.cs:125-161 | With the corrected test, má + 6 is handled and gives mấ. |
| Vni.VniEngine.constructor | src/VietIME.Core/Engines/VniEngine.cs:13-16 | A new engine has an empty buffer and the name VNI. |
| Vni.VniEngine.ProcessKey | src/VietIME.Core/Engines/VniEngine.cs:29-80 | The buffer and the result are those of VniStep, the step with the source's own tests, whose meaning VniStepSpec states. |
| Vni.VniEngine.TryApplyTone | src/VietIME.Core/Engines/VniEngine.cs:82-101 | Applies the engine's tone rewrite (ToneRewriteSpec with the source's mark test) to the buffer and returns its edit, or changes nothing. |
| Vni.VniEngine.TryApplyHat | src/VietIME.Core/Engines/VniEngine.cs:103-122 | Applies the engine's hat rewrite (HatRewriteSpec with the source's hat test) and returns its edit, or changes nothing. |
| Vni.VniEngine.ScanForHat | src/VietIME.Core/Engines/VniEngine.cs:125-252 | The backward loop of TryApplyHat6-9, testing ToLower(c) as the source does, performs the engine's hat rewrite. |
| Vni.VniEngine.PutHat | src/VietIME.Core/Engines/VniEngine.cs:132-154 | The matched letter is replaced by its hatted form, tone kept, and the edit returned is the engine's hat rewrite. |
| Vni.VniEngine.ReplaceAt | src/VietIME.Core/Engines/VniEngine.cs:95-100 | Replaces one position and returns the edit Count-i and buffer[i..]. |
| Vni.VniEngine.CollectVowelPositions | src/VietIME.Core/Engines/VniEngine.cs:256-264 | The loop collects the vowel indices of the buffer in increasing order. |
| Vni.VniEngine.CollectLastGroup | src/VietIME.Core/Engines/VniEngine.cs:273-284 | The backward loop collects the last group of consecutive vowel positions (Scan.LastGroup, whose meaning Scan.LastGroupIsLastRun states). |
| Vni.VniEngine.FindVowelPositionForTone | src/VietIME.Core/Engines/VniEngine.cs:254-309 | Returns the engine's placement, with the source's mark test, which TonePlacementSpec describes. |
| Vni.VniEngine.Reset | src/VietIME.Core/Engines/VniEngine.cs:318-321 | Empties the buffer. |
| Vni.VniEngine.ProcessBackspace | src/VietIME.Core/Engines/VniEngine.cs:323-331 | Drops the last character of a non-empty buffer and always returns false. |
| Vni.VniEngine.GetBuffer | src/VietIME.Core/Engines/VniEngine.cs:333-336 | Returns the buffer. |
| Scan.Positions | src/VietIME.Core/Engines/VniEngine.cs:256-264 | Every collected position is an index of the buffer. |
| Scan.PositionsSpec | src/VietIME.Core/Engines/VniEngine.cs:256-264 | The positions are exactly the indices that pass the test, in strictly increasing order. |
| Scan.ScanBack | src/VietIME.Core/Engines/VniEngine.cs:127-158 | The backward scan returns -1 or a position before the start that holds a match. |
| Scan.GroupStart | src/VietIME.Core/Engines/VniEngine.cs:273-284 | The start of the group that ends at j lies at or before j+1, and inside the list when j+1 is. |
| Scan.LastGroup | src/VietIME.Core/Engines/VniEngine.cs:266-287 | The last group of a non-empty position list is not empty. |
| Scan.GroupStartSpec | src/VietIME.Core/Engines/VniEngine.cs:273-284 | The backward loop's group is a run of consecutive positions that cannot be extended to the left. |
| Scan.LastGroupIsLastRun | src/VietIME.Core/Engines/VniEngine.cs:266-287 | The last group of positions is the last maximal run of vowels of the buffer, given index by index. |
| Scan.ScanBackNearest | src/VietIME.Core/Engines/VniEngine.cs:127-158 | A found position is the nearest match: nothing after it matches or stops the scan. |
| Scan.ScanBackNone | src/VietIME.Core/Engines/VniEngine.cs:127-158 | The scan finds nothing exactly when no character after the last stop matches. |
| Cvnss.IndexOf | src/VietIME.Core/Cvnss/CvnssConverter.cs:257 | string.IndexOf gives the first position of the character, or -1 exactly when it is absent. |
| Cvnss.First | src/VietIME.Core/Cvnss/CvnssConverter.cs:181-191 | The first-match loop returns the first index that satisfies the test, or -1 when none does. |
| Cvnss.AllUpperFrom | src/VietIME.Core/Cvnss/CvnssConverter.cs:296-305 | The loop's answer from position i: there is a letter and every letter is upper case. |
| Cvnss.IsAllUpper | src/VietIME.Core/Cvnss/CvnssConverter.cs:291-306 | True exactly when the word has at least one letter and all its letters are upper case. |
| Cvnss.RecaseSpec | src/VietIME.Core/Cvnss/CvnssConverter.cs:211-221 | Recasing keeps the length and the lower case of the output. An all-upper word gives no lower-case character. Otherwise an upper-case first letter upper-cases only the first output character, and a lower-case start leaves the output as it is. |
| Cvnss.Converter.GetBaseVowel | src/VietIME.Core/Cvnss/CvnssConverter.cs:281-289 | The base vowel is the first character of the first group that holds the character, or the character itself when no group does. |
| Cvnss.Converter.MapConsonant | src/VietIME.Core/Cvnss/CvnssConverter.cs:308-319 | A listed consonant maps to the CQN partner at its first index (None where that index is out of range). An unlisted one maps to itself. |
| Cvnss.Converter.ConsonantIndex | src/VietIME.Core/Cvnss/CvnssConverter.cs:180-191 | The split takes the first CVN consonant in list order that prefixes the lowercased word; -1 means no consonant. |
| Cvnss.Converter.LongestConsonantFirst | src/VietIME.Core/Cvnss/CvnssConverter.cs:180-191 | When the list is ordered longest first, the chosen consonant is a longest prefix. |
| Cvnss.Converter.Adjust | src/VietIME.Core/Cvnss/CvnssConverter.cs:245-279 | The adjustments: qu before base u becomes q; no consonant before base i takes the y-set character; gi before base i becomes g; ngh/gh/k before a base outside the i/e/ê set become ng/g/c. In every other case, including qu before a base other than u, gi before a base other than i and no consonant without the swap, consonant and vowel come back unchanged. The vowel keeps its length, and the only failure is the empty vowel with the i-set swap. |
| Cvnss.Converter.AdjustIdempotent | src/VietIME.Core/Cvnss/CvnssConverter.cs:245-279 | When no y-set character has base i, adjusting an adjusted pair changes nothing. |
| Cvnss.Converter.AdjustConsonantVowel | src/VietIME.Core/Cvnss/CvnssConverter.cs:245-279 | The method with its reassigned locals computes Adjust. |
| Cvnss.Converter.SplitLowerWord | src/VietIME.Core/Cvnss/CvnssConverter.cs:176-204 | The consonant loop, vowel lookup and the j + ịa case compute SplitWord. |
| Cvnss.Converter.ConvertWord | src/VietIME.Core/Cvnss/CvnssConverter.cs:172 | An empty word converts to itself. |
| Cvnss.Converter.ConvertWordCvnToCqn | src/VietIME.Core/Cvnss/CvnssConverter.cs:170-222 | The method computes ConvertWord. |
| Cvnss.Converter.ConvertWordCaseBlind | src/VietIME.Core/Cvnss/CvnssConverter.cs:174-209 | Words equal up to case convert (or fail) together, to outputs equal up to case. |
| Cvnss.Converter.ConvertWordCase | src/VietIME.Core/Cvnss/CvnssConverter.cs:211-221 | An all-upper word gives an output with no lower-case character. An upper-case first letter gives a non-lower first output character. Otherwise the output is the conversion of the lowercased word. |
| Cvnss.Converter.ConvertWordTotal | src/VietIME.Core/Cvnss/CvnssConverter.cs:170-222 | With the CQN list at least as long as the CVN list and no '\0' in the i-set, converting never throws. |
| Cvnss.Converter.ConvertTextCvnToCqn | src/VietIME.Core/Cvnss/CvnssConverter.cs:227-243 | A null text gives "". Otherwise the result is the concatenation, in order, of the tokens, with special tokens copied and the others converted (ConvertAllSpec), or None if one throws. |
| Cvnss.Converter.TokenFails | src/VietIME.Core/Cvnss/CvnssConverter.cs:235-241 | One token that fails to convert makes the whole text fail. |
| Cvnss.Converter.ConvertTextOfWord | src/VietIME.Core/Cvnss/CvnssConverter.cs:227-243 | A text that normalises to a single non-special word converts as that word. |
| Cvnss.SplitPunctuationIsPunctuation | src/VietIME.Core/Cvnss/CvnssConverter.cs:364-373 | Every split-punctuation character is a .NET punctuation or symbol character, never a letter or digit. |
| Cvnss.SplitStringLikeJs | src/VietIME.Core/Cvnss/CvnssConverter.cs:333-362 | The loop returns Tokens(s), whose properties TokensSpec and TokensUnique state. |
| Cvnss.ConsonantPairs | src/VietIME.Core/Cvnss/CvnssConverter.cs:325 | Pair i holds cvn[i], cqn[i] and i. |
| Cvnss.AlignConsonantsSpec | src/VietIME.Core/Cvnss/CvnssConverter.cs:321-331 | The pairs are sorted as a permutation, longest CVN first, then by original position. The separately sorted CVN list is their CVN column, and the aligned CQN list is their CQN column. |
| Cvnss.AlignedPartners | src/VietIME.Core/Cvnss/CvnssConverter.cs:154-157 | After loading, position k of the CVN list and of the CQN list hold the two halves of one original pair. |
| Cvnss.OrderedByLength | src/VietIME.Core/Cvnss/CvnssConverter.cs:156 | The CVN list the loader keeps is ordered by length, longest first. |
| Cvnss.FromTablesConverts | src/VietIME.Core/Cvnss/CvnssConverter.cs:154-163 | A converter built from tables with enough CQN entries and no '\0' in the i-set has a longest-first consonant list and converts every word. |
| Tokenizer.TokensSpec | src/VietIME.Core/Cvnss/CvnssConverter.cs:333-362 | The tokens concatenate back to the input. Each is a single delimiter or a non-empty run without one, and no two runs are adjacent. |
| Tokenizer.TokensUnique | src/VietIME.Core/Cvnss/CvnssConverter.cs:333-362 | Any token list of that shape that concatenates to the input is exactly Tokens(input). |
| Tokenizer.SplitStateSpec | src/VietIME.Core/Cvnss/CvnssConverter.cs:341-356 | The loop state is the emitted tokens followed by the current word. The emitted tokens end in a delimiter, and the current word is empty exactly after a delimiter. |
| Tokenizer.SingleWord | src/VietIME.Core/Cvnss/CvnssConverter.cs:341-359 | A text without delimiters is one token. |
| Tokenizer.ConvertAllSpec | src/VietIME.Core/Cvnss/CvnssConverter.cs:233-242 | Token-by-token conversion succeeds exactly when every token converts, and then it is the concatenation of their conversions in order. |
| StableSort.SortDesc | src/VietIME.Core/Cvnss/CvnssConverter.cs:326-327 | OrderByDescending returns a permutation of its input. |
| StableSort.SortStable | src/VietIME.Core/Cvnss/CvnssConverter.cs:326-328 | The sort is stable: greatest key first, and equal keys in increasing original index. |
| StableSort.SortNatural | src/VietIME.Core/Cvnss/CvnssConverter.cs:156-157 | Sorting then projecting equals projecting then sorting, so the CVN column of the sorted pairs is the separately sorted CVN list. |
| Telex.NotHandled | src/VietIME.Core/Engines/TelexEngine.cs:118-119 | The not-handled result is the default result and well formed. |
| Telex.SafeConvert | src/VietIME.Core/Engines/TelexEngine.cs:96-108 | Fails open: with no converter or a failed conversion the word itself, otherwise its conversion. |
| Telex.TelexStepSpec | src/VietIME.Core/Engines/TelexEngine.cs:35-63 | A line break or word delimiter resets both fields and is not handled. Any other key is appended and handled: it erases the length of the previous output and types the conversion of the new buffer. The invariant is kept. |
| Telex.TelexReplay | src/VietIME.Core/Engines/TelexEngine.cs:57-62 | The erase count is exactly the length of what is on screen for the word, so replaying the edit leaves the new output in place of the old one. |
| Telex.TelexBackspaceSpec | src/VietIME.Core/Engines/TelexEngine.cs:66-79 | Backspace on an empty buffer returns false and changes nothing. Otherwise it drops the last character, returns true and keeps the invariant. |
| Telex.BackspaceUndoesKey | src/VietIME.Core/Engines/TelexEngine.cs:49-79 | A backspace after an appended key gives back the state before it. |
| Telex.BufferIsOneToken | src/VietIME.Core/Engines/TelexEngine.cs:110-116 | The buffer never holds a character the converter's tokenizer cuts at, so it is a single token. |
| Telex.TelexEngine.constructor | src/VietIME.Core/Engines/TelexEngine.cs:17-23 | A new engine has empty fields, the invariant holds, and the name is CVNSS4.0. |
| Telex.TelexEngine.ProcessKey | src/VietIME.Core/Engines/TelexEngine.cs:29-64 | The new fields and the result are those of TelexStep, and the invariant lastOutput = SafeConvert(buffer) is kept. |
| Telex.TelexEngine.ProcessBackspace | src/VietIME.Core/Engines/TelexEngine.cs:66-79 | The new fields and the answer are those of TelexBackspace, and the invariant is kept. |
| Telex.TelexEngine.Reset | src/VietIME.Core/Engines/TelexEngine.cs:81-85 | Empties both fields and keeps the invariant. |
| Telex.TelexEngine.GetBuffer | src/VietIME.Core/Engines/TelexEngine.cs:87-90 | Returns the buffer. |
| Telex.TelexEngine.Convert | src/VietIME.Core/Engines/TelexEngine.cs:96-108 | Computes SafeConvert with the converter's own method. |
| HookEvents.MakeKeyInput | src/VietIME.Hook/KeyboardHook.cs:460-489 | The event carries the key, no scan code and the marker. It is key-up exactly when asked, extended exactly for the navigation keys, and never a Unicode event. |
| HookEvents.UnicodeInput | src/VietIME.Hook/KeyboardHook.cs:520-546 | A Unicode event with the character as scan code and the marker, key-up exactly when asked. |
| HookEvents.PairsShape | src/VietIME.Hook/KeyboardHook.cs:369-374 | The filled array has 2·count events of the key, alternating down and up, each carrying the marker. |
| HookEvents.UnicodeInputsShape | src/VietIME.Hook/KeyboardHook.cs:517-547 | The array has a down/up pair of Unicode events for each character, in order. |
| HookEvents.SelectReplaceShape | src/VietIME.Hook/KeyboardHook.cs:349-402 | Nothing if the clipboard fails. Otherwise it sets the clipboard, then for count > 0 sends Shift down, count Left pairs and Shift up as separate sends, then the four-event Ctrl+V. |
| HookEvents.BackspacesShape | src/VietIME.Hook/KeyboardHook.cs:491-509 | Nothing for count ≤ 0, else one send of 2·count backspace events alternating down and up. |
| HookEvents.OutputMarked | src/VietIME.Hook/KeyboardHook.cs:178-189 | Every event the hook sends for an edit, by any method, carries the marker, so the hook never processes its own input. |
| HookEvents.SelectReplaceMarked | src/VietIME.Hook/KeyboardHook.cs:349-402 | Every select-and-replace event carries the marker. |
| HookEvents.ViaClipboardMarked | src/VietIME.Hook/KeyboardHook.cs:413-458 | Every clipboard-method event carries the marker. |
| HookEvents.BackspacesMarked | src/VietIME.Hook/KeyboardHook.cs:491-509 | Every backspace event carries the marker. |
| HookEvents.UnicodeStringMarked | src/VietIME.Hook/KeyboardHook.cs:511-554 | Every Unicode text event carries the marker. |
| HookEvents.CharDirectlyMarked | src/VietIME.Hook/KeyboardHook.cs:252-291 | The directly sent character carries the marker. |
| HookEvents.SelectLeft | src/VietIME.Hook/KeyboardHook.cs:368-375 | With Shift held, n Left pairs extend the selection by n characters. |
| HookEvents.EraseBack | src/VietIME.Hook/KeyboardHook.cs:428-434 | n backspace pairs erase the last n characters. |
| HookEvents.TypeText | src/VietIME.Hook/KeyboardHook.cs:517-548 | The Unicode pairs type the text at the cursor. |
| HookEvents.PasteOver | src/VietIME.Hook/KeyboardHook.cs:386-391 | Ctrl+V replaces the selection with the clipboard and releases Ctrl. |
| HookEvents.SelectReplaceEdits | src/VietIME.Hook/KeyboardHook.cs:349-402 | Select-and-replace with a working clipboard turns the text into text minus its last n characters plus the new text, with no selection and Shift released. |
| HookEvents.ClipboardEdits | src/VietIME.Hook/KeyboardHook.cs:413-458 | Backspace-and-paste with a working clipboard performs the same edit. |
| HookEvents.TypedEdits | src/VietIME.Hook/KeyboardHook.cs:187-188 | SendBackspaces then SendUnicodeString performs the same edit. |
| HookEvents.BackspacesErase | src/VietIME.Hook/KeyboardHook.cs:491-509 | SendBackspaces(n) erases the last n characters. |
| HookEvents.UnicodeStringTypes | src/VietIME.Hook/KeyboardHook.cs:511-554 | SendUnicodeString types the text. |
| HookEvents.CharDirectlyTypes | src/VietIME.Hook/KeyboardHook.cs:252-291 | SendCharDirectly types the one character. |
| HookEvents.OutputEdits | src/VietIME.Hook/KeyboardHook.cs:178-189 | Whichever output method is configured, a handled edit with a working clipboard erases BackspaceCount characters and types OutputText. |
| Hook.Initial | src/VietIME.Hook/KeyboardHook.cs:20-39 | The field initialisers: enabled, not busy, the clipboard and select-replace methods on, no engine, no times, an empty queue and nothing sent. The invariant holds. |
| Hook.CallbackFrame | src/VietIME.Hook/KeyboardHook.cs:117-140 | The callback never sends anything or changes the output settings. An event filtered first (nCode < 0, sending, marked, not a key-down) or passed on by the idle and modifier checks changes nothing and is not swallowed. |
| Hook.CallbackKeepsOk | src/VietIME.Hook/KeyboardHook.cs:113-209 | The callback keeps the hook invariant: a valid engine, a queue of keys the engine accepts, and busy exactly while an edit is in flight. |
| Hook.EngineKeyKeepsOk | src/VietIME.Hook/KeyboardHook.cs:133-202 | The callback from the idle check on keeps the invariant. |
| Hook.TranslateKeepsOk | src/VietIME.Hook/KeyboardHook.cs:151-202 | Queueing or translating a key keeps the invariant. |
| Hook.ToggleChord | src/VietIME.Hook/KeyboardHook.cs:293-310 | The toggle chord is always swallowed. Within 300 ms of the last accepted toggle nothing changes. Otherwise the flag flips, the time is recorded and the engine is reset. |
| Hook.SetEnabledSpec | src/VietIME.Hook/KeyboardHook.cs:50-62 | Setting the same value changes nothing. A new value is stored and resets the engine, which is then empty and shows nothing. |
| Hook.SpecialKeysPass | src/VietIME.Hook/KeyboardHook.cs:312-339 | Space, Enter, Tab, Esc and the navigation keys reset the engine; backspace only calls ProcessBackspace. Either way the key passes through and nothing else changes. |
| Hook.TranslatedKey | src/VietIME.Hook/KeyboardHook.cs:142-202 | After more than 2000 ms the engine is reset first, and the time is recorded even with no character. While busy, the key is queued with its Shift state and swallowed with no engine call. Otherwise the key is swallowed exactly when handled with text, and the edit is handed to the worker. |
| Hook.SwallowedKeysKept | src/VietIME.Hook/KeyboardHook.cs:155-199 | A swallowed key other than the toggle chord is either queued at the end or starts a worker with its edit: no key is lost. |
| Hook.CallbackInSync | src/VietIME.Hook/KeyboardHook.cs:162-199 | When the screen ends with what the engine shows, the handed-over edit or the passed-on key keeps it that way. |
| Hook.DrainCons | src/VietIME.Hook/KeyboardHook.cs:217-243 | One turn of the drain: the first key goes through ProcessKey and its output is sent before the rest. |
| Hook.DrainFifo | src/VietIME.Hook/KeyboardHook.cs:215-247 | Draining a + b is draining a and then b, with their outputs in that order. |
| Hook.DrainTypesAll | src/VietIME.Hook/KeyboardHook.cs:215-247 | With an engine, every queued key goes through ProcessKey exactly once, in order, and the queue ends empty. |
| Hook.DrainKeepsEngine | src/VietIME.Hook/KeyboardHook.cs:215-247 | A drain that starts with an engine keeps one and empties the queue. |
| Hook.DrainWithoutEngine | src/VietIME.Hook/KeyboardHook.cs:217-219 | With no engine, the first queued key is taken and the drain stops, sending nothing. |
| Hook.DrainInvariant | src/VietIME.Hook/KeyboardHook.cs:215-247 | The drain keeps the engine valid. |
| Hook.KeyInSync | src/VietIME.Hook/KeyboardHook.cs:221-242 | One queued key, sent as an edit or as itself, keeps screen and engine in step. |
| Hook.SendInSync | src/VietIME.Hook/KeyboardHook.cs:223-242 | Sending the edit of a handled key, or the key itself, brings the screen to end with what the engine shows. |
| Hook.DrainInSync | src/VietIME.Hook/KeyboardHook.cs:215-247 | With a working clipboard, the whole drain keeps the screen ending with what the engine shows. |
| Hook.WorkerSpec | src/VietIME.Hook/KeyboardHook.cs:170-196 | The worker appends the in-flight edit's output, in the configured method, to the log, and then the drain's output. With an engine every queued key is typed and the queue ends empty. Busy is cleared only at the end, and the other fields are untouched. |
| Hook.WorkerKeepsOk | src/VietIME.Hook/KeyboardHook.cs:170-196 | The worker keeps the hook invariant. |
| Hook.KeyboardHook.constructor | src/VietIME.Hook/KeyboardHook.cs:41-44 | A new hook is in the initial state. |
| Hook.KeyboardHook.SetIsEnabled | src/VietIME.Hook/KeyboardHook.cs:50-62 | The IsEnabled setter changes the state as SetEnabled does. |
| Hook.KeyboardHook.SetEngine | src/VietIME.Hook/KeyboardHook.cs:64-72 | The Engine setter leaves the new engine in the slot. |
| Hook.KeyboardHook.SetUseClipboardMethod | src/VietIME.Hook/KeyboardHook.cs:74-78 | The setter stores the value. |
| Hook.KeyboardHook.TryToggle | src/VietIME.Hook/KeyboardHook.cs:302-310 | Always true; the state changes as Toggle says. |
| Hook.KeyboardHook.HandleToggleHotkey | src/VietIME.Hook/KeyboardHook.cs:293-300 | True exactly for Ctrl+` without Shift or for Shift with Ctrl, and then the state toggles; otherwise nothing changes. |
| Hook.KeyboardHook.HandleSpecialKey | src/VietIME.Hook/KeyboardHook.cs:312-339 | True exactly for the special keys, and the engine, if any, takes that key's step. |
| Hook.KeyboardHook.HookCallback | src/VietIME.Hook/KeyboardHook.cs:113-209 | The new state and the answer are those of Callback, and the invariant is kept. |
| Hook.KeyboardHook.HandleEngineKey | src/VietIME.Hook/KeyboardHook.cs:133-202 | The callback from the idle check on computes EngineKey. |
| Hook.KeyboardHook.HandleTypedKey | src/VietIME.Hook/KeyboardHook.cs:142-202 | The timeout check and the translation compute Translate after AfterTimeout. |
| Hook.KeyboardHook.RunWorker | src/VietIME.Hook/KeyboardHook.cs:174-196 | The body given to Task.Run leaves the hook in Worker's state, whose meaning WorkerSpec states, and keeps the invariant. |
| Hook.KeyboardHook.ProcessPendingKeys | src/VietIME.Hook/KeyboardHook.cs:215-247 | The while loop leaves the engine, the queue and the log as Drain says. |
| Hook.KeyboardHook.TypeQueuedKey | src/VietIME.Hook/KeyboardHook.cs:221-242 | One queued key goes through ProcessKey, and its edit or the key itself is sent. |
| Hook.KeyboardHook.SendInput | src/VietIME.Hook/KeyboardHook.cs:285 | One SendInput call appends one send of exactly those inputs to the log. |
| Hook.KeyboardHook.SendOutput | src/VietIME.Hook/KeyboardHook.cs:178-189 | Appends the configured method's output for the edit to the log. |
| Hook.KeyboardHook.SetClipboardText | src/VietIME.Hook/KeyboardHook.cs:556-585 | Succeeds as the clipboard input says, and then records the clipboard text. |
| Hook.KeyboardHook.SendViaSelectReplace | src/VietIME.Hook/KeyboardHook.cs:349-402 | Appends the select-and-replace sequence of SelectReplaceShape. |
| Hook.KeyboardHook.SendViaClipboard | src/VietIME.Hook/KeyboardHook.cs:413-458 | Appends the backspace-and-paste sequence. |
| Hook.KeyboardHook.SendBackspaces | src/VietIME.Hook/KeyboardHook.cs:491-509 | Appends the backspace sequence of BackspacesShape. |
| Hook.KeyboardHook.SendUnicodeString | src/VietIME.Hook/KeyboardHook.cs:511-554 | Appends nothing for empty text, else one send of the text's Unicode pairs. |
| Hook.KeyboardHook.SendCharDirectly | src/VietIME.Hook/KeyboardHook.cs:252-291 | Appends one send of the character's Unicode down/up pair. |
| Hook.FillPairs | src/VietIME.Hook/KeyboardHook.cs:369-374 | The for-loop fills a fresh array with count down/up pairs of the key. |

## Left out

- **Win32 interop.** SetWindowsHookEx and UnhookWindowsHookEx (Install, Uninstall), CallNextHookEx, SendInput, the clipboard calls, and GlobalAlloc and Marshal are left out, because they are foreign calls. What the hook sends is appended to a log. The success of SetClipboardText, after its ten retries, is one boolean per worker run.
- **NativeMethods** is not part of this model. VirtualKeyToChar's result and the IsShiftPressed, IsCtrlPressed and IsAltPressed answers are fields of the callback's input.
- **Concurrency and timing.** Task.Run, the volatile flags, the thread-safety of ConcurrentQueue and every Thread.Sleep are left out, because the model is sequential:
  - the body given to Task.Run is the separate call RunWorker;
  - `_isSendingInput` is an input of the callback;
  - DateTime.UtcNow is an integer millisecond input.
- **Exceptions in the callback** (lines 204-208) are not modelled, because the model has no partial operations there.
- **Events and Dispose.** The events EnabledChanged, Error and DebugLog are left out, because they are fire-and-forget notifications. Dispose and the finalizer are left out, because they only uninstall the hook.
- **Loaders.** The converter loaders LoadDefault, LoadFromJsonString and LoadFromJson read files, resources and JSON, and are left out. They are I/O over a mapping file that is not part of this model. `Cvnss.FromTables` models only the construction at the end of LoadFromJson. LoadFromJsonString does not sort the consonants as LoadFromJson does.
- **TelexEngine's converter load.** The static Lazy is the constructor parameter `converter`, None when loading throws.
- **UTF-16 code units.** Strings are modelled as sequences of Unicode scalar values (Dafny `char`), and `|s|` counts scalars, while C# counts UTF-16 code units. The backspace count `_lastOutput.Length` (TelexEngine.cs:57), the `Count - i` counts of the VNI engine, and the one down/up pair per `text[i]` of SendUnicodeString (KeyboardHook.cs:520) agree with the source only for text inside the Basic Multilingual Plane. A character outside it is two code units in the source, so two event pairs and two backspaces there, and one in the model. A lone surrogate that VirtualKeyToChar could give (KeyboardHook.cs:151) is not a Dafny `char`, so `HookInput.translated` and the engines' keys range over scalars rather than over UTF-16 units.
- **Null word in ConvertWordCvnToCqn.** `Cvnss.Converter.ConvertWordCvnToCqn` takes a string, so the source's `string.IsNullOrEmpty(word)` return of null for a null word (CvnssConverter.cs:172) is modelled only for the empty word. The public entry point `ConvertTextCvnToCqn` takes an optional text and maps null to "".
- **The character library (.NET).** Letters, case, digits, whitespace, punctuation and symbols are finite-alphabet definitions. Case covers ASCII, the Latin-1 letters U+00C0..U+00FF with ÿ and Ÿ (U+0178), and the Vietnamese letters. ª µ º ß are letters without case, whereas .NET counts µ and ß as lower case and upper-cases µ to the Greek Μ. The model does not cover the rest of Unicode.
- **Normalize(FormC)** in ConvertTextCvnToCqn is the parameter `normalize`.
- **The engine is held by value.** `Hook.KeyboardHook` keeps its engine as an `InputEngine.EngineState` value rather than a reference to an engine object, so aliasing between the hook and the settings window is not modelled. IInputEngine is a closed choice of the two engines (`InputEngine.EngineRef`) rather than an interface.
- **Hook.KeyboardHook.SetEngine**: states only that the new engine is stored. The reset of the outgoing engine is not observable, because the hook holds engines by value.
- **Telex.TelexEngine.ProcessKey**: requires a key other than '\b'. The source's '\b' branch returns a bool from a method that returns a ProcessKeyResult, which does not type-check. `Telex.TelexStep`, `InputEngine.KeyStep` and `Hook.Callback` carry the same condition.
- **Hook.KeyboardHook.HookCallback**: requires that VirtualKeyToChar does not give '\b'. The backspace key itself is taken by HandleSpecialKey before translation.
- **InputEngine.BackspaceStepSpec**: states that the screen stays in step after a backspace for the VNI engine only. For the CVNSS engine the hook passes the backspace on, so the application erases one character of the converted text while the engine reconverts the shorter word. The two need not agree.
- **Cvnss.Converter.ConvertWord**: its own contract states only the empty-word case. Its other properties are the lemmas ConvertWordCase, ConvertWordCaseBlind, ConvertWordTotal and RecaseSpec, and the functions SplitWord and Adjust.
- **IsUpper on the first letter.** ConvertWordCvnToCqn's test `char.IsLetter(word[0]) && char.IsUpper(word[0])` is modelled as IsUpper alone. In the finite alphabet, IsUpper implies IsLetter.
- **The worker's edit.** The edit is handed over through the field `inFlight`, which stands for the values captured by the lambda given to Task.Run.

## Findings

| source | as written | input that shows it | evidently intended | confidence | as-written member | corrected member |
|---|---|---|---|---|---|---|
| src/VietIME.Core/Engines/VniEngine.cs:296-303 | The "prefer the vowel with a mark" test in FindVowelPositionForTone lowercases the vowel and compares it with ê ô ơ â ă ư, so a toned marked vowel such as ừ is not recognised | buffer "mừa", key '1': the test skips ừ and the acute goes on a, giving "mừá" with two tones | the test is made on the vowel without its tone, so "mừa" + '1' gives "mứa" | not executed | Vni.MarkTestMissesTonedVowel | Vni.MarkTestOnUntonedVowel |
| src/VietIME.Core/Engines/VniEngine.cs:92-93 | With the same mark test, a repeated tone key on a word whose hatted vowel took the tone is not refused: the tone is found on neither candidate, so the placement moves to the other vowel and a second tone goes on | buffer "mưa", keys '2' '2': the first gives "mừa", the second is handled and gives "mừà" | the second press finds the tone already on ừ and is refused, so the word is reset and the key not handled | not executed | Vni.RepeatedToneMovesAsWritten | Vni.RepeatedToneOnMuaCorrected |
| src/VietIME.Core/Engines/VniEngine.cs:130-132 | TryApplyHat6 (and 7 and 8 at lines 169-171 and 206-208) compares ToLower(c) with the plain letters, so a toned vowel is never matched and the tone-keeping lines 144-147 are dead | buffer "má", key '6': á is passed over, m stops the scan, and the word is reset with the key not handled | the hat is matched on the vowel without its tone and the tone is kept, so "má" + '6' gives "mấ" | not executed | Vni.HatTestMissesTonedVowel | Vni.HatTestOnUntonedVowel |

The class `Vni.VniEngine` and everything built on it (`InputEngine.KeyStep`, `Hook.KeyboardHook`) follow the code as written, through `Vni.VniStep`. The step with the corrected tests is `Vni.VniStepCorrected`, and `Vni.VniStepSpec` is proved for both; the lemmas ending in Corrected state what the corrected step achieves.
