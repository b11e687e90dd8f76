# A verified model of Ferrokey's input engines

Ferrokey is an on-screen keyboard for Linux with a built-in terminal. This project models the parts of it
that carry state and promises, and proves those promises for every input and every run:

- the **keyboard engine**: held keys in a fixed sorted array, sticky modifiers, Caps Lock, injected
  modifiers, tap tracking, autorepeat, and the router between the two destinations;
- **text mode**, which turns characters into chords of key actions;
- the **wire codec** of the input daemon: a length-prefixed printer and a streaming decoder;
- the **terminal**: the byte parser (section 5.4 of ECMA-48, with UTF-8 as in section 3 of RFC 3629), the
  screen, and the bounded history of scrolled-out lines;
- **adaptive key geometry**, over exact reals: running touch statistics, the expected cost of a hit
  ellipse, and the constrained optimizer.

Each component has three layers. A specification gives what every operation does as a function of values
(`Keyboard`, `Drivers`, `Parser`, `Grid`, `Geometry`, ...). A class does it as the program does, with fields
and arrays changed in place by loops (`KeyboardMachine`, `KeyboardDrivers`, `ParserMachine`, `GridMachine`,
...), and is proved to follow the specification. Lemmas about the specification state the promises, over
whole runs where they are about runs, so they hold of the class as well. The modules of the last column say what
happens without the specification's own functions: cell by cell, byte by byte, from the list of operations, from the
layout's table or from the touches.

`dafny verify dfyconfig.toml` checks everything.

| component | specification | as it runs | promises |
|---|---|---|---|
| held keys | `Keys`, `SortedKeys`, `Slots` | `KeySet`, `KeyIter`, `SlotTable` | `SortedKeys` |
| state machine | `Keyboard`, `Sinks` | `KeyboardMachine` | `KeyboardRuns`, `KeyboardTaps`, `KeyboardLimits`, `KeyboardLaws` |
| engine, router | `Repeats`, `Layouts`, `Drivers` | `RepeatEngine`, `KeyboardDrivers` | `DriverRuns`, `RepeatDiscipline`, `Routing` |
| text | `Typing` | `TextMode` | `Typing`, `Levels` |
| codec | `Utf8`, `Codec` | `Codec.Decoder` | `Codec`, `CodecLaws` |
| parser | `Parser` | `ParserMachine` | `ParserRuns`, `ParserPrinter`, `ParserLaws` |
| screen | `Grid` | `GridMachine` | `GridRuns`, `GridScroll`, `GridCells`, `Wrapping` |
| history | `History` | `ScrollbackMachine` | `History` |
| geometry | `Geometry` | `GeometryMachine` | `TouchHistory`, `GeometryRuns`, `GeometryLearning`, `GeometryAims` |

## Findings

Where the code falls short of what its comments or tests promise, the model keeps the code as it is. A
lemma shows a failing input, and another says exactly when the promise holds.

- **A key can be lost and stay down.** The rollover cap is checked before injection, and a full 32-slot
  array drops what is inserted. `KeyboardLimits.LostKey` gives the run;
  `KeyboardLimits.NeverStuckIffFits`: the sink and the machine agree on every run exactly when the cap plus
  the six injectable keys (none where latching is off) is at most 32.
- **The held count exceeds the rollover cap.** `KeyboardLimits.HeldBoundHolds` and
  `KeyboardLimits.HeldBoundAttained` give the true bound for any settings, and it is reached: the cap plus six,
  or 32 where that does not fit. `KeyboardLimits.CapIsBoundIff`: the cap holds on every run exactly when
  latching is off or the cap is at least 32.
- **A tap track can outlive its key**, against the comment at `crates/ferrokey-core/src/state.rs:328-332`:
  `KeyboardLimits.StrandedTrack` gives the run (tap Shift, press A, release Shift, press Shift, release A), and
  `KeyboardLimits.DroppedModifier` another (fill all 32 slots under a larger cap, press Shift).
  `KeyboardLimits.TracksHeldIff`: a step keeps the rule exactly when it neither lets go of an injected key that
  has a track of its own nor presses a modifier that a full array drops. `KeyboardLimits.TracksHeldOnRunsIff`:
  every run keeps it exactly when the cap is at most 32 and latching is off or the cap below two. The next release of
  such a key is measured from the stale press: `KeyboardTaps.Tapped` takes the oldest one still open.
- **A key that is up can repeat**, when the layout marks an injectable modifier key repeatable:
  `RepeatDiscipline.GhostRepeats` gives the run; `RepeatDiscipline.RepeatsHeldIffCalm` gives the condition for
  any settings, together with that for lost keys.
- **A refused chord is not undone.** `Typing.ChordRefused`: every modifier already pressed stays down;
  `Typing.TypingReleasesIffFits`: typing a character leaves nothing held exactly when its chord fits the cap.
- **A latched modifier reaches the first character only.** Composed text is looked up with the modifiers in
  force at its start, but the latch is spent by its first key. `Typing.LatchMisspells`: with Shift latched,
  `AA` comes out as `Aa`; `Typing.LatchedTextSpellsIff`: the text is right exactly when the key of each later
  character gives it without the latch, too.
- **An escape inside an OSC string takes the next byte with it**, where the comment at
  `crates/ferrokey-terminal/src/parser.rs:405` drops the escape alone; so `ESC BEL` does not end the string.
  `ParserPrinter.OscAnyBytes` says what becomes of every byte string; `ParserPrinter.PayloadVerbatimIff`: a
  payload arrives as sent exactly when no escape stands within its first 4096 bytes.
- **A cancelled control sequence is not forgotten.** `ParserRuns.CancelledMarkerLeaks`: `ESC [ ? CAN ESC [ 5 h`
  sets a private mode; `ParserRuns.CancelledIntermediateLeaks`: `ESC SP` and then the one-byte CSI carries the
  space into the new sequence. `ParserRuns.CancelShowsIff`: a byte leaves something behind that later input
  brings to light exactly when it cancels a sequence that has collected anything.
- **An escape can be lost with the sequence it interrupts.** `ParserLaws.EscapeStartsIff`: an escape starts a new
  sequence exactly where none has just been introduced or collected an intermediate; `ParserLaws.InterruptedEntryPrints`:
  `ESC [ ESC [ m` prints `[m`.
- **A device control string can swallow its terminator.** `ParserLaws.DcsEndsIff`: the one-byte ST ends it exactly when
  something but parameters and intermediates came before; otherwise the text behind is lost, too.
- **A combining mark can miss its character**, against the comment at `crates/ferrokey-terminal/src/grid.rs:495-497`:
  `GridCells.MarkJoinsIff`: printed right behind a glyph it joins it exactly when the glyph is narrow and does not end
  the row, or wide and does.
- **Line editing leaves the scroll region.** `GridScroll.DeleteLinesConfinedIff`: deleting lines keeps rows
  outside the region, whatever is on them, exactly when the cursor is inside it;
  `GridScroll.InsertLinesConfinedIff`: inserting, when it is inside or on the row just below.
- **History does not always come back.** `History.HistoryRoundTrip`: when the ring has room for the lines,
  exactly when every one of them survives the widths (between equal widths: no wide glyph in the last cell);
  `History.LostBeyondCapacity`: when it has not, exactly when the scroll region is blank.

## Model

| member | source | states |
|---|---|---|
| `SortedKeys.SortedListingIsUnique` | crates/ferrokey-core/src/keyset.rs:14-22 | Two strictly ascending listings of the same set are equal, so the array contents are determined by the set of held keys. |
| `SortedKeys.KeySet.Contains` | crates/ferrokey-core/src/keyset.rs:39-50 | The scan over all 32 slots answers membership in the set the array stands for. |
| `SortedKeys.KeySet.CountOf` | crates/ferrokey-core/src/keyset.rs:61-75 | A key occurs once if held and never otherwise. |
| `SortedKeys.KeySet.Insert` | crates/ferrokey-core/src/keyset.rs:77-105 | In place and in order: the set gains the key, or stays as it is when all 32 slots are taken. |
| `SortedKeys.KeySet.Remove` | crates/ferrokey-core/src/keyset.rs:107-130 | The set loses the key, the order is kept, and the answer says whether it was there. |
| `SortedKeys.KeySet.CopyInto` | crates/ferrokey-core/src/keyset.rs:162-179 | The buffer begins with the held keys, ascending. |
| `SortedKeys.KeySet.HasDuplicates` | crates/ferrokey-core/src/keyset.rs:181-194 | The invariant checker never finds a duplicate. |
| `SortedKeys.KeySet.Iter` | crates/ferrokey-core/src/keyset.rs:142-149 | A new iterator still has all held keys to yield, ascending. |
| `SortedKeys.KeyIter.Next` | crates/ferrokey-core/src/keyset.rs:205-222 | Yields the first of the keys not yet produced, at either end, and nothing once none is left. |
| `SortedKeys.KeyIter.NextBack` | crates/ferrokey-core/src/keyset.rs:230-245 | Yields the last of the keys not yet produced. |
| `Slots.SlotTable.Remove` | crates/ferrokey-core/src/state.rs:466-494 | Finds and removes the oldest record of a key, closing the gap; later records keep their order. |
| `KeyboardMachine.KeyboardState.Press` | crates/ferrokey-core/src/state.rs:243-337 | The program's press, over its fixed tables, gives the events, rollover error and state of the specification, and keeps the active layer current. |
| `KeyboardMachine.KeyboardState.Release` | crates/ferrokey-core/src/state.rs:347-408 | The same for a release: taps toggle, locks mirror, injected keys are let go. |
| `KeyboardMachine.KeyboardState.ReleaseAll` | crates/ferrokey-core/src/state.rs:417-441 | The same for release-all: normal keys first, then modifiers, each from the last held back. |
| `KeyboardMachine.KeyboardState.InjectKeys` | crates/ferrokey-core/src/state.rs:289-312 | The injection loop puts down the preferred keys of the engaged kinds that are not held, in bit order. |
| `KeyboardRuns.StepKeeps` | crates/ferrokey-core/src/state.rs:243-441 | Every step keeps the invariant, and replaying its events on a plain set leads from the old held keys to the new ones. |
| `KeyboardRuns.NoStuckKeys` | crates/ferrokey-core/src/state.rs:243-446 | For every run: the event stream is balanced, leaves the sink holding exactly the machine's keys, and holding nothing once the caller has released all it pressed. |
| `KeyboardRuns.OwnersPending` | crates/ferrokey-core/src/state.rs:313-327 | A key with injected modifiers on record is one the caller has pressed and not yet released. |
| `KeyboardLimits.NeverStuckIffFits` | crates/ferrokey-core/src/state.rs:247-255 | Sink and machine agree on every run exactly when rollover cap plus injectable keys fit the 32 slots. |
| `KeyboardLimits.HeldBoundHolds` | crates/ferrokey-core/src/state.rs:247-312 | For any settings and any run, no more keys are held than the rollover cap plus the injectable ones, or the 32 slots if those are fewer. |
| `KeyboardLimits.HeldBoundAttained` | crates/ferrokey-core/src/state.rs:247-312 | For any settings some run holds that many keys, so the bound cannot be lowered. |
| `KeyboardLimits.CapIsBoundIff` | crates/ferrokey-core/src/state.rs:247-255 | The rollover cap bounds the held count on every run exactly when nothing can be latched or the cap is at least the 32 slots. |
| `KeyboardLimits.LostKey` | crates/ferrokey-core/src/keyset.rs:77-82 | Settings without that room have a run after which the sink holds just the machine's keys and one normal key the machine has lost. |
| `KeyboardLimits.LatchParity` | crates/ferrokey-core/src/state.rs:354-393 | For any settings and any run: a kind is latched exactly when it had an odd number of qualifying taps, as the operations alone tell them, since the last consuming press or release-all, and the lock is Shift exactly under Caps Lock. |
| `KeyboardLimits.PressInjectsOddTaps` | crates/ferrokey-core/src/state.rs:289-327 | For any settings and any run: a normal press emits the preferred keys of the oddly tapped kinds that are not held, in order, then itself; Caps Lock never adds one. |
| `KeyboardLimits.TracksHeldIff` | crates/ferrokey-core/src/state.rs:328-332 | For any settings: a step keeps every tap track on a held modifier exactly when it neither lets go of an injected key with a track nor presses a modifier the full array drops. |
| `KeyboardLimits.StrandedTrack` | crates/ferrokey-core/src/state.rs:395-408 | Wherever two keys may be held and latching is on, a six-step run leaves a tap track for a Shift that is up. |
| `KeyboardLimits.DroppedModifier` | crates/ferrokey-core/src/state.rs:277-284 | Under a cap above 32, a modifier pressed with all slots taken leaves a tap track for a key that is not held. |
| `KeyboardLimits.TracksHeldOnRunsIff` | crates/ferrokey-core/src/state.rs:328-332 | Every run keeps tap tracks on held modifiers exactly when the cap is at most 32, and latching is off or the cap is below two. |
| `KeyboardTaps.TapIsTapped` | crates/ferrokey-core/src/state.rs:357-363 | After any run a release is taken for a tap exactly when the oldest modifier press of the key that no release was measured from came less than the timeout ago, no modifier of another kind was held at it, and no normal key went down since. |
| `KeyboardTaps.TapMeans` | crates/ferrokey-core/src/state.rs:357-363 | Where no older press of the key is open, a press held until now is the one measured, and these conditions on it are exact. |
| `KeyboardLaws.ReleaseAllOrder` | crates/ferrokey-core/src/state.rs:413-441 | Every held key is let go once, modifiers after all others, later keys of the table first; locks stay and nothing else does. |
| `KeyboardLaws.StrokeMirrors` | crates/ferrokey-core/src/state.rs:284-401 | A normal key pressed and let go: the latched kinds that are not held go down in order, the key down and up, they up in the same order; all else is as before but the latch spent and open taps spoiled. |
| `KeyboardLaws.RefusedIff` | crates/ferrokey-core/src/state.rs:243-251 | A press is refused, with the cap reported, exactly when its key is up and the cap used up; presses of held keys and releases of others do nothing. |
| `KeyboardLaws.LockParity` | crates/ferrokey-core/src/state.rs:386-393 | Caps Lock and Num Lock are on exactly after an odd number of strokes of their keys, whatever else the run holds. |
| `KeyboardLaws.InForce` | crates/ferrokey-core/src/state.rs:227-233 | A kind is in force after a run exactly when a key of it is down, it was tapped oddly often since the latch was spent, or it is Shift and Caps Lock was stroked oddly often. |
| `Repeats.RepeatEngine.Tick` | crates/ferrokey-core/src/repeat.rs:145-163 | One pass over the slots fires exactly the tracked keys that are due, in table order, and moves each to now plus cadence. |
| `Repeats.RepeatEngine.KeyDown` | crates/ferrokey-core/src/repeat.rs:77-113 | Replaces any track of the key; a repeatable key is due after the delay, or a day later when repeats are off. |
| `Keys.After` | crates/ferrokey-core/src/time.rs:51-57 | Adding a span saturates at the 64-bit limit, is exact below it, and away from it never goes back in time. |
| `KeyboardDrivers.KeyboardDriver.HandleAction` | crates/ferrokey-core/src/action.rs:166-198 | Down, up, tap and release-all drive state machine and repeats as specified, and the emitted events go to the active destination. |
| `KeyboardDrivers.KeyboardDriver.Emit` | crates/ferrokey-core/src/action.rs:218-233 | The loop forwards the events, in order, to the active destination alone. |
| `KeyboardDrivers.KeyboardDriver.SwitchDestination` | src/main.rs:533-546 | Switching releases everything at the old destination first, then makes the other one active. |
| `DriverRuns.StepGood` | crates/ferrokey-core/src/action.rs:166-216 | Every engine step keeps the invariant and sends a balanced piece of stream, repeats included. |
| `DriverRuns.DestinationsIsolated` | src/input.rs:63-144 | Over any mix of actions, ticks, layout changes and switches: each destination's own stream is balanced, and the inactive one holds nothing. |
| `Routing.RoutedExactly` | src/input.rs:63-144 | After any run: the active destination is the first one flipped once per switch, and each log has grown by exactly what the engine emitted while its destination was active. |
| `Routing.NothingLost` | src/input.rs:63-144 | Every event the engine emits goes to exactly one destination. |
| `Routing.TapActionLatchesIff` | crates/ferrokey-core/src/action.rs:186-191 | The tap action holds its key for 20 ms: from rest it latches a modifier exactly when latching is on and the timeout is longer. |
| `Routing.HoldRepeatsIff` | crates/ferrokey-core/src/layout.rs:248-253 | A key held from rest repeats at a tick exactly when repeats are on, the delay has passed and its layout entry allows it, or, without one, it is neither modifier nor lock key. |
| `Routing.DroppedNotTracked` | crates/ferrokey-core/src/action.rs:174-180 | A key the full array dropped is not set to repeat. |
| `RepeatDiscipline.RepeatsKeepTime` | crates/ferrokey-core/src/action.rs:201-210 | After any run a tick repeats a key exactly when its last action was a press that went through and its due moment has come; such a key is down. |
| `RepeatDiscipline.DueMeans` | crates/ferrokey-core/src/repeat.rs:77-163 | Short of clock saturation, due means at least the delay after the press, then at least the cadence after the previous repeat. |
| `RepeatDiscipline.RepeatsHeldIffCalm` | crates/ferrokey-core/src/action.rs:168-210 | For any settings and a fixed layout: every run is balanced, repeats included, exactly when cap and injectable keys fit the 32 slots, and repeats or latching are off or no injectable key repeats. |
| `RepeatDiscipline.GhostRepeats` | crates/ferrokey-core/src/layout.rs:245-253 | With repeats on and a repeatable injectable key there is a run whose last event repeats it while machine and sink hold nothing. |
| `Layouts.FindChar` | crates/ferrokey-core/src/layout.rs:258-293 | The search returns a key and modifiers that give the character on top of the active ones, and nothing only if no combination tried gives it. |
| `Levels.SymbolIsFirstOnLadder` | crates/ferrokey-core/src/layout.rs:184-201 | A key gives the symbol of the first level it has on the ladder of the modifiers: Fn first, AltGr with Shift falling back to AltGr and then Shift, AltGr to the primary level. |
| `Levels.LayerIsFirstRung` | crates/ferrokey-core/src/state.rs:66-80 | The active layer names the first level of that ladder. |
| `Levels.FindsPreferred` | crates/ferrokey-core/src/layout.rs:258-293 | The search takes the first of no modifiers, Shift, AltGr and both under which any key gives the character by its table, and finds none only if there is none. |
| `Levels.FindsItsLevel` | crates/ferrokey-core/src/layout.rs:258-293 | A character that stands on one level of one key is found there with exactly the modifiers of that level; on a Fn level alone it is not found. |
| `Levels.TypingSends` | src/text.rs:134-171 | Typing such a character from idle sends exactly those modifiers down, the key down and up, and the modifiers up; for a Fn level nothing, and the character is reported. |
| `Typing.TapSpells` | crates/ferrokey-core/src/action.rs:187-195 | Tapping a normal key while only modifiers are down spells its symbol, spends the latch and puts the held keys back. |
| `Typing.ChordSpells` | src/text.rs:144-168 | A chord within the rollover cap spells its character, whatever is latched, and releases what it pressed. |
| `Typing.TypeCharSpells` | src/text.rs:144-168 | At rest, with any latch waiting and a cap of at least three, a mapped character is spelled exactly and the engine is at rest again. |
| `Typing.TypeTextReads` | src/text.rs:134-171 | Whatever modifiers the search counted and whatever is latched: the events of a text read back as what the keys found give, the latch applying to the first one alone, up to the first unmappable character, which is the error. |
| `Typing.LatchedTextSpellsIff` | src/text.rs:73-106 | With a latch waiting and counted in the search for every character, the text is spelled exactly when the key of each later character gives it without the latch. |
| `Typing.LatchMisspells` | src/text.rs:73-106 | With Shift latched, `AA` on a one-letter layout reads back as `Aa`, and no error is reported. |
| `Typing.TypeTextSpells` | src/text.rs:134-171 | From an idle engine with a cap of at least three: the events read back as the text, or as its part before the first unmappable character, which is the error; idle again afterwards. |
| `Typing.ChordRefused` | src/text.rs:146-155 | A chord too big for the cap is refused and its modifiers stay down. |
| `Typing.TypingReleasesIffFits` | src/text.rs:144-168 | Typing a character from rest leaves nothing held exactly when its chord fits the cap, or nothing can be pressed at all. |
| `TextMode.TypeText` | src/text.rs:134-171 | The nested loops over characters, modifiers down, tap and modifiers up do what the specification of typing says. |
| `Utf8.DecodeEncode` | crates/ferrokey-terminal/src/parser.rs:323-375 | Every Unicode scalar survives encoding and decoding. |
| `Utf8.EncodeDecode` | crates/ferrokey-terminal/src/parser.rs:323-375 | Every well-formed sequence is the only encoding of its character. |
| `Utf8.EncodeOrdered` | crates/ferrokey-terminal/src/parser.rs:323-375 | Encodings are in dictionary order as their code points are, which no other assignment of the well-formed sequences is. |
| `Codec.RoundTrip` | crates/ferrokey-protocol/src/codec.rs:43-109 | A message can be encoded exactly when its string has at most 256 bytes, and then decodes to itself from a small frame. |
| `Codec.Canonical` | crates/ferrokey-protocol/src/codec.rs:206-300 | Any payload that decodes is the one encoding of its message. |
| `Codec.ParseAppend` | crates/ferrokey-protocol/src/codec.rs:124-182 | Reading a stream in two parts is reading it at once. |
| `Codec.ChunkingIndependent` | crates/ferrokey-protocol/src/codec.rs:124-157 | However cut, a stream gives the messages and leftover of the whole, or fails exactly when the whole does, with the same fault, after delivering a prefix. |
| `Codec.RepliesMakeConnection` | crates/ferrokey-protocol/src/codec.rs:124-157 | The decoder's answers, push by push, are those of a connection that is dropped at its first fault. |
| `Codec.FaultStartsOver` | crates/ferrokey-protocol/src/codec.rs:150-156 | After a fault the decoder answers later pushes as a new one would. |
| `Codec.BufferBounded` | crates/ferrokey-protocol/src/codec.rs:142-148 | What stays buffered is below one maximal frame, so the size guard never fires. |
| `Codec.StreamRoundTrip` | crates/ferrokey-protocol/src/codec.rs:43-157 | Messages encoded one after the other and delivered in any pieces arrive exactly, leaving nothing behind. |
| `Codec.Decoder.Feed` | crates/ferrokey-protocol/src/codec.rs:124-157 | The draining loop over the mutable buffer answers as the whole-stream parse says, and clears the buffer on a fault. |
| `Codec.Decoder.FeedAll` | crates/ferrokey-protocol/src/codec.rs:124-157 | Any sequence of pushes, through faults and beyond, is answered as specified. |
| `CodecLaws.ReadsCleanIff` | crates/ferrokey-protocol/src/codec.rs:124-182 | A stream is read without a fault exactly when it is the frames of those messages, each with the magic bytes and its length, and a rest that is no whole frame. |
| `CodecLaws.ReadsFaultyIff` | crates/ferrokey-protocol/src/codec.rs:150-182 | It is refused, with that error and after those messages, exactly when behind their frames stands one with another magic, a length over 4096 or a payload that does not decode. |
| `CodecLaws.DecodesIff` | crates/ferrokey-protocol/src/codec.rs:206-300 | A payload decodes exactly when some message encodes to it. |
| `CodecLaws.WhyRefused` | crates/ferrokey-protocol/src/codec.rs:206-300 | A refused payload is malformed, except where a greeting or an error report with a known code announces a string over 256 bytes. |
| `CodecLaws.WireForms` | crates/ferrokey-protocol/src/codec.rs:51-109 | The bytes of every message written out, numbers low byte first. |
| `ParserRuns.FeedBounded` | crates/ferrokey-terminal/src/parser.rs:247-375 | From any bounded state: at most 16 parameters, 2 intermediates, 4096 payload bytes; pending UTF-8 only in ground; actions never exceed bytes, a pending sequence counting for one. |
| `ParserRuns.NeverAmplifies` | crates/ferrokey-terminal/src/parser.rs:240-245 | No byte string yields more actions than bytes. |
| `ParserRuns.ForgettingOwnsOnly` | crates/ferrokey-terminal/src/parser.rs:533-650 | A parser that forgets cancelled sequences remembers only the sequence under way, and starts each from nothing. |
| `ParserRuns.LosslessIsForgetting` | crates/ferrokey-terminal/src/parser.rs:247-265 | The real parser does what that one does on every stream in which nothing collected is cancelled. |
| `ParserRuns.OwnBytesOnly` | crates/ferrokey-terminal/src/parser.rs:533-650 | On such a stream, from the byte that opens a CSI sequence on, everything comes out as from a parser that has seen nothing else. |
| `ParserRuns.CancelShowsIff` | crates/ferrokey-terminal/src/parser.rs:500-508 | A byte leaves something later input can bring to light exactly when it cancels a sequence that has collected anything. |
| `ParserRuns.CancelledMarkerLeaks` | crates/ferrokey-terminal/src/parser.rs:559-561 | A private marker cancelled by CAN turns up in the next sequence. |
| `ParserRuns.CancelledIntermediateLeaks` | crates/ferrokey-terminal/src/parser.rs:500-508 | An intermediate of an abandoned escape sequence turns up in the CSI sequence that follows. |
| `ParserPrinter.DigitsRun` | crates/ferrokey-terminal/src/parser.rs:563-572 | A digit string of any length accumulates to its decimal value, capped at 65535. |
| `ParserPrinter.CsiRun` | crates/ferrokey-terminal/src/parser.rs:533-650 | A printed control sequence parses to its marker, first 16 parameters, first 2 intermediates and final byte. |
| `ParserPrinter.OscItemRun` | crates/ferrokey-terminal/src/parser.rs:654-703 | A printed string, escapes within it included, parses to the first 4096 of its stored bytes under either terminator. |
| `ParserPrinter.OscAnyBytes` | crates/ferrokey-terminal/src/parser.rs:398-409 | Any bytes behind the start of a string: the first unshielded terminator reports what was stored, the first unshielded CAN or SUB drops it, the rest is read from ground, and before either the string stays open and silent. |
| `ParserPrinter.PayloadVerbatimIff` | crates/ferrokey-terminal/src/parser.rs:398-409 | A payload is reported as it was sent exactly when no escape stands within its first 4096 bytes. |
| `ParserPrinter.ParserUndoesPrinter` | crates/ferrokey-terminal/src/parser.rs:247-760 | From clean ground the bytes of any list of characters, controls, sequences and strings parse to exactly what they mean, strings of other kinds to nothing, and end in clean ground. |
| `ParserLaws.CharacterCutShort` | crates/ferrokey-terminal/src/parser.rs:365-374 | A proper part of any character followed by a byte that does not continue it gives one replacement, and then exactly what the rest gives by itself. |
| `ParserLaws.BrokenOff` | crates/ferrokey-terminal/src/parser.rs:323-374 | The same for any begun sequence, whether it could have become a character or not; the state agrees, too. |
| `ParserLaws.IllFormedOnce` | crates/ferrokey-terminal/src/parser.rs:342-364 | As many bytes as announced that encode no character give one replacement. |
| `ParserLaws.LoneByte` | crates/ferrokey-terminal/src/parser.rs:287-341 | A byte that can begin nothing gives one replacement, and reading goes on behind it. |
| `ParserLaws.MeaninglessByte` | crates/ferrokey-terminal/src/parser.rs:267-312 | Controls without a meaning and DEL are read past. |
| `ParserLaws.OneByteForms` | crates/ferrokey-terminal/src/parser.rs:287-312 | The one-byte introducers read on as the two-byte ones. |
| `ParserLaws.StringEnds` | crates/ferrokey-terminal/src/parser.rs:743-760 | SOS, PM and APC strings are silent and over at the one-byte terminator. |
| `ParserLaws.DcsEndsIff` | crates/ferrokey-terminal/src/parser.rs:705-720 | For device control strings that holds exactly when something but parameters and intermediates came before. |
| `ParserLaws.CancelEnds` | crates/ferrokey-terminal/src/parser.rs:557-561 | CAN and SUB silently end whatever is under way, but for the byte an escape shields in an OSC string. |
| `ParserLaws.EscapeStartsIff` | crates/ferrokey-terminal/src/parser.rs:533-556 | An escape starts a new sequence exactly where it is not shielded and no CSI sequence has just been introduced or collected an intermediate. |
| `ParserLaws.MisfitRereads` | crates/ferrokey-terminal/src/parser.rs:500-531 | A byte that has no place in CSI parameters, a charset, a line attribute or an escape sequence is read again from ground. |
| `ParserLaws.EscapeSequenceSilent` | crates/ferrokey-terminal/src/parser.rs:494-511 | An escape sequence with intermediates does nothing but leave them behind. |
| `ParserLaws.DigitRestarts` | crates/ferrokey-terminal/src/parser.rs:593-614 | A digit behind a CSI intermediate starts the parameters again and drops the marker. |
| `ParserMachine.TerminalParser.FeedBytes` | crates/ferrokey-terminal/src/parser.rs:240-265 | Feeding the program's parser, with its arrays and counters, yields the specified actions and state. |
| `ParserMachine.TerminalParser.ContinueUtf8` | crates/ferrokey-terminal/src/parser.rs:323-375 | The pending-byte array grows, completes, or is replaced and the byte read afresh, as specified. |
| `GridRuns.ApplyShape` | crates/ferrokey-terminal/src/grid.rs:341-870 | Every operation with any arguments keeps row count and width, cursors on screen, a proper region, table lengths and at most two combining marks. |
| `GridRuns.ApplyTracked` | crates/ferrokey-terminal/src/grid.rs:330-335 | No operation changes a row without leaving a dirty mark for it. |
| `GridRuns.RefreshExact` | crates/ferrokey-terminal/src/grid.rs:311-328 | Taking over the reported rows makes a copy equal to the screen and clears the marks. |
| `GridRuns.ShadowAgrees` | crates/ferrokey-terminal/src/grid.rs:311-335 | After any interleaving of operations and refreshes, resizing included, one more refresh makes any copy equal to the screen. |
| `GridScroll.ScrollUpConserves` | crates/ferrokey-terminal/src/grid.rs:616-629 | The lines returned followed by those kept are the old region; the rest is blank; rows outside stay. |
| `GridScroll.ScrollDownConserves` | crates/ferrokey-terminal/src/grid.rs:631-638 | The kept lines followed by the lost ones are the old region; rows outside stay. |
| `GridScroll.DeleteLinesConfinedIff` | crates/ferrokey-terminal/src/grid.rs:777-787 | Rows outside the region stay, whatever is on screen, exactly when the cursor is in the region. |
| `GridScroll.InsertLinesConfinedIff` | crates/ferrokey-terminal/src/grid.rs:765-774 | Rows outside the region stay exactly when the cursor is in the region or on the row just below it. |
| `GridScroll.DeleteUndoesInsert` | crates/ferrokey-terminal/src/grid.rs:672-693 | Deleting as many cells as were inserted restores the line but for the cells pushed off its end. |
| `GridScroll.DeleteLinesUndoInsert` | crates/ferrokey-terminal/src/grid.rs:765-787 | Deleting as many lines as were inserted restores the screen but for the lowest lines of the region. |
| `Wrapping.WrappingIsLossless` | crates/ferrokey-terminal/src/grid.rs:492-579 | Any single-width text on a new screen reads back from scrolled-out lines and live rows, then blanks; cursor, pending wrap and scrolled-line count depend on the length alone, as stated. |
| `GridCells.EraseDisplayCells` | crates/ferrokey-terminal/src/grid.rs:725-762 | Mode 0 blanks the cursor's cell and all read after it, mode 1 it and all read before it, any other mode everything; every other cell, the cursor and the region stay. |
| `GridCells.EraseLineCells` | crates/ferrokey-terminal/src/grid.rs:708-722 | The same within the cursor's row. |
| `GridCells.EraseCharsCells` | crates/ferrokey-terminal/src/grid.rs:696-705 | That many cells from the cursor on are blanked, as far as there are, and no others. |
| `GridCells.InsertCharsCells` | crates/ferrokey-terminal/src/grid.rs:672-681 | Cells from the cursor on move right by n, blanks take their place, the rest of the screen stays. |
| `GridCells.DeleteCharsCells` | crates/ferrokey-terminal/src/grid.rs:684-693 | Cells behind move left by n and blanks follow. |
| `GridCells.InsertLinesRows` | crates/ferrokey-terminal/src/grid.rs:765-774 | Row by row: what lies between cursor and region end moves down by n, at most by the region's height. |
| `GridCells.DeleteLinesRows` | crates/ferrokey-terminal/src/grid.rs:777-787 | Row by row: what lies below moves up by n, and the lines taken out are returned in order. |
| `GridCells.IndexMeans` | crates/ferrokey-terminal/src/grid.rs:569-581 | Down a row above the region's end, else the region moves up one and its top row is returned. |
| `GridCells.ReverseIndexMeans` | crates/ferrokey-terminal/src/grid.rs:584-593 | Up a row below the region's top, else the region moves down one. |
| `GridCells.PrintCells` | crates/ferrokey-terminal/src/grid.rs:509-545 | A glyph has all its cells on one row, a wide one two adjacent cells and never the last column alone; no other cell changes but by the wrap; the cursor waits behind it. |
| `GridCells.MarkCells` | crates/ferrokey-terminal/src/grid.rs:494-507 | A zero-width mark joins the cell before the cursor, at most two to a cell. |
| `GridCells.MarkJoinsIff` | crates/ferrokey-terminal/src/grid.rs:495-507 | Right behind a glyph it joins that glyph exactly when that is narrow and does not end the row, or wide and does. |
| `GridCells.ResizeCells` | crates/ferrokey-terminal/src/grid.rs:808-859 | Cell by cell what a resize keeps, and where cursor, saved cursor, region and tab stops go. |
| `GridCells.CursorMoves` | crates/ferrokey-terminal/src/grid.rs:353-404 | Absolute moves count from the region under origin mode; absolute and relative ones stop at the edges. |
| `GridCells.RegionMeans` | crates/ferrokey-terminal/src/grid.rs:373-393 | A region with rows is taken over, any other ignored, and the cursor goes home. |
| `GridCells.TabMoves` | crates/ferrokey-terminal/src/grid.rs:430-447 | Tab and back-tab go to the nearest stop in their direction, or to the edge. |
| `GridCells.RestoreBringsBack` | crates/ferrokey-terminal/src/grid.rs:476-483 | Restoring brings the cursor back to where it was saved, whatever happened in between short of a save or a resize. |
| `GridMachine.TerminalGrid.ConsumeDirty` | crates/ferrokey-terminal/src/grid.rs:311-328 | The loops report the marked rows, ascending, or all of them, and clear every mark. |
| `GridMachine.TerminalGrid.CycleUp` | crates/ferrokey-terminal/src/grid.rs:616-629 | The remove-and-insert loop yields the specified rows and the lines taken out, in order. |
| `GridMachine.TerminalGrid.EraseInDisplay` | crates/ferrokey-terminal/src/grid.rs:725-762 | The nested loops blank exactly the cells the mode names. |
| `GridMachine.TerminalGrid.Print` | crates/ferrokey-terminal/src/grid.rs:492-545 | Printing in place wraps, writes one or two cells or joins a mark, and returns the line scrolled out, as specified. |
| `GridMachine.TerminalGrid.Resize` | crates/ferrokey-terminal/src/grid.rs:808-859 | Resizing in place keeps the top rows, refits every line and clamps the rest; sizes out of bounds change nothing. |
| `History.PushAllKeepsNewest` | crates/ferrokey-terminal/src/scrollback.rs:80-94 | However many lines are pushed, the ring holds exactly the newest it has room for. |
| `History.RestoreTimesClosed` | crates/ferrokey-terminal/src/grid.rs:643-655 | Restoring n times puts the newest n lines, or all there are, back on top of the region, oldest first. |
| `History.HistoryRoundTrip` | crates/ferrokey-terminal/src/scrollback.rs:80-100 | Scrolling out any n lines of the region and restoring n times gives the screen back exactly when the ring has room for them and each survives both widths, or it has not and the region is blank; older history loses only what was evicted. |
| `History.ThereAndBackClosed` | crates/ferrokey-terminal/src/scrollback.rs:80-100 | The result of the trip in closed form for any widths and any capacity. |
| `History.LostBeyondCapacity` | crates/ferrokey-terminal/src/scrollback.rs:88-92 | With more lines than room, the screen comes back exactly when every row of the region is blank. |
| `ScrollbackMachine.Scrollback.Push` | crates/ferrokey-terminal/src/scrollback.rs:80-94 | Cutting, padding, clearing half a glyph, evicting and appending in place give the specified ring. |
| `ScrollbackMachine.Scrollback.FromBottom` | crates/ferrokey-terminal/src/scrollback.rs:109-119 | Counting from the newest and from the oldest mirror each other. |
| `ScrollbackMachine.Scrollback.DrainOldest` | crates/ferrokey-terminal/src/scrollback.rs:133-138 | The loop drops the oldest n lines, or all there are. |
| `TouchHistory.OnlineIsTwoPass` | crates/ferrokey-core/src/geometry.rs:198-210 | After any touches the running mean, squared deviations and co-deviation equal the two-pass sums. |
| `TouchHistory.AroundTheMean` | crates/ferrokey-core/src/geometry.rs:799-808 | Deviations from any point are those from the mean plus the mean's own offset, once per touch. |
| `TouchHistory.CostIsTotalDistance` | crates/ferrokey-core/src/geometry.rs:799-808 | The cost of an ellipse is the sum over all recorded touches of their normalized squared distance to it. |
| `TouchHistory.DistancesAgree` | crates/ferrokey-core/src/geometry.rs:111-115 | Cost and hit test measure alike on ellipses whose axes are not vanishing. |
| `GeometryRuns.BlendedProduct` | crates/ferrokey-core/src/geometry.rs:810-818 | The product of two blended semi-axes stays above any bound both ends meet: the area limit is convex. |
| `GeometryRuns.LerpInBounds` | crates/ferrokey-core/src/geometry.rs:810-818 | A step between two ellipses within the hard limits stays within them. |
| `GeometryRuns.EnlargedInBounds` | crates/ferrokey-core/src/geometry.rs:765-770 | Scaling up to the minimum area breaks no other limit. |
| `GeometryRuns.ClampedInBounds` | crates/ferrokey-core/src/geometry.rs:747-786 | Whatever is proposed, what leaves the clamp is within the hard limits. |
| `GeometryRuns.HardLimitsHold` | crates/ferrokey-core/src/geometry.rs:599-666 | With default constraints and keys drawn within them, displacement, expansion, radius and area limits hold for every key after any run. |
| `GeometryRuns.OnlyOverlapReported` | crates/ferrokey-core/src/geometry.rs:287-323 | Within the limits the diagnostics can name nothing but the overlap. |
| `GeometryLearning.PassIsBoundedStep` | crates/ferrokey-core/src/geometry.rs:636-666 | A pass leaves a key alone unless the gate passes, then moves it the configured fraction towards its candidate, or half of that. |
| `GeometryLearning.FrozenNeverMoves` | crates/ferrokey-core/src/geometry.rs:599-606 | While frozen or off, no recording and no pass moves any key. |
| `GeometryLearning.StatisticsExactOverRuns` | crates/ferrokey-core/src/geometry.rs:551-558 | At any moment of a run a key's statistics are the two-pass statistics of its own touches since the last reset. |
| `GeometryLearning.CostExactOverRuns` | crates/ferrokey-core/src/geometry.rs:799-808 | So its cost is the total squared distance of those touches. |
| `GeometryLearning.PendingCounts` | crates/ferrokey-core/src/geometry.rs:551-558 | The counter that says when a pass is due counts the touches since the last reset or pass let through, up to 32 bits; on and frozen are as last set. |
| `GeometryLearning.ResetRestores` | crates/ferrokey-core/src/geometry.rs:533-544 | A reset gives back the initial controller, settings apart, whatever was learned. |
| `GeometryAims.CandidateAims` | crates/ferrokey-core/src/geometry.rs:668-709 | After any run: a candidate has its centre at the point nearest the mean of the key's touches that the allowed displacement admits, if the bias reaches the threshold, else at the drawn centre, or halfway there; without neighbours its axes are the drawn ones plus half the deviation, within the limits. |
| `GeometryAims.PassApproaches` | crates/ferrokey-core/src/geometry.rs:599-622 | After any run a pass leaves no key's centre further, on either axis, from that point. |
| `GeometryAims.SettleMeans` | crates/ferrokey-core/src/geometry.rs:714-742 | Two neighbours shrink exactly when their boxes share too much, by what is shared too much in proportion to their shorter sides, and keep their centres. |
| `GeometryAims.CompetitionShrinks` | crates/ferrokey-core/src/geometry.rs:714-742 | The competition makes no candidate larger. |
| `GeometryAims.CompetitionKeeps` | crates/ferrokey-core/src/geometry.rs:714-742 | It moves no centre and leaves alone who has no neighbours. |
| `GeometryAims.SharedArea` | crates/ferrokey-core/src/geometry.rs:141-149 | The shared area is that of the rectangle of the points inside both boxes. |
| `GeometryAims.PulledIff` | crates/ferrokey-core/src/geometry.rs:771-783 | A proposal within the hard limits is pulled halfway back exactly when it crowds a neighbour as that stands now. |
| `GeometryAims.ReportIs` | crates/ferrokey-core/src/geometry.rs:287-324 | The limit reported is the first broken of displacement, growth, size and crowding. |
| `GeometryAims.PassRecords` | crates/ferrokey-core/src/geometry.rs:599-622 | What a pass notes of every key: the proposal that passed the gate and the limit on it, else the limit on the candidate. |
| `GeometryMachine.AdaptiveGeometry.Compete` | crates/ferrokey-core/src/geometry.rs:714-742 | The nested loops settle every pair of neighbours once, in key order. |
| `GeometryMachine.AdaptiveGeometry.ClampToConstraints` | crates/ferrokey-core/src/geometry.rs:747-786 | Clamps one ellipse as specified and notes the limit that remains on that key alone. |
| `GeometryMachine.AdaptiveGeometry.Optimize` | crates/ferrokey-core/src/geometry.rs:599-622 | The loops of a pass, limits noted as they go, give the specified keys; off or frozen, only the limits are noted. |

## Left out

- Sinks that fail: a destination is an event log, so `InputRouter` and the driver never see a sink error.
- `TextComposer` and the compose engine, layout loading, key names and codes: data tables and finite cases. A physical key is its position in the key table.
- The iteration order of the layout's key table is a parameter of the search, since it is not fixed by the program.
- Modifier sets are sets of kinds rather than bits of a byte, and injection records are sequences rather than six-slot arrays.
- Texts inside codec errors; the socket loops around the decoder.
- Parser statistics counters, and table slots beyond the live count.
- The screen's revision counter and saved attributes; display width is a parameter of printing; moving the cursor by amounts that overflow 32 bits.
- Wide-glyph pairing: editing operations do not keep a wide cell followed by its continuation.
- The terminal facade, viewport, renderer, key encoder and colours.
- Floating point: geometry is over exact reals, and the square root is any function that gives a non-negative root.
- Hit testing, explainability records, data sets and synthetic populations of the geometry module.
- The neighbour-overlap limit, and any claim that one pass lowers the total cost: the code only pulls halfway and guarantees neither.
- GeometryLearning.StatisticsExactOverRuns: the sample counter is unbounded, where the program counts in 32 bits and would overflow after 4294967295 touches of one key.
- User interface, tray, D-Bus, X11, Wayland, clipboard, daemon, pty and process handling.
