# Console Cubes Club — a verified model of the game core

This project models the core of "Console Cubes Club", a browser Tetris game, and proves
properties about that model in Dafny. It covers these parts:

- **The game hook** (`useTetris.ts`, module `Tetris`).
  - The 20 × 10 board and the seven piece shapes.
  - Collision as `checkCollision` scans it.
  - Merging, quarter-turn rotation, line clearing, the score table and the drop speed.
  - The game commands: start, pause, left, right, rotate, move down, hard drop and auto-drop.
  - The hook's own keydown listener for the arrow keys, space and p.
- **The input hook** (`useInputHandler.ts`, module `InputHandler`).
  - Key lookup through the bindings.
  - DAS, the delayed repeat of a held direction, and the time DCD adds before a switched direction repeats.
  - ARR, the auto-repeat rate, and the soft-drop repeat.
  - Key release hand-over and blur.
  - The effects that clear state when the play state or the settings change value.
- **The settings hook** (`usePlayerSettings.ts`, module `Settings`): defaults, loading and saving, per-field updates, key rebinding, reset and the three presets.
- **The screens**:
  - The settings dialog's sliders and labels (`SettingsDialog`).
  - The line-clear overlay's labels, colours, and its visibility with the pending hide timer (`ClearFeedback`).
  - The playfield view (`TetrisBoard`).
  - The key-binding editor (`KeyboardMapper`).
  - The game screen (`TetrisGame`): its once-per-game score report, and a keydown as both keyboard listeners handle it.
- **The database proxy function** (`supabase/functions/db-proxy/index.ts`, module `DbProxy`).
  - MySQL value escaping, including the `String(value)` fallback for objects and arrays.
  - An array `data` as the object-handling code sees it.
  - The statement texts for select, insert, update and delete, including the delete safety guard.
  - The external-database config rules.
  - The routing between the external MySQL back end and the default back end.

The hooks are modelled in two layers:

- Every state change is a pure function on a state datatype. Its invariant is proved preserved, and lemmas relate several steps.
- Where the source works step by step, there is also a method with loops and in-place updates. Examples are `checkCollision`, `mergePieceToBoard`, `rotateMatrix`, `clearLines`, `getActionForKey`, `getLabel`, the view's board copy and the query builders.
  - Each method is proved equal to the function that specifies it.
  - The input hook's refs are a class (`InputHandler.Handler`). Its methods update the refs and append the game callbacks they invoke to a log.

Randomness is a parameter. The piece type drawn at a spawn is passed in.

Timers are events. "The DAS timeout elapses" and "one ARR period elapses" are transitions. The pending timers and their delays are part of the state.

Browser storage, the network, the database drivers and the Deno server are not modelled. The proxy's outcome is the list of statements it would send, or the error it replies with.

`Wrappers` holds `Option` and `Result`. `Text` holds the ASCII case mapping, decimal text of integers and `join`.

Where the code and its documentation differ, the model follows the code:

- `togglePause` flips the pause flag whatever the other flags are.
- Rotation tries no wall kicks.
- The input hook calls the clockwise callback for the clockwise binding only when `primaryRotation` is exactly `'cw'`. In every other case it swaps the two rotations.
  - Nothing in the app writes `primaryRotation`. The settings type does not declare it, and the defaults, the presets and the editors never set it.
  - It can only arrive in a stored settings record, through the spread of the parsed record in the state initialiser (`src/hooks/usePlayerSettings.ts:54`).
- Two keyboard listeners are active during a game: the game hook's own and the input hook's. Both handle every key, and `TetrisGame.PressAsWritten` models the pair.
- The game screen passes the input hook `softDrop`, `rotateCCW` and `holdPiece`, which the game hook does not return. It passes no `onRotate180` at all. Those callbacks are undefined: calling one throws, and the game state does not change.

## Model

| member | source | states |
|---|---|---|
| Tetris.EmptyRows | src/hooks/useTetris.ts:33-34 | n rows, each 10 empty cells |
| Tetris.CreateEmptyBoard | src/hooks/useTetris.ts:33-34 | a 20 × 10 board of empty cells |
| Tetris.ShapeOfWellShaped | src/hooks/useTetris.ts:19-27 | every piece shape is a rectangular matrix of at most 4 × 4 with a filled cell |
| Tetris.Collides | src/hooks/useTetris.ts:57-70 | only a shape with a filled cell can collide |
| Tetris.CheckCollision | src/hooks/useTetris.ts:57-70 | the nested scan with early return answers exactly whether some filled cell, moved by the offset, leaves the walls or floor or hits a filled visible cell |
| Tetris.CollidesShifted | src/hooks/useTetris.ts:57-70 | testing at an offset is testing the moved piece at offset zero |
| Tetris.FloorBlocks | src/hooks/useTetris.ts:62-64 | a piece moved to or below the floor always collides |
| Tetris.FitsAboveFloor | src/hooks/useTetris.ts:62-64 | a piece that fits has its anchor row above the floor |
| Tetris.Overlay | src/hooks/useTetris.ts:72-83 | the merged board is still 20 × 10 |
| Tetris.MergePieceToBoard | src/hooks/useTetris.ts:72-83 | the copy-then-write loops produce exactly the overlay; the input board is unchanged |
| Tetris.MergedCollides | src/hooks/useTetris.ts:72-83 | after merging, the piece collides where it was placed |
| Tetris.Rotated | src/hooks/useTetris.ts:45-55 | an r × c matrix becomes c × r |
| Tetris.RotatedCell | src/hooks/useTetris.ts:45-55 | entry (i, c) moves to (c, r − 1 − i) |
| Tetris.RotateMatrix | src/hooks/useTetris.ts:45-55 | the fill-by-index loops produce exactly the quarter turn |
| Tetris.RotatedKeepsCount | src/hooks/useTetris.ts:45-55 | rotation keeps the number of filled cells |
| Tetris.RotatedTwice | src/hooks/useTetris.ts:45-55 | two quarter turns reverse and mirror the matrix |
| Tetris.RotatedFourTimes | src/hooks/useTetris.ts:45-55 | four quarter turns give the original matrix |
| Tetris.RotatedWellShaped | src/hooks/useTetris.ts:175-185 | a rotated piece shape is still a piece shape |
| Tetris.Kept | src/hooks/useTetris.ts:86 | the kept rows have no full row, each comes from the board, and with the full rows they account for every row |
| Tetris.ClearedBoard | src/hooks/useTetris.ts:85-92 | 20 rows: one empty row on top per full row, then the kept rows in order |
| Tetris.ClearLines | src/hooks/useTetris.ts:85-92 | the filter-then-unshift loop gives the cleared board and the number of full rows |
| Tetris.ClearedBoardSpec | src/hooks/useTetris.ts:85-92 | the cleared board is 20 × 10, has no full row, and has the kept rows in order at the bottom under empty rows |
| Tetris.KeptAppend | src/hooks/useTetris.ts:86 | the row filter distributes over concatenation |
| Tetris.KeptNoFull | src/hooks/useTetris.ts:86 | a board without full rows passes the filter unchanged |
| Tetris.CountFullWithin | src/hooks/useTetris.ts:85-92 | full rows only inside a window number at most the window's size |
| Tetris.LinesClearedBy | src/hooks/useTetris.ts:202-205 | locking a fitting piece on a board with no full rows clears at most 4 lines |
| Tetris.CalculateScore | src/hooks/useTetris.ts:94-97 | zero exactly for no lines; at least the 0/40/100/300/1200 table entry for the line count |
| Tetris.ScoreIncreasesWithLines | src/hooks/useTetris.ts:94-97 | more lines at the same level score strictly more |
| Tetris.DropInterval | src/hooks/useTetris.ts:284-291 | between 100 and 1000 ms: 1000 − 100 · level up to level 9, 100 from level 9 on |
| Tetris.DropIntervalNonIncreasing | src/hooks/useTetris.ts:284-291 | a higher level never drops more slowly |
| Tetris.Spawn | src/hooks/useTetris.ts:36-43 | the drawn type with its own shape, in the top row |
| Tetris.SpawnCentred | src/hooks/useTetris.ts:41 | the free columns right of a spawned piece equal those on its left, or exceed them by one |
| Tetris.SpawnFitsEmptyBoard | src/hooks/useTetris.ts:36-43 | a spawned piece, centred by its top row's width at row 0, fits the empty board |
| Tetris.InitialState | src/hooks/useTetris.ts:112-122 | the whole initial state: empty board, no active piece, the next piece at its spawn, score, level and lines 0, not playing, not over, not paused; the invariant holds |
| Tetris.StartGame | src/hooks/useTetris.ts:124-137 | a started game is playing, not paused or over, on the empty board with score, level and lines 0; the first piece is active at its spawn and the second is next at its spawn |
| Tetris.StartGameIsFreshState | src/hooks/useTetris.ts:124-137 | a started game is the initial state plus the active first piece and the playing flag; nothing of an earlier game survives |
| Tetris.TogglePause | src/hooks/useTetris.ts:139-141 | flips only the pause flag, in any state |
| Tetris.Shift | src/hooks/useTetris.ts:143-173 | a move is taken only when playing, unpaused, and the moved piece fits; otherwise the state is unchanged |
| Tetris.MoveLeft | src/hooks/useTetris.ts:143-157 | the piece moves one column left exactly when that fits, keeping its row, shape and type; nothing else changes; the invariant holds |
| Tetris.MoveRight | src/hooks/useTetris.ts:159-173 | the piece moves one column right exactly when that fits, keeping its row, shape and type; nothing else changes; the invariant holds |
| Tetris.Rotate | src/hooks/useTetris.ts:175-185 | the rotated shape replaces the shape at the same position exactly when it fits |
| Tetris.Lock | src/hooks/useTetris.ts:201-233 | merge, clear, add score and lines, recompute level, then spawn the next piece or end the game when it does not fit |
| Tetris.MoveDown | src/hooks/useTetris.ts:187-234 | one row down when that fits, else lock in place with no bonus |
| Tetris.DropDistFrom | src/hooks/useTetris.ts:240-243 | the distance found has all offsets up to it free and the next one blocked |
| Tetris.DropDist | src/hooks/useTetris.ts:240-243 | the hard-drop distance: the piece fits at it and collides one row further |
| Tetris.DropDistUnique | src/hooks/useTetris.ts:240-243 | only one distance has those two properties |
| Tetris.Landing | src/hooks/useTetris.ts:240-248 | the landed piece is straight below, fits, and cannot move one more row |
| Tetris.HardDropped | src/hooks/useTetris.ts:236-281 | drop to the landing row, lock, and add 2 points per row dropped |
| Tetris.DropDistance | src/hooks/useTetris.ts:240-243 | the probe-until-collision loop returns the drop distance |
| Tetris.LockPiece | src/hooks/useTetris.ts:250-279 | the shared locking steps, as statements, give the locked state |
| Tetris.HardDrop | src/hooks/useTetris.ts:236-281 | the hook's hard drop as statements equals the hard-drop function |
| Tetris.AutoDropInterval | src/hooks/useTetris.ts:284-291 | a drop timer exists exactly while playing and unpaused, with the level's interval |
| Tetris.RawKeyCommand | src/hooks/useTetris.ts:294-325 | nothing unless playing; then ArrowLeft and ArrowRight move, ArrowDown moves down, ArrowUp rotates, space hard-drops, p and P pause, and no other key does anything |
| Tetris.Step | src/hooks/useTetris.ts:124-281 | every command keeps the game invariant |
| Tetris.Run | src/hooks/useTetris.ts:124-281 | a command sequence keeps the invariant throughout |
| Tetris.ActivePieceNeverCollides | src/hooks/useTetris.ts:57-70 | in any run from a started game, the active piece never overlaps the board or leaves it |
| Tetris.StepScoreMonotone | src/hooks/useTetris.ts:187-281 | no command except startGame lowers the score or the lines |
| Tetris.ScoreNeverDecreases | src/hooks/useTetris.ts:187-281 | score and lines never decrease between restarts |
| Tetris.GameOverIsTerminal | src/hooks/useTetris.ts:143-281 | after game over, only the pause flag can change until the next start |
| Settings.SetBinding | src/hooks/usePlayerSettings.ts:74-79 | the action gets the key; every other binding is unchanged |
| Settings.BindingsExtensional | src/hooks/usePlayerSettings.ts:3-12 | two binding sets that agree on every action are equal |
| Settings.SetBindingSame | src/hooks/usePlayerSettings.ts:74-79 | rebinding an action to its current key changes nothing |
| Settings.SetBindingTwice | src/hooks/usePlayerSettings.ts:74-79 | the later of two rebindings of one action wins |
| Settings.MergeBindings | src/hooks/usePlayerSettings.ts:54 | each stored binding overrides its default; missing ones keep the default |
| Settings.Load | src/hooks/usePlayerSettings.ts:49-60 | nothing stored gives the defaults; stored fields override defaults field by field, bindings entry by entry |
| Settings.LoadStoreRoundTrip | src/hooks/usePlayerSettings.ts:49-68 | loading what was saved gives back the same settings |
| Settings.UpdateSetting | src/hooks/usePlayerSettings.ts:70-72 | exactly the named field changes |
| Settings.UpdateKeyBinding | src/hooks/usePlayerSettings.ts:74-79 | only the named binding changes; the handling values are kept |
| Settings.ResetToDefaults | src/hooks/usePlayerSettings.ts:81-83 | the result is the defaults whatever the input |
| Settings.ApplyPreset | src/hooks/usePlayerSettings.ts:85-114 | the preset's das/arr/dcd/sdf are written; bindings and rotation preference kept |
| Settings.DefaultPresetMatchesDefaults | src/hooks/usePlayerSettings.ts:38-44 | the default preset writes exactly the default handling values |
| Settings.ApplyPresetIdempotent | src/hooks/usePlayerSettings.ts:85-114 | a preset applied twice is applied once; a later preset overrides an earlier one |
| InputHandler.EntriesAreBindings | src/hooks/useInputHandler.ts:115-123 | the scanned entries are exactly the bound actions with their keys |
| InputHandler.ActionForIsFirstMatch | src/hooks/useInputHandler.ts:115-123 | no action iff no binding matches; otherwise the first matching entry's action |
| InputHandler.GetActionForKey | src/hooks/useInputHandler.ts:115-123 | the loop with early return finds the first matching entry's action |
| InputHandler.Idle | src/hooks/useInputHandler.ts:33-38 | the initial refs: nothing held, no timers, no direction, not charged; they are valid |
| InputHandler.Cleared | src/hooks/useInputHandler.ts:42-56 | all three timers gone, DAS discharged; the held keys and direction are kept |
| InputHandler.ArrInterval | src/hooks/useInputHandler.ts:58-71 | arr milliseconds, 1 for instant, never 0 |
| InputHandler.SoftDropInterval | src/hooks/useInputHandler.ts:94-113 | between 1 and 50 ms: floor(50 / n) for a factor n up to 50, 1 ms beyond |
| InputHandler.SoftDropIntervalMonotone | src/hooks/useInputHandler.ts:94-113 | a larger soft-drop factor never gives a longer period |
| InputHandler.DasStarted | src/hooks/useInputHandler.ts:73-92 | one immediate move; the direction taken over; DAS delay das, plus dcd on a direction change |
| InputHandler.SoftDropStarted | src/hooks/useInputHandler.ts:94-113 | one immediate soft drop and a soft-drop repeat at the soft-drop period |
| InputHandler.DasTimeout | src/hooks/useInputHandler.ts:88-91 | DAS becomes charged and ARR starts in the same direction, with no move issued |
| InputHandler.ArrTick | src/hooks/useInputHandler.ts:58-71 | one ARR period repeats the move of the ARR direction |
| InputHandler.ArrMovesCurrentDirection | src/hooks/useInputHandler.ts:58-71 | while charged, ARR moves in the currently held direction |
| InputHandler.SoftDropTick | src/hooks/useInputHandler.ts:94-113 | one soft-drop period issues one soft drop |
| InputHandler.KeyDown | src/hooks/useInputHandler.ts:126-173 | the pause key while playing issues only the pause. Nothing happens while paused or not playing, or for a held key. Otherwise the key is marked held and the action is dispatched: directions start DAS, soft drop starts its repeat, hard drop, hold and 180° call their callbacks, the rotations follow the preference, and an unbound key does nothing else. Validity is kept |
| InputHandler.AutoRepeatIgnored | src/hooks/useInputHandler.ts:143-145 | a second keydown of a held key changes nothing and issues nothing |
| InputHandler.RotationMapping | src/hooks/useInputHandler.ts:160-165 | the rotation callbacks are as named only when the preference is exactly 'cw', swapped otherwise |
| InputHandler.KeyUp | src/hooks/useInputHandler.ts:175-213 | the key is released; the result stays valid |
| InputHandler.KeyUpCases | src/hooks/useInputHandler.ts:175-213 | releasing the current direction hands over to the other held one or stops; releasing soft drop cancels its repeat only; anything else only releases |
| InputHandler.HandOverMovesAgain | src/hooks/useInputHandler.ts:181-191 | handing over after a release issues an immediate move in the other direction |
| InputHandler.Blur | src/hooks/useInputHandler.ts:215-219 | back to the initial refs, with nothing issued |
| InputHandler.PlayStateChanged | src/hooks/useInputHandler.ts:225-257 | unchanged props change nothing. On a change, the timers are cleared, and the held keys and direction are forgotten when not playing or paused |
| InputHandler.SamePlayStateKeepsRepeat | src/hooks/useInputHandler.ts:231-257 | a render with the same play state keeps a running ARR repeat ticking |
| InputHandler.SettingsChanged | src/hooks/useInputHandler.ts:225-248 | the same settings change nothing; different settings re-subscribe, which clears the timers and keeps the rest |
| InputHandler.NothingWhilePaused | src/hooks/useInputHandler.ts:135-141 | after a change into the paused state, a keydown issues nothing but a pause, and no timer is left to fire |
| InputHandler.Handler.constructor | src/hooks/useInputHandler.ts:19-38 | refs start idle with the given props and an empty call log |
| InputHandler.Handler.ClearTimers | src/hooks/useInputHandler.ts:42-56 | the refs become the cleared state |
| InputHandler.Handler.StartArr | src/hooks/useInputHandler.ts:58-71 | an ARR timer of the ARR period in the direction, replacing any earlier one |
| InputHandler.Handler.StartDas | src/hooks/useInputHandler.ts:73-92 | the refs and log follow the DAS start |
| InputHandler.Handler.StartSoftDrop | src/hooks/useInputHandler.ts:94-113 | the refs and log follow the soft-drop start |
| InputHandler.Handler.HandleKeyDown | src/hooks/useInputHandler.ts:126-173 | the refs and log follow the keydown transition |
| InputHandler.Handler.HandleKeyUp | src/hooks/useInputHandler.ts:175-213 | the refs and log follow the keyup transition |
| InputHandler.Handler.HandleBlur | src/hooks/useInputHandler.ts:215-219 | the refs and log follow the blur transition |
| InputHandler.Handler.DasElapsed | src/hooks/useInputHandler.ts:88-91 | the refs and log follow the DAS timeout |
| InputHandler.Handler.ArrElapsed | src/hooks/useInputHandler.ts:63-69 | the log gains the repeated move; the refs are unchanged |
| InputHandler.Handler.SoftDropElapsed | src/hooks/useInputHandler.ts:100-108 | the log gains a soft drop; the refs are unchanged |
| InputHandler.Handler.SetPlayState | src/hooks/useInputHandler.ts:225-257 | new props; the refs follow the play-state transition from the old props to the new ones |
| InputHandler.Handler.SetSettings | src/hooks/useInputHandler.ts:225-248 | new settings; the refs follow the settings transition from the old settings to the new ones |
| SettingsDialog.SdfToSlider | src/components/PlayerSettings.tsx:138 | the position is 41 exactly for instant (or a stored factor of 41), else the factor |
| SettingsDialog.SliderToSdf | src/components/PlayerSettings.tsx:139 | positions 41 and above store instant, lower ones the factor |
| SettingsDialog.SliderSdfRoundTrip | src/components/PlayerSettings.tsx:138-142 | every slider position stores a factor that shows that position again |
| SettingsDialog.SdfSliderRoundTrip | src/components/PlayerSettings.tsx:138-142 | every factor a slider can write reads back from its position |
| SettingsDialog.MoveSlider | src/components/PlayerSettings.tsx:72-142 | moving one slider changes only its own field |
| SettingsDialog.MovedSliderShowsPosition | src/components/PlayerSettings.tsx:72-142 | after a move the slider shows the position it was moved to |
| SettingsDialog.PresetsWithinSliders | src/components/PlayerSettings.tsx:54-142 | the defaults and every preset lie inside the slider ranges |
| SettingsDialog.MsLabel | src/components/PlayerSettings.tsx:70 | digits of the value followed by "ms" |
| SettingsDialog.ArrLabel | src/components/PlayerSettings.tsx:91-93 | "Instant" exactly for 0, else the ms label |
| SettingsDialog.SdfLabel | src/components/PlayerSettings.tsx:133-135 | "Instant" exactly for instant, else digits followed by "x" |
| SettingsDialog.MsLabelInjective | src/components/PlayerSettings.tsx:70 | distinct values get distinct ms labels |
| SettingsDialog.ArrLabelInjective | src/components/PlayerSettings.tsx:91-93 | distinct ARR values get distinct labels |
| SettingsDialog.SdfLabelInjective | src/components/PlayerSettings.tsx:133-135 | distinct soft-drop factors get distinct labels |
| ClearFeedback.KindLabel | src/components/ClearFeedback.tsx:31-46 | no kind label iff a plain clear of other than 1–4 lines; T-spin labels fall back to "T-SPIN" |
| ClearFeedback.GetLabel | src/components/ClearFeedback.tsx:24-53 | the push sequence yields the labels in back-to-back, kind, combo order |
| ClearFeedback.FixedLabelsAreNotCombo | src/components/ClearFeedback.tsx:27-46 | no fixed label ends in " COMBO" |
| ClearFeedback.ComboLabelIsCombo | src/components/ClearFeedback.tsx:48-50 | the combo label is none of the fixed labels |
| ClearFeedback.LabelsShape | src/components/ClearFeedback.tsx:24-53 | at most three labels; back-to-back first iff flagged; combo last iff combo > 0; empty iff nothing applies |
| ClearFeedback.OnlyLastIsCombo | src/components/ClearFeedback.tsx:24-53 | only the last label can be the combo label |
| ClearFeedback.PointsText | src/components/ClearFeedback.tsx:84 | a "+" followed by the decimal points |
| ClearFeedback.PointsTextInjective | src/components/ClearFeedback.tsx:84 | distinct points read differently |
| ClearFeedback.ComboHighlightOnComboLabel | src/components/ClearFeedback.tsx:72-76 | the combo colour falls on a label iff it is the combo label of a combo above 2 |
| ClearFeedback.Mounted | src/components/ClearFeedback.tsx:10-20 | the first render shows an initial event with a pending timer, or nothing |
| ClearFeedback.OnClearEvent | src/components/ClearFeedback.tsx:13-20 | an unchanged prop changes nothing. A new event becomes current and visible with a fresh pending timer. A withdrawn event cancels the pending timer and stays as shown |
| ClearFeedback.OnTimerElapsed | src/components/ClearFeedback.tsx:17 | a pending timer hides the overlay and keeps its event; with none pending nothing changes |
| ClearFeedback.NewEventShownThenHidden | src/components/ClearFeedback.tsx:13-22 | a new event is drawn, and its timer hides it |
| ClearFeedback.QuietRounds | src/components/ClearFeedback.tsx:13-20 | null renders and timer firings leave an overlay with no prop and no pending timer as it is |
| ClearFeedback.WithdrawnEventStaysShown | src/components/ClearFeedback.tsx:13-20 | an event whose prop turns null before its timer fires stays drawn for good |
| ClearFeedback.View | src/components/ClearFeedback.tsx:22-84 | something is drawn iff visible with an event, namely its labels and points |
| TetrisBoard.DisplayBoard | src/components/TetrisBoard.tsx:21-36 | the copy-and-write loops, with bounds checks, give the board without a piece and the overlay with one |
| TetrisBoard.ViewChangesExactlyCovered | src/components/TetrisBoard.tsx:21-36 | for a fitting piece, exactly the covered cells change, each to the piece type |
| TetrisBoard.GameViewDrawsOnEmptyCells | src/components/TetrisBoard.tsx:21-36 | the game's active piece is always drawn over empty cells |
| KeyboardMapper.FormatKey | src/components/KeyboardMapper.tsx:24-32 | Space and arrows named, single characters upper-cased, other names kept |
| KeyboardMapper.FormatKeyIdempotent | src/components/KeyboardMapper.tsx:24-32 | formatting twice equals formatting once |
| KeyboardMapper.FormatKeyKeepsLength | src/components/KeyboardMapper.tsx:24-32 | apart from the named keys, the length and the lower-cased text are kept |
| KeyboardMapper.RowOrderComplete | src/components/KeyboardMapper.tsx:12-22 | every action has exactly one row |
| KeyboardMapper.ButtonLabelAsWritten | src/components/KeyboardMapper.tsx:84 | the button text fails to render iff not listening and the action is unbound |
| KeyboardMapper.DefaultMapperFails | src/components/KeyboardMapper.tsx:69-87 | with the default bindings, only the rotate-180 row fails |
| KeyboardMapper.ButtonLabel | src/components/KeyboardMapper.tsx:84 | "..." while listening, the formatted key when bound, empty when unbound |
| KeyboardMapper.ButtonLabelAgrees | src/components/KeyboardMapper.tsx:84 | the corrected text equals the written one wherever that renders |
| KeyboardMapper.Rows | src/components/KeyboardMapper.tsx:69-87 | one row per action in label order, each with its button text |
| KeyboardMapper.Click | src/components/KeyboardMapper.tsx:37-52 | the clicked action is highlighted and a listener is added last |
| KeyboardMapper.WithoutClick | src/components/KeyboardMapper.tsx:55-58 | exactly the other clicks' listeners remain |
| KeyboardMapper.Timeout | src/components/KeyboardMapper.tsx:55-58 | the highlight clears and that click's listener goes |
| KeyboardMapper.BindAll | src/components/KeyboardMapper.tsx:44-52 | every pending listener's action gets the key; other bindings and all handling values are kept |
| KeyboardMapper.KeyPressed | src/components/KeyboardMapper.tsx:44-52 | modifiers change nothing; any other key is bound by every listener, and they all go |
| KeyboardMapper.ModifierNeverBound | src/components/KeyboardMapper.tsx:45 | a binding after a key press is the old one or a non-modifier key |
| KeyboardMapper.ClickThenKeyBinds | src/components/KeyboardMapper.tsx:37-59 | one click then a key is exactly one rebinding |
| KeyboardMapper.TwoClicksBindBoth | src/components/KeyboardMapper.tsx:37-59 | two clicks before a key bind the key to both actions |
| KeyboardMapper.EarlyTimeoutClearsLaterHighlight | src/components/KeyboardMapper.tsx:55-58 | the first click's timeout clears a later click's highlight and leaves its listener |
| TetrisGame.FormatKey | src/components/TetrisGame.tsx:91-99 | the screen's key formatter equals the mapper's on every key |
| TetrisGame.GuardStep | src/components/TetrisGame.tsx:62-88 | a report iff over, not yet submitted and score > 0, with score, level and lines; a game in progress clears the flag |
| TetrisGame.FlagStaysSet | src/components/TetrisGame.tsx:62-88 | once set the flag stays set until a render with a game in progress |
| TetrisGame.ReportedOncePerGame | src/components/TetrisGame.tsx:62-88 | between two reports there is always a render with a game in progress |
| TetrisGame.ResetRearms | src/components/TetrisGame.tsx:84-88 | after a game in progress, the next finished positive score is reported |
| TetrisGame.StartGameRearms | src/components/TetrisGame.tsx:84-88 | rendering a just-started game clears the flag |
| TetrisGame.ZeroScoreNeverReported | src/components/TetrisGame.tsx:64 | a zero score is never reported |
| TetrisGame.ScoreGuard.constructor | src/components/TetrisGame.tsx:62-88 | the flag starts clear with no reports |
| TetrisGame.ScoreGuard.Render | src/components/TetrisGame.tsx:62-88 | the ref and report log follow the two effects in order |
| TetrisGame.Wired | src/components/TetrisGame.tsx:47-59 | the four callbacks the game hook does not define change nothing; the others are the game commands they name |
| TetrisGame.WiredCommands | src/components/TetrisGame.tsx:47-59 | no more commands than callbacks; a single defined callback is its command |
| TetrisGame.PressAsWritten | src/hooks/useTetris.ts:294-329 | both listeners handle the key: the refs follow the input hook, and the invariant holds after both listeners' commands |
| TetrisGame.DefaultPauseKeys | src/hooks/usePlayerSettings.ts:35 | both p and P look up the pause action under the default bindings |
| TetrisGame.PauseKeyIgnoredAsWritten | src/hooks/useTetris.ts:319-323 | as written, the pause key while playing leaves the game exactly as it was |
| TetrisGame.Press | src/hooks/useInputHandler.ts:125-173 | one listener: the refs follow the input hook, and the invariant holds |
| TetrisGame.PauseKeyToggles | src/hooks/useInputHandler.ts:136-139 | with one listener, the pause key while playing toggles the pause and changes nothing else |
| DbProxy.DoubleEvery | supabase/functions/db-proxy/index.ts:84 | one extra character per occurrence |
| DbProxy.DoubleEveryAppend | supabase/functions/db-proxy/index.ts:84 | the replace distributes over concatenation |
| DbProxy.EscapeChars | supabase/functions/db-proxy/index.ts:84 | the one-pass escape adds one character per quote and per backslash |
| DbProxy.TwoReplacesAreOnePass | supabase/functions/db-proxy/index.ts:84 | the two chained replaces equal the one-pass escape |
| DbProxy.EscapeValue | supabase/functions/db-proxy/index.ts:73-86 | NULL, the decimal text of a safe integer (at most 2^53 − 1 in size), 1/0 for booleans; strings, and the String text of objects and arrays, quoted and escaped |
| DbProxy.OtherEscapesAsItsText | supabase/functions/db-proxy/index.ts:84 | an object or array escapes exactly as the string of its text |
| DbProxy.EscapedLength | supabase/functions/db-proxy/index.ts:84 | the literal's length is the string's plus its quotes and backslashes plus 2 |
| DbProxy.NonStringsAreBare | supabase/functions/db-proxy/index.ts:74-82 | null, numbers and booleans contain no quote; booleans are the numbers 1 and 0 |
| DbProxy.ReadBodyOfEscaped | supabase/functions/db-proxy/index.ts:84 | MySQL reads the escaped body back to the string and stops at its closing quote |
| DbProxy.EscapedStringReadsBack | supabase/functions/db-proxy/index.ts:84 | an escaped string literal reads back as the original string, rest untouched |
| DbProxy.EscapeInjective | supabase/functions/db-proxy/index.ts:84 | distinct strings escape differently |
| DbProxy.Conditions | supabase/functions/db-proxy/index.ts:118-120 | one "`key` = value" condition per filter, in order |
| DbProxy.WhereClause | supabase/functions/db-proxy/index.ts:117-122 | empty iff there are no filters; otherwise " WHERE " and the conditions joined by AND |
| DbProxy.WhereClauseShape | supabase/functions/db-proxy/index.ts:117-122 | n conditions and n − 1 ANDs, starting with the first filter's condition |
| DbProxy.ConditionReadsBack | supabase/functions/db-proxy/index.ts:119 | the condition is the back-quoted key and " = ", and MySQL reads the value text after it back as the filter's string |
| DbProxy.SelectedColumns | supabase/functions/db-proxy/index.ts:111 | absent or empty columns select "*"; never empty |
| DbProxy.EffectiveLimit | supabase/functions/db-proxy/index.ts:112 | absent or 0 means 100; never 0 |
| DbProxy.OrderClause | supabase/functions/db-proxy/index.ts:124-126 | present iff an order is given, with ASC or DESC |
| DbProxy.BuildSelect | supabase/functions/db-proxy/index.ts:109-134 | the appended query equals the select statement |
| DbProxy.SelectQuery | supabase/functions/db-proxy/index.ts:115-128 | SELECT columns FROM table, then only the WHERE and ORDER BY clauses, always ending in a LIMIT that is never 0 |
| DbProxy.InsertColumns | supabase/functions/db-proxy/index.ts:139 | one quoted column per data field, in order |
| DbProxy.InsertValues | supabase/functions/db-proxy/index.ts:140 | one escaped value per data field, in order |
| DbProxy.InsertQuery | supabase/functions/db-proxy/index.ts:142 | starts with the table and the opening parenthesis and ends with a closing one; empty data gives empty lists |
| DbProxy.InsertListsAligned | supabase/functions/db-proxy/index.ts:136-156 | column and value lists are aligned index by index; string values read back |
| DbProxy.InsertedRowQuery | supabase/functions/db-proxy/index.ts:150 | the select by id, whose text after `id = ` is the id's decimal text |
| DbProxy.InsertedRowQueryInjective | supabase/functions/db-proxy/index.ts:149-150 | different ids give different follow-up selects |
| DbProxy.EscapeCharsPlain | supabase/functions/db-proxy/index.ts:84 | a text without quotes and backslashes is unchanged by the escape |
| DbProxy.PlainTextEscape | supabase/functions/db-proxy/index.ts:84 | such a text is escaped to itself between quotes |
| DbProxy.ArrayData | supabase/functions/db-proxy/index.ts:22 | an array of n row objects seen as an object: keys "0" to n − 1, each value a plain object |
| DbProxy.ArrayInsertLists | supabase/functions/db-proxy/index.ts:138-142 | an array insert has one column per index, named by it, and every value is the quoted text of a plain object |
| DbProxy.UpdateQuery | supabase/functions/db-proxy/index.ts:165-172 | starts with the table's SET and ends with the filters' WHERE clause; without filters it updates every row |
| DbProxy.UpdatedRowsQuery | supabase/functions/db-proxy/index.ts:178-184 | with filters, the same select as the delete's of those rows; without, the whole table |
| DbProxy.BuildUpdate | supabase/functions/db-proxy/index.ts:158-172 | the appended query equals the update statement |
| DbProxy.UpdateAndSelectShareFilter | supabase/functions/db-proxy/index.ts:158-189 | the update and its follow-up select end in the same WHERE clause |
| DbProxy.DeleteQueries | supabase/functions/db-proxy/index.ts:191-213 | refused iff no filters; otherwise select-then-delete under the same WHERE |
| DbProxy.DeleteAlwaysFiltered | supabase/functions/db-proxy/index.ts:191-213 | a built delete always carries WHERE and the first filter's condition |
| DbProxy.ExternalStatements | supabase/functions/db-proxy/index.ts:89-226 | test-connection sends SELECT 1. Select sends its statement. Insert and update without data fail with the TypeError text. Update sends the update, then the select of the same rows. A delete is refused iff unfiltered. Unknown operations are errors |
| DbProxy.Handle | supabase/functions/db-proxy/index.ts:228-375 | get-config reports whether an external config exists; with one, every other operation goes to MySQL; without one, test-connection succeeds, select/insert/update go to Supabase, delete is refused without filters, and anything else is an unknown operation |
| DbProxy.UnfilteredDeleteRefused | supabase/functions/db-proxy/index.ts:194-197 | an unfiltered delete is refused with the same message on both back ends |
| DbProxy.FilteredDeleteStatements | supabase/functions/db-proxy/index.ts:191-213 | a filtered MySQL delete sends the select of the rows, then the filtered delete |
| DbProxy.InsertFollowUp | supabase/functions/db-proxy/index.ts:142-152 | an insert fetches the new row only for a non-zero insert id |
| DbProxy.ConfigMapLastWins | supabase/functions/db-proxy/index.ts:49 | the map has exactly the rows' keys, each with the value of its last row |
| DbProxy.BuildConfigMap | supabase/functions/db-proxy/index.ts:49 | the insertion loop builds that map |
| DbProxy.GetDbConfig | supabase/functions/db-proxy/index.ts:38-70 | a config iff rows exist and host, name, user, password are non-empty; port defaults to 3306; ssl iff "true" |
| DbProxy.ConfigReplyNamesHost | supabase/functions/db-proxy/index.ts:253-262 | get-config with a complete config reports it configured, with its host |
| Text.Lower | src/hooks/useInputHandler.ts:116-118 | ASCII lower-casing keeps the length and lowers each character |
| Text.Upper | src/components/KeyboardMapper.tsx:30 | ASCII upper-casing keeps the length and raises each character |
| Text.NatToStringReadsBack | supabase/functions/db-proxy/index.ts:77-78 | the decimal digits of a number read back as that number |
| Text.IntToStringInjective | supabase/functions/db-proxy/index.ts:77-78 | distinct integers have distinct decimal texts |
| Text.JoinLength | supabase/functions/db-proxy/index.ts:118-120 | a join's length is the parts' lengths plus one separator between each pair |

## Left out

- Browser storage and JSON: settings are loaded from, and saved to, a typed record. Unparsable storage is the empty record, and out-of-range stored values are not checked.
- Randomness: `getRandomPiece`'s choice of type is a parameter. Its spawn rule is modelled.
- Timers: `setTimeout` and `setInterval` are modelled as pending timer records and explicit elapse events. Wall-clock time is not modelled.
- React rendering and effects: the input hook's and the overlay's effects run when a dependency changes value (`PlayStateChanged`, `SettingsChanged`, `OnClearEvent`). The score guard's two effects are modelled as running on every render. Their conditions make that the same as running on a dependency change.
- TetrisGame.PressAsWritten: the useTetris listener is modelled by its effect on the game state. Its `preventDefault` calls are not modelled. The two listeners are taken to run in the order they were first added, the game hook's first; for the pause key the order does not matter.
- TetrisGame.Wired: a throwing undefined callback is modelled as a call with no effect. The error it reports is not modelled.
- Invented game features are not modelled: hold, soft drop, counter-clockwise rotation, 180° rotation, the ghost position, the clear event, SRS wall kicks, the 7-bag and T-spin scoring. The game hook does not provide them, and the screen passes callbacks the hook does not define.
- The controls panel and the rest of the JSX and CSS of the screens are not modelled. `LineClearParticles` is not modelled either.
- The database proxy's I/O is not modelled: the HTTP server, CORS, authentication, the MySQL driver, the default back end's client calls and their results. An operation's outcome is the statements it would send, or its error message.
- DbProxy.Request: a missing `table` is not modelled (the source renders it as "undefined"). An array `data` is the record `DbProxy.ArrayData` builds, which is what `Object.keys`, `Object.values` and `Object.entries` give for it. Identifiers (table, column and order names) are inserted unescaped, as in the source, but SQL injection through them is not analysed.
- DbProxy.EscapeValue: only safe integers (at most 2^53 − 1 in size) are modelled as numbers, since up to there `String` gives the exact decimal text. `String` of a non-integer number is not modelled, nor is that of a larger double: above 2^53 it prints the shortest round-trip digits (`String(2**60)` is `1152921504606847000`), and from 10^21 on it uses exponent form (`1e+21`). For an object or array, the text `String(value)` gives is part of the value (`Other`) and is not computed.
- DbProxy.SelectQuery and DbProxy.InsertedRowQuery: the LIMIT and the insert id are written as exact decimal text. For a number outside the safe-integer range, `String` would give the double's text instead, as described for DbProxy.EscapeValue.
- DbProxy.ExternalStatements: the driver and runtime error texts are not modelled. A missing data object gives the TypeError message as a constant.
- Text.Lower and Text.Upper: case mapping is ASCII only. The browser's Unicode case mapping of non-ASCII keys is not modelled.
- `src/lib/dbClient.ts`, the admin pages, the multiplayer hook and the other pages are not part of this model.
- Tetris.MergePieceToBoard: requires the piece to fit. Both callers merge only a fitting piece, and the source's merge of a piece below the floor would throw.
- InputHandler.SettingsChanged: the settings are compared by value. React compares the effect's dependencies by identity, so a new `keyBindings` object with the same keys also re-subscribes; that case is not modelled.
- ClearFeedback.OnClearEvent: the prop is compared by value. React compares it by identity, so a new event object equal to the shown one restarts the timer; that case is not modelled.
- Settings.ApplyPreset: the stale closure of `setSettings` in `applyPreset` is not modelled. Presets are applied to the current settings.

## Findings

| source | as written | input that shows it | evidently intended | confidence | as-written member | corrected member |
|---|---|---|---|---|---|---|
| src/components/KeyboardMapper.tsx:84 | the button text calls `formatKey(keyBindings[action])` for every row, and `formatKey` reads `key.length` | the default bindings, which have no `rotate180` entry: the "Rotate 180°" row passes `undefined` and throws while rendering | an unbound action shows an empty button | not executed | KeyboardMapper.ButtonLabelAsWritten | KeyboardMapper.ButtonLabel |
| src/hooks/useTetris.ts:294-329 | the game hook keeps its own keydown listener while the screen also installs the input hook's, so both handle every key | p pressed while playing with the default bindings: each listener calls `togglePause`, and the two toggles cancel | one listener, the configurable one, handles each key, so the pause key pauses | not executed | TetrisGame.PauseKeyIgnoredAsWritten | TetrisGame.PauseKeyToggles |
