# cm-fen-editor in Dafny

cm-fen-editor is a chess position editor. It keeps a FEN record: piece
placement, side to move, castling availability, and the en passant, halfmove
and fullmove fields. The component and panel revisions always write those
last three as `- 0 1`; the first revision writes whatever its `Fen` record
holds, as parsed from the URL, the cookie or the typed text. FEN is the format of
section 16.1 of the PGN Standard. The repository holds three revisions of
the editor, and this project models the bookkeeping of each one:

- `ObservedEditor` models `src/FenEditor.js`, the observed-record revision.
  The castling list is pruned against the board through a six-row table of
  home squares. Each row whose square does not hold its piece filters
  every occurrence of its letters out of the list. The four castling
  checkboxes write the list in K, Q, k, q order, and a valid record shows
  its letters back in the checkboxes.
- `ComponentEditor` models `src/cm-fen-editor/FenEditor.mjs`, the component
  revision. A FEN change is split into colour and castling letters. The
  letters are pruned with four flags: `indexOf` and `splice` remove only the
  FIRST occurrence of each disallowed letter. Edits schedule a FEN update,
  which assembles placement, colour, castling field and ` - 0 1`. The module
  also models the first FEN's source priority (URL, then cookie, then the
  default) and the move, erase and place-piece modes.
- `PanelEditor` models `src/cm-fen-editor/FenEditor.js`, the panel
  revision. The castling field is the ticked checkboxes' values
  concatenated, or `-`. A FEN change ticks each checkbox whose value occurs
  in the third field. `setState` drives the mode machine, and
  `updateButtons` highlights the buttons.

Shared modules:

- `Position` models the board widget's `getPiece`/`setPiece` as a map from
  square names to piece names.
- `FenText` holds JavaScript's `split`/`join`, the assembled record and
  substring search.
- `Castling` holds the pruning table and both prunings, with the lemmas
  relating them.
- `EditModes` holds the mode table, the handlers, the widget's input
  events, and how JavaScript renders and tests an optional string.

The two pruning revisions differ on lists with a repeated letter. Pruning
every occurrence is idempotent. Pruning the first occurrence is not:
`Castling.PruneFirstNotIdempotentWithDuplicates` shows it on "KK". On lists
without repeated letters the two agree (`Castling.PruneFirstMatchesPrune`).

The move handlers also differ between revisions. The panel revision removes
the dragged piece on any canceled drag. The component revision removes it
only when the drag left the board.

Foreign libraries are inputs of the classes:
- the board widget's placement text is `placementOf`;
- the position it shows for a FEN is `boardOf`;
- FEN validity (`new Chess(...)`) is `accepts`.

## Model

| member | source | states |
|---|---|---|
| Position.SetPiece | src/cm-fen-editor/FenEditor.mjs:150 | `setPiece(square, piece)` gives `square` that piece, or empties it for `null`, and no other square changes |
| FenText.Split | src/cm-fen-editor/FenEditor.mjs:53 | `split(" ")` yields at least one part and no part contains the separator |
| FenText.JoinSplit | src/cm-fen-editor/FenEditor.mjs:53 | joining the parts of a split with the separator gives the text back |
| FenText.SplitJoin | src/cm-fen-editor/FenEditor.js:136 | splitting a join of separator-free pieces gives the pieces back |
| FenText.AssembleIsSixFields | src/cm-fen-editor/FenEditor.mjs:229-231 | the assembled FEN is placement, colour, castling field (`-` for none), `-`, `0`, `1` joined by single spaces |
| FenText.FieldsRoundTrip | src/cm-fen-editor/FenEditor.mjs:53-55 | splitting an assembled FEN whose parts hold no space gives back exactly those six fields |
| FenText.DashIsNoCastling | src/cm-fen-editor/FenEditor.mjs:231 | a castling list of "-" and an empty one assemble to the same FEN |
| FenText.ContainsLetter | src/cm-fen-editor/FenEditor.js:140 | `indexOf(v) !== -1` for a one-letter `v` holds exactly when the letter occurs in the text |
| Castling.TableLetters | src/FenEditor.js:164-171 | walking the six-row table loses exactly K and Q for e1, K for h1, Q for a1, k and q for e8, k for h8, q for a8 |
| Castling.AllowedByTable | src/cm-fen-editor/FenEditor.mjs:175-198 | each right is allowed exactly when its king and its rook stand on their home squares; no other letter is ever disallowed |
| Castling.BrokenRuleLetters | src/FenEditor.js:172-174 | a row whose square lacks its piece contributes all its letters to the lost set |
| Castling.Prune | src/FenEditor.js:175 | the pruned list is a subsequence of the list (order kept) |
| Castling.PruneKeepsAllowed | src/FenEditor.js:172-178 | after pruning no disallowed letter remains, and each allowed letter keeps its multiplicity |
| Castling.BrokenSquareRemovesLetters | src/FenEditor.js:164-178 | each table square whose piece differs removes every occurrence of each of its letters |
| Castling.PruneIdempotent | src/FenEditor.js:163-179 | pruning twice against the same board equals pruning once |
| Castling.IndexOf | src/cm-fen-editor/FenEditor.mjs:200 | `indexOf` is -1 exactly when the letter is absent, else the index of its first occurrence |
| Castling.RemoveFirstCount | src/cm-fen-editor/FenEditor.mjs:200-203 | removing the first occurrence takes one copy of the letter away, if any, and nothing else |
| Castling.SpliceAtIndexOf | src/cm-fen-editor/FenEditor.mjs:200-203 | `splice(indexOf(c), 1)` when found, nothing otherwise, is removing the first `c` |
| Castling.RemoveFirstIsSubsequence | src/cm-fen-editor/FenEditor.mjs:200-203 | removing the first occurrence keeps the others in order |
| Castling.RemoveFirstIsFilter | src/cm-fen-editor/FenEditor.mjs:200-203 | on a list with at most one `c`, removing the first `c` is filtering out every `c` |
| Castling.DropChainCount | src/cm-fen-editor/FenEditor.mjs:199-222 | the four conditional splices take one copy of each dropped letter present and leave all other counts alone |
| Castling.PruneFirstCount | src/cm-fen-editor/FenEditor.mjs:174-223 | first-occurrence pruning lowers a letter's count by one exactly when it is disallowed and present; allowed letters are never removed |
| Castling.PruneFirstIsSubsequence | src/cm-fen-editor/FenEditor.mjs:199-222 | surviving letters keep their relative order |
| Castling.KingMissingDropsBothRights | src/cm-fen-editor/FenEditor.mjs:179-222 | without the white king on e1 neither a single K nor a single Q survives; the same for k and q without the black king on e8 |
| Castling.RookMissingDropsRight | src/cm-fen-editor/FenEditor.mjs:183-222 | a missing rook on h1, a1, h8 or a8 removes the single K, Q, k or q |
| Castling.DropChainIsFilter | src/cm-fen-editor/FenEditor.mjs:199-222 | on a duplicate-free list the four conditional splices filter out the dropped letters |
| Castling.PruneFirstMatchesPrune | src/FenEditor.js:163-179 | on a duplicate-free list, first-occurrence pruning equals the table pruning on the same board |
| Castling.PruneFirstIdempotent | src/cm-fen-editor/FenEditor.mjs:174-223 | on a duplicate-free list first-occurrence pruning is idempotent |
| Castling.PruneFirstNotIdempotentWithDuplicates | src/cm-fen-editor/FenEditor.mjs:200-202 | on an empty board "KK" prunes to "K" and "K" to "": with a repeated letter pruning is not idempotent |
| Castling.FromCheckboxesIsFilter | src/FenEditor.js:67-79 | the ticked boxes' list is "KQkq" with the unticked letters filtered out |
| Castling.CheckboxListShape | src/FenEditor.js:67-80 | what `setCastleState` stores is a duplicate-free subsequence of "KQkq" of allowed letters only |
| Castling.CheckboxesRebuildList | src/FenEditor.js:155-158 | a subsequence of "KQkq" is rebuilt exactly from the boxes its letters tick |
| Castling.CheckboxRoundTrip | src/FenEditor.js:67-80 | ticking the boxes of a pruned subsequence of "KQkq" and running `setCastleState` returns the same list |
| EditModes.Lookup | src/cm-fen-editor/FenEditor.js:8-13 | `STATE[name]` is `name` for the fourteen mode names and undefined for any other name that is not an `Object.prototype` member |
| EditModes.HandlerFor | src/cm-fen-editor/FenEditor.js:84-113 | "move" enables move input, "erase" erase input, any other mode the board click |
| ObservedEditor.StartFen | src/FenEditor.js:84-93 | the first record is the URL's if truthy, else the cookie's if a cookie name is set and the cookie is truthy, else the default |
| ObservedEditor.Editor.constructor | src/FenEditor.js:30-33 | the record starts valid on an empty board, and the four checkboxes keep the ticks the page gave them |
| ObservedEditor.Editor.RemoveNotAllowedCastlings | src/FenEditor.js:163-179 | the loop over the table leaves the list equal to `Prune` of the old list on the board; nothing else changes |
| ObservedEditor.Editor.FilterLetters | src/FenEditor.js:174-176 | filtering a row's letters one by one is filtering by the row's letter set |
| ObservedEditor.Editor.SetCastleState | src/FenEditor.js:66-82 | the list becomes the ticked letters in K, Q, k, q order, pruned |
| ObservedEditor.Editor.OnPositionChange | src/FenEditor.js:107-114 | the board takes the edited position and the list is pruned against it |
| ObservedEditor.Editor.UpdateValidState | src/FenEditor.js:146-161 | after pruning, each checkbox is ticked exactly when its letter is in the list |
| ObservedEditor.Editor.OnFenChange | src/FenEditor.js:121-144 | validity is recorded; a valid record is shown and reported, an invalid one reported as null with board, list and boxes unchanged |
| ObservedEditor.CheckboxRoundTrip | src/FenEditor.js:66-82 | on the editor: showing a pruned subsequence of "KQkq" in the boxes and running `setCastleState` restores the list |
| ComponentEditor.InitialFenAgrees | src/cm-fen-editor/FenEditor.mjs:113-125 | the constructor picks the URL value if truthy, else the cookie if a name is set and it is truthy, else `props.fen`, as the first revision does |
| ComponentEditor.ColorField | src/cm-fen-editor/FenEditor.mjs:53-54 | the colour is the second space-separated field, undefined when there is none |
| ComponentEditor.CastlingOf | src/cm-fen-editor/FenEditor.mjs:55 | the castling letters are the third field, missing when the FEN has fewer than three |
| ComponentEditor.Editor.constructor | src/cm-fen-editor/FenEditor.mjs:21-138 | mode "move", valid, white to play, castling "kKqQ", the first FEN by priority, the board showing `props.fen` |
| ComponentEditor.Editor.ParseFen | src/cm-fen-editor/FenEditor.mjs:71-84 | the typed text becomes the FEN and its validity is recorded |
| ComponentEditor.Editor.CheckAllowedCastlings | src/cm-fen-editor/FenEditor.mjs:174-223 | the four flags and splices leave the list equal to `PruneFirst` of the old list on the board |
| ComponentEditor.Editor.SpliceOut | src/cm-fen-editor/FenEditor.mjs:200-203 | `indexOf` then `splice` removes the first occurrence of the letter |
| ComponentEditor.Editor.TransformFen | src/cm-fen-editor/FenEditor.mjs:51-70 | colour := field 2; with no field 3 it throws, else castling := field 3 pruned against the board showing the FEN, and `onChange` hears of a new value |
| ComponentEditor.Editor.UpdateFen | src/cm-fen-editor/FenEditor.mjs:225-227 | a FEN update is scheduled; repeated calls collapse into one |
| ComponentEditor.Editor.FlushFenUpdate | src/cm-fen-editor/FenEditor.mjs:227-239 | with a valid FEN it becomes placement, colour, castling letters or "-", " - 0 1", and is stored in the cookie when a name is set; an invalid FEN is left unchanged |
| ComponentEditor.Editor.SetColorToPlay | src/cm-fen-editor/FenEditor.mjs:86-92 | the chosen colour is taken and a FEN update scheduled |
| ComponentEditor.Editor.SetCastling | src/cm-fen-editor/FenEditor.mjs:93-101 | the checkboxes' letters become the list and a FEN update is scheduled |
| ComponentEditor.Editor.SelectMode | src/cm-fen-editor/FenEditor.mjs:103-105 | a mode button sets the mode to its `data-mode` |
| ComponentEditor.Editor.SwitchMode | src/cm-fen-editor/FenEditor.mjs:140-172 | the callback for the mode is enabled: move, erase, or board click for a piece |
| ComponentEditor.Editor.OnModeChange | src/cm-fen-editor/FenEditor.mjs:35-47 | a button is active exactly when its `data-mode` is the mode, then the mode's callback is enabled |
| ComponentEditor.Editor.OnMoveInput | src/cm-fen-editor/FenEditor.mjs:144-164 | move mode remembers a drag start, removes the piece of a drag moved off the board (throwing with no drag start) and accepts; erase mode empties the touched square only and vetoes |
| ComponentEditor.Editor.OnBoardClick | src/cm-fen-editor/FenEditor.mjs:165-169 | the clicked square gets the mode's piece and a FEN update is scheduled |
| ComponentEditor.PruneFirstDash | src/cm-fen-editor/FenEditor.mjs:55 | the castling list "-" survives pruning unchanged |
| ComponentEditor.ReadBackFields | src/cm-fen-editor/FenEditor.mjs:53-55 | reading back an assembled FEN gives the colour written and the castling field written |
| ComponentEditor.AssembledFenIsStable | src/cm-fen-editor/FenEditor.mjs:53-57 | an assembled FEN with letters already pruned against the board reassembles to itself after being read back |
| PanelEditor.CheckedConcatMember | src/cm-fen-editor/FenEditor.js:119-124 | a character is in the concatenation exactly when some ticked value holds it |
| PanelEditor.FieldShowsTick | src/cm-fen-editor/FenEditor.js:119-140 | with distinct single-letter values, the written castling field contains value `i` exactly when box `i` is ticked |
| PanelEditor.PanelRoundTrip | src/cm-fen-editor/FenEditor.js:116-141 | splitting the assembled FEN gives back the colour and exactly the ticked boxes |
| PanelEditor.Editor.constructor | src/cm-fen-editor/FenEditor.js:16-67 | the board shows `props.fen`, then `setState("move")` runs on the undefined state; the colour select, the ticks, the FEN text field and the position select keep the page's values |
| PanelEditor.Editor.SetState | src/cm-fen-editor/FenEditor.js:69-79 | `data-state` always shows the new state; the same state changes nothing else; a new one is recorded, its callback enabled, buttons updated and a FEN update scheduled |
| PanelEditor.Editor.UpdateButtons | src/cm-fen-editor/FenEditor.js:146-155 | a button is active exactly when its `data-state` maps to the current state |
| PanelEditor.Editor.UpdateFen | src/cm-fen-editor/FenEditor.js:116-117 | a FEN update is scheduled |
| PanelEditor.Editor.FlushFenUpdate | src/cm-fen-editor/FenEditor.js:117-131 | text field and position select both get placement, colour, ticked values in checkbox order or "-", and " - 0 1" |
| PanelEditor.Editor.FenChanged | src/cm-fen-editor/FenEditor.js:134-144 | the board shows field 1, the colour is field 2, and each box is ticked exactly when its value occurs in field 3; with no field 3 it throws before any tick changes |
| PanelEditor.Editor.OnFenInput | src/cm-fen-editor/FenEditor.js:55-57 | typing in the FEN field runs `fenChanged` on the new text: board, colour and ticks are read from it and the position select shows it, or, with no third field, the ticks and the position select stay as they were; state, handler, drag start and pending update never change |
| PanelEditor.Editor.OnMoveInput | src/cm-fen-editor/FenEditor.js:86-105 | move mode remembers a drag start, removes the piece of any canceled drag (throwing with no drag start) and accepts; erase mode empties the touched square only and vetoes |
| PanelEditor.Editor.OnBoardClick | src/cm-fen-editor/FenEditor.js:106-112 | the clicked square gets the current state's piece and a FEN update is scheduled |
| PanelEditor.UpdateThenRead | src/cm-fen-editor/FenEditor.js:116-141 | on the editor: a FEN update followed by `fenChanged` leaves the ticks and the colour as they were |

## Left out

- DOM work is not modelled: queries, listener registration, CSS class changes (`is-invalid`, `text-danger`, `active` outside the button arrays), `console.log` and `console.warn`. The first revision's writes of the FEN text field, the FEN select and the colour select in `updateValidState` are not modelled either.
- Propagation between state and DOM is not modelled. The model does not include the `Component` bindings of the component revision or the `Observed` observers of the first revision. Each callback is its own method: assigning `state.fen` in the component revision runs `TransformFen` as a separate step, and the first revision's `this.state.fen = this.state.fen` is `OnFenChange`, called with the record's text.
- Timers are steps, not time. A `setTimeout` or `.then` callback runs atomically. `updateFen` only marks a pending update, and `FlushFenUpdate` is the timer firing. The 100 ms `onChange` debounce of the component revision is collapsed into `TransformFen`.
- Foreign libraries are functions given to the editors, and nothing is stated about them:
  - `new Chess(...)` validity is `accepts`;
  - the widget's `getPosition` and `setPosition` are `placementOf` and `boardOf`;
  - cm-chess's `Fen` record (its parsing, its `toString`, and its en passant and clock fields) is not modelled;
  - neither is the `PositionEditor` extension.
- The first revision's record text and its castling letters at start-up are inputs of `ObservedEditor.Editor.OnFenChange` and of its constructor. They would come from `Fen.parse`.
- The board widget's own changes during a drag are not modelled: it moves the dragged piece once the callback accepts. The model changes the board only through the editors' own `setPiece` calls.
- Cookie reading and URL parsing are inputs. `Cookie.write` is the `cookie` field of `ComponentEditor.Editor`. The first revision's `Cookie.write` in `updateValidState` is not modelled.
- The `props.onFenChange` and `props.onPositionChange` callbacks are not modelled. `ObservedEditor.Editor.OnFenChange` returns the payload it would pass, and whether the callback is set is not modelled. `onPositionChange`'s forwarding of the event is left out.
- PanelEditor.Editor.FenChanged: the colour select holds whatever is assigned, with the empty string when the FEN has no second field, and the position select holds the typed FEN; a real select only keeps a value that matches one of its options. The same holds for the position select in `PanelEditor.Editor.FlushFenUpdate`, which takes the assembled FEN.
- PanelEditor.Editor.UpdateFen: the panel revision does not clear an earlier timer, so each call schedules its own flush; the single pending flag merges them into one flush.
- PanelEditor.Editor.OnBoardClick: with an undefined state, `setPiece(square, undefined)` is taken to empty the square, as `null` does.
- EditModes.Lookup: a `data-state` value naming an `Object.prototype` member (`toString`, `constructor`, `__proto__` and the like) makes `STATE[...]` return that inherited member rather than `undefined`; such values are outside the model, since an optional string cannot hold a function or an object.
- PanelEditor buttons: each button's `data-state` is a string. A button without the attribute is not modelled. A click on button `i` is `SetState(Lookup(buttonStates[i]))`.
- Two more inputs of the panel revision are `OnFenInput` calls with no method of their own: the constructor's deferred start-up (`props.fen`), and the position select.
- The piece recorded with a drag start (`moveStartEvent.piece`) is kept in `DragStart`. Neither editor reads it.
- src/cm-fen-editor/SubstitutionBench.js (sprite rendering) and postinstall.js (installation) are not part of this model.
