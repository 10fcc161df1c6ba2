# Verified models of the terminal UI and the agent protocol

Dafny models of the parts of this repository that keep a promise over whole runs, with proofs of those
promises: the differential terminal renderer, the input tokenizer and the keyboard negotiation behind
it, the ANSI-aware text transformations, overlay focus and render scheduling, and the agent's run
protocol with its queues, deferred session writes and proxy client. `dafny verify dfyconfig.toml`
checks everything.

How the modules fit together:

- **Renderer.** `Terminal` is a terminal of scrollback, rows and cursor with the operations the
  renderer writes (CUU, CUD, EL, ED, CR LF, home, `3J`; sections 8.3.22, 8.3.19, 8.3.41 and 8.3.39 of
  ECMA-48). `Renderer` says what one render writes and remembers, `RendererProofs` proves one step,
  `RendererRuns` whole runs, `RendererImages` the images that are alive, `RendererPaths` when a render
  wipes everything and which lines it draws otherwise. `TuiObject` is the class with its loops, proved
  to do what `Renderer` says. `KittyProtocol` is the byte form of an image.
- **Input.** `StdinModel` is the tokenizer on values, `StdinProofs` its independence of chunking,
  `StdinGrammar` the sequences by their bytes (sections 5.4 and 5.6 of ECMA-48) and the events one by
  one, `StdinObject` the class. `Negotiation` filters replies to the keyboard query out of the input;
  `NegotiationRules` says what a reply is and what it changes.
- **Text.** `AnsiStyle` is what SGR (section 8.3.117 of ECMA-48) and OSC 8 codes do to a style,
  `AnsiRoundTrip` printing and reading a style back, `AnsiCodes` the codes attribute by attribute,
  `AnsiTracker` the tracker class. `AnsiText` gives a line its meaning, a sequence of (grapheme, style)
  cells; `WrapWords` says what words are and where a line had to break, `Wrapping` and `Compositing`
  prove that wrapping, slicing and overlay splicing keep the meaning.
- **Focus and scheduling.** `FocusModel`, `FocusProofs`, `FocusObject`, and `FocusWhere` for where the
  focus is after each operation; `Scheduler`.
- **Agent.** `AgentTools` executes tool calls sequentially, in parallel and in groups; `AgentLoop` is
  the nested turn loop; `AgentState` reduces its events; `AgentCalls` tells what becomes of each call and
  `AgentTurns` why a run goes on or ends; `AgentAgreement` compares executions by their events;
  `AgentQueues` is a run fed by real queues. `Queues`, `SessionWrites` and `Proxy` are the message
  queues, the deferred session writes and the proxy client, `ProxyBlocks` the message it rebuilds.
- `Basics` and `Strings` hold what all of them share.

What the outside decides is a parameter: terminal size and contents after a resize, input chunks,
timers (as steps that may happen at any time they are armed), provider streams, tool outcomes and the
order in which tools finish, aborts, hook failures, and what callbacks say is visible or mounted.

## Promises that do not hold as stated

Each has a lemma with the failing input and an exact condition where one was found.

- A frame with its cursor marker above the tracked viewport leaves the renderer with a wrong cursor
  row; an empty frame on the delete-only path leaves the first row standing. `RenderStep` is an
  if-and-only-if over exactly these conditions.
- Without a marker the cursor row differs from that of a full redraw in two families: an unchanged
  frame with the cursor elsewhere than on its last line, and a differential render whose last
  repainted line is not the last of the frame, such as a change to the first of two lines.
  `MarkerlessCursor` is the exact condition for every frame; `StopsShortExample` is an input.
- A resize that comes back to the size of the last render is not noticed. After a resize to any size a
  frame is right whatever the resize did to the contents if and only if the render clears
  (`ResizeRepaired`), which it does when the size differs; `UnseenResize` is the case in which nothing
  is written at all.
- Of two images on one line only the first is on record, and the second outlives every redraw
  (`SecondImageLeaks`). The record is complete if and only if the id search finds every image of every
  line (`CollectsExactly`).
- Wrapped lines can be wider than `width` although every grapheme fits (`WidthPromiseFails`);
  `WrapSingleLine` gives the exact condition.
- A slice that does not start at column 0 can show a grapheme in an earlier style, because codes met
  inside the range are written before codes held back from in front of it (`SliceSwapsCodes`);
  `SliceKeepsCells` gives the exact condition.
- `ESC ESC` followed by a unit that introduces a sequence is read in two ways depending on chunking
  (`DoubleEscapeDependsOnChunks`). Token lists are delivered however they are cut if and only if that
  does not occur in them (`ChunkIndependenceExact`).
- Text before a paste is lost if and only if it ends in an unfinished sequence (`LostBeforePaste`;
  `FragmentLost` is an input). Extraction itself loses nothing of any text (`ExtractKeepsAll`).
- A provider that sends `start` twice leaves a stale partial message in the loop's context: the
  transcripts agree if and only if no stream does (`StreamAssistantResponse`, `ReplicasAgree`).
- Groups of tool calls agree with sequential execution if and only if no group among several asks to
  stop as a whole (`GroupsAgree`, `PartitionExecutions`).
- An overlay removed while an interrupted one is to resume to it is focused after it has gone, and the
  next overlay will return focus to it (`StaleTarget`, from a state that `StaleReachable` reaches).
  Removing an overlay leaves nothing dangling if and only if it is no such target, or it has the focus
  and hands it to nobody or to a visible overlay (`HideExact`).
- A start after a stop can lose its render request when an earlier request was still marked
  (`StepServed`, if and only if; `StuckUntilForced`).
- A second start of the terminal while an earlier push is outstanding leaves a Kitty keyboard push that
  is not popped (`DoubleStartLeaks`). After a drain or stop every mode has been undone as often as done if
  and only if such starts are as many as the pops written while no push was outstanding
  (`UndoneExactly`); modifyOtherKeys always has.

Two run theorems are about one actor at a time, which is how the code awaits its flushes and drains.
`SessionWrites.AnswerExact` and `Queues.RollbackExact` say exactly what is needed of a step when there are
more, and `TwoFlushersLose` shows what goes wrong otherwise.

## Model

| member | source | states |
|---|---|---|
| Terminal.PaintPaints | packages/tui/src/tui.ts:1165-1173 | printing lines from the cursor down, with or without erasing, replaces exactly those rows and scrolls in blanks as needed |
| RendererProofs.PrepareFacts | packages/tui/src/tui.ts:1108-1126 | extracting the marker and adding resets changes no cell, leaves no line empty and only looks at the bottom `height` lines |
| RendererProofs.RangeFacts | packages/tui/src/tui.ts:1228-1252 | outside the changed range old and new lines are equal, and the range is empty exactly for equal frames |
| RendererProofs.FullDraws | packages/tui/src/tui.ts:1158-1186 | a full render, from any screen contents when clearing, shows the whole frame and records it correctly |
| RendererProofs.DeleteOnlyDraws | packages/tui/src/tui.ts:1264-1300 | the delete-only path turns the old screen into the shorter frame padded with blanks |
| RendererProofs.NeverScrolls | packages/tui/src/tui.ts:1322-1335 | in a synchronised state the scroll branch is never taken: the row moved to is on the screen |
| RendererProofs.DiffDraws | packages/tui/src/tui.ts:1318-1403 | the differential path turns the screen of the old frame into that of the new one |
| RendererProofs.PositionFacts | packages/tui/src/tui.ts:1462-1487 | the relative cursor move is exact if and only if the target row is not above the viewport |
| RendererProofs.RenderStep | packages/tui/src/tui.ts:1128-1455 | after a render the terminal shows exactly the frame and every tracked field is right, if and only if the side condition of the chosen path holds |
| RendererRuns.RunDisplays | packages/tui/src/tui.ts:1128-1493 | over every run of frames, forced redraws and corrupting resizes to any size, where the first frame after a resize is rendered by clearing: after each frame scrollback plus screen is the frame padded with blanks, the last line is on screen, and tracked viewport and cursor are the real ones |
| RendererRuns.TightRun | packages/tui/src/tui.ts:1128-1455 | with clear-on-shrink and no overlays the same without further side conditions, with maxLinesRendered = the frame's length and the viewport top where a full print leaves it |
| RendererRuns.CursorAtMarker | packages/tui/src/tui.ts:1462-1487 | every permitted render with a marker ends with the cursor at it |
| RendererRuns.DiffRefinesRedraw | packages/tui/src/tui.ts:1128-1455 | whatever path is taken, rows and viewport equal those of clearing and printing everything; so does the cursor with a marker, and without one its row does if and only if the render reached the last line |
| RendererRuns.MarkerlessCursor | packages/tui/src/tui.ts:1386-1398 | on every frame without a marker the cursor rows of render and redraw agree if and only if an unchanged frame had the cursor on its last line or a differential render repainted up to the last line |
| RendererRuns.NoMarkerCursor | packages/tui/src/tui.ts:1255-1262 | in particular an unchanged frame agrees on the cursor row with a redraw if and only if the cursor was on the last line |
| RendererRuns.StopsShort | packages/tui/src/tui.ts:1386-1398 | a differential render whose last changed line is above the last one never agrees with a redraw on the cursor row |
| RendererRuns.StopsShortExample | packages/tui/src/tui.ts:1386-1398 | a change to the first of two lines is such a render |
| RendererRuns.ResizeRepaired | packages/tui/src/tui.ts:1132-1226 | after a resize to any size, a frame is displayed right for every contents the resize may leave if and only if the render takes the clearing path |
| RendererRuns.UnseenResize | packages/tui/src/tui.ts:1255-1262 | after a resize to the size of the last render an unchanged frame without a marker leaves everything as the resize left it |
| RendererRuns.MarkerAboveFails | packages/tui/src/tui.ts:1462-1487 | a marker above the tracked viewport makes the record wrong |
| RendererRuns.MarkerAboveExample | packages/tui/src/tui.ts:1108-1126 | a concrete synchronised state in which the marker is found above the viewport |
| RendererPaths.PreparedExactly | packages/tui/src/tui.ts:1108-1126 | what is compared and drawn is the frame with a reset after every line without an image and without the first marker of the lowest line on the screen that has one |
| RendererPaths.WipesExactly | packages/tui/src/tui.ts:1195-1316 | a render erases the scrollback if and only if the size differs or a redraw was demanded, clear-on-shrink applies, a line above the viewport changed, or trailing deletion reaches above the viewport or exceeds the height; it then draws the whole frame |
| RendererPaths.DrawsChanges | packages/tui/src/tui.ts:1228-1403 | any other render draws exactly the lines from the first change to the last, images of the old frame included, nothing for a frame that only lost lines or is the same, and stops without writing when one of those lines is too wide |
| RendererPaths.WorkingArea | packages/tui/src/tui.ts:1174-1182 | what clear-on-shrink compares with is the tallest frame since the last wipe |
| RendererImages.DeleteChangedAlive | packages/tui/src/tui.ts:1025-1047 | deleting the changed range removes every image from the first changed line on and none above |
| RendererImages.CollectsExactly | packages/tui/src/tui.ts:1007-1015 | with the ids of different lines distinct, the record holds all images of a frame if and only if the id search finds every image of every line (one image per line, with an id in range) |
| RendererImages.SecondImageLeaks | packages/tui/src/tui.ts:17-35 | two images on one line: one on record, the other alive after a clearing redraw |
| RendererImages.RenderKeepsImages | packages/tui/src/tui.ts:1007-1047 | after any render of any frame from a right record the images alive are exactly those of the frame; with ids distinct across lines the new record is complete if and only if the id search finds every image |
| RendererImages.RunKeepsImages | packages/tui/src/tui.ts:1128-1455 | over whole runs and all paths, when earlier frames had each id on one line and at most one image per line, the images alive after a frame, whatever it is, are exactly its own |
| TuiObject.ExtractCursorPosition | packages/tui/src/tui.ts:1108-1126 | the backward loop finds and strips the last marker of the bottom lines |
| TuiObject.ApplyLineResets | packages/tui/src/tui.ts:996-1005 | the loop appends the reset to every line that is not an image |
| TuiObject.CollectKittyImageIds | packages/tui/src/tui.ts:1007-1015 | the loop collects the ids of all lines |
| TuiObject.DeleteKittyImages | packages/tui/src/tui.ts:1017-1023 | one delete command per id, in order |
| TuiObject.FindChangedRange | packages/tui/src/tui.ts:1228-1252 | the loop computes the first and last changed line, with appended lines and images taken into account |
| TuiObject.ExpandLastChanged | packages/tui/src/tui.ts:1025-1033 | the loop extends the range over every image below its start |
| TuiObject.TUI.PositionHardwareCursor | packages/tui/src/tui.ts:1462-1487 | writes the relative move and records the row |
| TuiObject.TUI.FullRender | packages/tui/src/tui.ts:1158-1186 | the output loop and the new tracked state are those of the specification |
| TuiObject.TUI.DeleteTrailing | packages/tui/src/tui.ts:1264-1307 | the delete-only branch, once chosen, writes the operations and records the state that `DeleteOnlyDraws` is about |
| TuiObject.TUI.RenderDifference | packages/tui/src/tui.ts:1228-1319 | the choice between no change, delete-only with its two fallbacks, a full redraw above the viewport and the differential path ends in the specified operations and state |
| TuiObject.TUI.Repaint | packages/tui/src/tui.ts:1347-1384 | the repaint loop writes the changed lines, or reports an overlong one, exactly when there is one |
| TuiObject.TUI.Approach | packages/tui/src/tui.ts:1322-1345 | scrolling and moving end at the first changed line; the viewport moves only if the target was below it |
| TuiObject.TUI.DoRender | packages/tui/src/tui.ts:1128-1455 | the whole imperative render writes the operations and reaches the state of the specification that the run theorems are about |
| TuiObject.TUI.ForgetEverything | packages/tui/src/tui.ts:656-664 | a forced request clears the record so that the next render clears everything |
| KittyProtocol.EncodeKitty | packages/tui/src/terminal-image.ts:160-203 | the chunking loop produces exactly the commands that `ReceivedWhole` and `IdRecovered` are about |
| KittyProtocol.ReceivedWhole | packages/tui/src/terminal-image.ts:160-203 | a receiver that follows the `m` key gets the payload back whole, in commands of at most 4096 characters, under exactly the keys asked for |
| KittyProtocol.IdRecovered | packages/tui/src/tui.ts:17-35 | for every payload and any surrounding text the id found is the id that was encoded, and none when none was |
| KittyProtocol.DeleteIsNoImage | packages/tui/src/terminal-image.ts:209-211 | a delete command is not taken for an image |
| StdinProofs.ExtractTokens | packages/tui/src/stdin-buffer.ts:192-264 | complete tokens come out one by one and an unfinished sequence is kept as remainder |
| StdinProofs.ChunkStep | packages/tui/src/stdin-buffer.ts:287-387 | one chunk takes the buffer from waiting for one part of the token stream to waiting for a later part, emitting exactly the tokens between |
| StdinProofs.ChunkIndependence | packages/tui/src/stdin-buffer.ts:192-398 | for every list of well-formed tokens, two escapes included unless a unit that introduces a sequence follows, and every cut of their text into non-empty chunks the buffer emits exactly those tokens in order (duplicate Kitty characters suppressed) and ends empty, outside paste mode |
| StdinProofs.ChunkIndependenceExact | packages/tui/src/stdin-buffer.ts:192-398 | a list of well-formed tokens is delivered however it is cut if and only if no two escapes in it are followed by such a unit |
| StdinProofs.TwinMisread | packages/tui/src/stdin-buffer.ts:217-230 | for every other list a chunking that delivers something else |
| StdinGrammar.UnfinishedExactly | packages/tui/src/stdin-buffer.ts:34-178 | the text kept for later is exactly an escape sequence that has not reached its end, by its bytes |
| StdinGrammar.WellFormedExactly | packages/tui/src/stdin-buffer.ts:34-178 | the escape sequences of the chunking law are exactly the control sequences, SGR and older mouse reports, OSC to BEL or ST, DCS and APC to ST, SS3 and ESC with one unit, and two escapes |
| StdinGrammar.ControlSequence | packages/tui/src/stdin-buffer.ts:82-127 | parameter, intermediate and final bytes after ESC [ come out as one sequence and are kept until complete |
| StdinGrammar.MouseReport | packages/tui/src/stdin-buffer.ts:103-119 | the same for mouse reports in SGR form |
| StdinGrammar.OldMouseReport | packages/tui/src/stdin-buffer.ts:47-50 | the same for ESC [ M and three units |
| StdinGrammar.CommandString | packages/tui/src/stdin-buffer.ts:129-178 | the same for OSC, DCS and APC |
| StdinGrammar.ShortSequence | packages/tui/src/stdin-buffer.ts:69-79 | the same for SS3 and for ESC with one unit |
| StdinGrammar.IntroducesExactly | packages/tui/src/stdin-buffer.ts:217-230 | a second ESC starts a sequence of its own before exactly the units that ESC waits for more after |
| StdinGrammar.PressExactly | packages/tui/src/stdin-buffer.ts:184-190 | a key press is found exactly in `ESC [ n u` with the decimal of a printable n and optional other forms of the key |
| StdinGrammar.DeliveredExactly | packages/tui/src/stdin-buffer.ts:389-398 | the events are all tokens in order but the character that repeats the key press just before it |
| StdinProofs.EmptyChunk | packages/tui/src/stdin-buffer.ts:308-311 | an empty chunk reports empty input exactly when nothing is buffered, in paste mode too, and otherwise changes nothing |
| StdinProofs.ExtractKeepsAll | packages/tui/src/stdin-buffer.ts:192-264 | for every text, well-formed or not, the sequences followed by the remainder are the text |
| StdinProofs.LostBeforePaste | packages/tui/src/stdin-buffer.ts:335-350 | in any state outside paste mode and for any chunk that completes a paste marker, the text before the marker is emitted whole if and only if it does not end in an unfinished sequence, which is neither emitted nor kept |
| StdinProofs.FragmentLost | packages/tui/src/stdin-buffer.ts:335-350 | such a fragment |
| StdinProofs.DoubleEscapeDependsOnChunks | packages/tui/src/stdin-buffer.ts:217-230 | one text in two chunkings gives different events |
| StdinObject.ExtractCompleteSequences | packages/tui/src/stdin-buffer.ts:192-264 | the nested loops compute the specified extraction |
| StdinObject.StdinBuffer.Process | packages/tui/src/stdin-buffer.ts:287-387 | the new state and the events emitted are those of the specification |
| StdinObject.StdinBuffer.EmitDataSequence | packages/tui/src/stdin-buffer.ts:389-398 | a lone character that repeats the Kitty key just reported is dropped |
| StdinObject.StdinBuffer.FlushPending | packages/tui/src/stdin-buffer.ts:400-414 | the timeout delivers the unfinished sequence and forgets the pending key |
| StdinGrammar.FlushDelivers | packages/tui/src/stdin-buffer.ts:400-414 | what was buffered is delivered as it is and no key press is pending |
| Negotiation.FilterKeepsText | packages/tui/src/terminal.ts:280-305 | nothing is lost, added or reordered: text handed over is what was forwarded, answered, dropped and still held; nothing is dropped while there is a handler |
| Negotiation.SplitReplyRecognised | packages/tui/src/terminal.ts:280-305 | a reply arriving in any pieces during the query is recognised whole and none of it reaches the application |
| Negotiation.LateEscapePasses | packages/tui/src/terminal.ts:38-40 | after the query a lone ESC is passed on at once |
| Negotiation.SpanLosesNothing | packages/tui/src/terminal.ts:182-330 | from any moment with a handler, over any input and timers up to the next drain or stop, nothing is dropped: what was forwarded and answered, with the fragment held at the end, is the fragment held before and all text that arrived, in order |
| Negotiation.RunAccounts | packages/tui/src/terminal.ts:179-482 | over every run of starts, input, timers, drains and stops all text is accounted for in order, a held fragment has a timer that will release it, pushes and stray pops are pops, extra pushes and the one outstanding, and modifyOtherKeys was undone as often as done but for the one that is on |
| Negotiation.UndoneExactly | packages/tui/src/terminal.ts:397-482 | after a drain or stop every mode has been undone as often as done if and only if there were as many stray pops as extra pushes, in particular when no start found a push outstanding; modifyOtherKeys always has |
| Negotiation.DoubleStartLeaks | packages/tui/src/terminal.ts:235-254 | two starts and a stop leave one push that was never popped |
| NegotiationRules.ReplyExactly | packages/tui/src/terminal.ts:24-36 | replies are exactly `ESC [ ? digits u` and `ESC [ ?` digits and semicolons `c`; the flags are zero exactly if all digits are |
| NegotiationRules.HeldExactly | packages/tui/src/terminal.ts:38-40 | input is held exactly if it is a proper beginning of some reply, a lone ESC only during the query |
| NegotiationRules.OrdinaryPasses | packages/tui/src/terminal.ts:182-204 | with nothing held, input that begins no reply is passed on at once and a whole reply is taken out |
| NegotiationRules.ReplyActs | packages/tui/src/terminal.ts:256-278 | a first Kitty reply with a flag activates the protocol and closes the query, other Kitty replies change no mode, device attributes close it and enable modifyOtherKeys unless the protocol or it is on |
| NegotiationRules.FallbackActs | packages/tui/src/terminal.ts:243-253 | an unanswered query is closed by its timer with the same effect as device attributes |
| NegotiationRules.ActiveStays | packages/tui/src/terminal.ts:179-330 | once active the protocol stays so and modifyOtherKeys is not enabled over any events up to a drain or stop |
| NegotiationRules.ClosesAll | packages/tui/src/terminal.ts:397-482 | a drain or stop pops and disables exactly what is on and expects no reply any more |
| Negotiation.ProcessTerminal.Start | packages/tui/src/terminal.ts:235-242 | the query opens with one push and an empty buffer |
| Negotiation.ProcessTerminal.FallbackFires | packages/tui/src/terminal.ts:243-253 | the unanswered query falls back to modifyOtherKeys and lets a held ESC go |
| Negotiation.ProcessTerminal.FlushFires | packages/tui/src/terminal.ts:317-330 | the held fragment is passed on as input |
| Negotiation.ProcessTerminal.Handle | packages/tui/src/terminal.ts:256-278 | Kitty flags or device attributes close the query; the latter enable modifyOtherKeys unless Kitty or it is on already |
| Negotiation.ProcessTerminal.Read | packages/tui/src/terminal.ts:280-305 | a reply in held fragment plus new sequence is recognised, a possible start is held, and anything else leaves the fragment forwarded before it |
| Negotiation.ProcessTerminal.Receive | packages/tui/src/terminal.ts:182-204 | the handler does to text and modes what the run theorem is about and drops nothing while there is a handler |
| Negotiation.ProcessTerminal.BeginDrain | packages/tui/src/terminal.ts:397-419 | draining switches every mode off and discards input |
| Negotiation.ProcessTerminal.Stop | packages/tui/src/terminal.ts:442-482 | after a stop modifyOtherKeys has been switched off as often as on, and the Kitty push exactly when extra pushes and stray pops balance |
| AnsiRoundTrip.ParseFormat | packages/tui/src/utils.ts:335-361 | printing a parsed hyperlink gives back the code |
| AnsiRoundTrip.FormatParse | packages/tui/src/utils.ts:335-361 | parsing a printed hyperlink gives back the link, with either terminator |
| AnsiRoundTrip.GoodProcess | packages/tui/src/utils.ts:380-512 | every code leads from a printable style to a printable one |
| AnsiRoundTrip.RoundTrip | packages/tui/src/utils.ts:534-552 | reading the printed active codes from a clear style rebuilds the style |
| AnsiRoundTrip.ReachableGood | packages/tui/src/utils.ts:380-599 | the round trip holds for every style any sequence of codes can reach, with 256-colour, RGB and links |
| AnsiTracker.AnsiCodeTracker.Apply | packages/tui/src/utils.ts:440-508 | one SGR code changes the tracked style as the round-trip model says |
| AnsiTracker.AnsiCodeTracker.ProcessParts | packages/tui/src/utils.ts:406-512 | the parameter loop, with colours that take three or five parameters, computes the style of the round-trip model |
| AnsiTracker.AnsiCodeTracker.Process | packages/tui/src/utils.ts:380-423 | one escape code, hyperlink or SGR, leads to the style of the round-trip model |
| AnsiTracker.AnsiCodeTracker.UpdateFromText | packages/tui/src/utils.ts:588-599 | feeding a text applies all its codes in order, the reading half of the round trip |
| AnsiStyle.ApplyCode | packages/tui/src/utils.ts:441-510 | for every attribute and colour, exactly which codes switch it on or off and that no other code touches it |
| AnsiCodes.OffUndoesOn | packages/tui/src/utils.ts:441-510 | an off code after its on code, as text, gives what the off code alone gives |
| AnsiCodes.SequenceApplies | packages/tui/src/utils.ts:398-512 | the codes of one sequence are applied in order, and 0 alone resets all but the link |
| AnsiCodes.ExtendedColour | packages/tui/src/utils.ts:412-438 | 38 and 48 with three or five parameters set one colour to the parameters as they stand |
| AnsiCodes.CloseEnds | packages/tui/src/utils.ts:576-585 | the closing code ends the link with either terminator |
| AnsiText.ResetCloses | packages/tui/src/utils.ts:576-585 | the codes at a line end switch off exactly underline and link |
| AnsiText.ActiveRestores | packages/tui/src/utils.ts:534-552 | writing the active codes on a clear terminal restores the style and shows nothing |
| AnsiText.TrimDrops | packages/tui/src/utils.ts:764-767 | trimming a line end removes whitespace cells only |
| WrapWords.TokensKeepAll | packages/tui/src/utils.ts:604-652 | splitting into tokens loses and reorders nothing |
| WrapWords.TokensExactly | packages/tui/src/utils.ts:604-652 | the tokens are the runs of spaces and of other graphemes in turn, codes in front of the grapheme they precede |
| WrapWords.SplitIntoTokens | packages/tui/src/utils.ts:604-652 | the loop computes the tokens |
| WrapWords.ShortWordsWhole | packages/tui/src/utils.ts:707-752 | a line that had to break does not break inside a word that fits on a line |
| Wrapping.BreakLongWord | packages/tui/src/utils.ts:785-852 | a long word broken over lines shows its cells in their styles, each line within the width |
| Wrapping.WrapSingleLine | packages/tui/src/utils.ts:688-767 | the lines, each rendered from a clear style, show the input's cells in order and style less whitespace dropped between lines; when every grapheme fits they are all within the width if and only if no blank run spills; each line but the last ends where it had to, before a word that no longer fits, behind whitespace that did not fit, or in a word wider than a line before a grapheme that did not fit, and with underline and link off; no line ends in whitespace |
| Wrapping.LinesAreText | packages/tui/src/utils.ts:668-670 | the input lines one after the other are the text less its line breaks |
| Wrapping.WrapTextWithAnsi | packages/tui/src/utils.ts:663-686 | a text is split at its line breaks and each line wrapped with the same guarantees, in the style the text has there |
| Wrapping.SpillExample | packages/tui/src/utils.ts:709-722 | underlined zero-width grapheme, wide blank run, long word: a line wider than the width |
| Wrapping.WidthPromiseFails | packages/tui/src/utils.ts:654-662 | there is a text of narrow graphemes that does not wrap within the width |
| Compositing.SliceWithWidth | packages/tui/src/utils.ts:1031-1074 | the width returned is the width of the text, a strict slice is never wider than asked, and it shows exactly the specified cells |
| Compositing.SliceKeepsCells | packages/tui/src/utils.ts:1045-1066 | a slice shows the cells of its range in their own styles if and only if swapping the codes before and inside the range leaves the style alone; always when it reorders none |
| Compositing.SliceSwapsCodes | packages/tui/src/utils.ts:1047-1066 | for any two foreground colours, a slice that shows a grapheme in the wrong one |
| Compositing.SliceFromStart | packages/tui/src/utils.ts:1031-1074 | a slice from column 0 always keeps the styles |
| Compositing.ExtractSegments | packages/tui/src/utils.ts:1086-1157 | one pass gives the cells that start left of the overlay and those right of it, the latter in the style the line had there, also when the two ranges overlap |
| Compositing.PickIsCut | packages/tui/src/utils.ts:1086-1157 | where no edge cuts a grapheme, picking cells by their column is cutting the line by columns |
| Compositing.PickIsRange | packages/tui/src/utils.ts:1026-1076 | the cells picked are exactly those that start in the range and, when strict, end in it, which are consecutive |
| Compositing.ImageExactly | packages/tui/src/terminal-image.ts:141-148 | a line is an image line exactly if it holds a Kitty or iTerm2 image sequence |
| Compositing.CompositeLineAt | packages/tui/src/tui.ts:1050-1098 | the result is the cells of the base left of the overlay, of the overlay and of the base right of it, each filled with spaces, cut at the terminal width; exactly that wide when the overlay fits and its left edge cuts no grapheme; and where no edge cuts one, column by column the base with the overlay written over it, also when the overlay reaches past the terminal |
| FocusProofs.StepKept | packages/tui/src/tui.ts:333-569 | every operation, even on the handle of a removed overlay, keeps exactly the focused component marked and a pending restore naming an overlay of the stack |
| FocusProofs.RunKept | packages/tui/src/tui.ts:333-569 | the same at every moment of every run |
| FocusProofs.StepTidy | packages/tui/src/tui.ts:438-444 | when callers give each overlay its own component, do not name a removed overlay and do not remove one that another is to resume to (unless that removal ends the interruption), no operation leaves a reference to a removed overlay |
| FocusProofs.HideExact | packages/tui/src/tui.ts:478-492 | removing any overlay of the stack leaves nothing dangling if and only if no interrupted overlay is to resume to it, or it has the focus and hands it to nobody or to a visible overlay |
| FocusProofs.RunTidy | packages/tui/src/tui.ts:333-569 | in every such run neither the focus nor any preFocus is a removed overlay's component |
| FocusProofs.StaleTarget | packages/tui/src/tui.ts:520-550 | an overlay removed while another is to resume to it is focused after it has gone and becomes the next preFocus |
| FocusProofs.StaleReachable | packages/tui/src/tui.ts:460-475 | three calls reach a state from which that happens |
| FocusWhere.RunOrdered | packages/tui/src/tui.ts:460-519 | in every run no two overlays have the same place in the focus order |
| FocusWhere.FocusLands | packages/tui/src/tui.ts:337-400 | the focus lands where it was asked for, unless it would leave a component that interrupts a shown overlay; then where that overlay is to resume |
| FocusWhere.RestoreRemembers | packages/tui/src/tui.ts:356-400 | the overlay that has the focus is eligible to resume, and blocked when a component that is neither an overlay nor its ancestor takes the focus from it |
| FocusWhere.AncestorExactly | packages/tui/src/tui.ts:427-436 | a component is an ancestor exactly if a path of earlier focus leads to it |
| FocusWhere.AfterShow | packages/tui/src/tui.ts:460-475 | a new overlay gets the focus exactly if it captures input and is visible |
| FocusWhere.AfterHide | packages/tui/src/tui.ts:478-492 | a removed overlay that has the focus passes it to the visible capturing overlay focused last, or else back |
| FocusWhere.AfterSetHidden | packages/tui/src/tui.ts:493-512 | hiding passes the focus on in the same way and showing takes it |
| FocusWhere.AfterFocusOverlay | packages/tui/src/tui.ts:514-519 | focusing works exactly on the stack and visible, and brings the overlay to the front |
| FocusWhere.AfterUnfocus | packages/tui/src/tui.ts:520-550 | an overlay that gives up the focus passes it to the front overlay if that is another, else back |
| FocusWhere.AfterUnfocusTo | packages/tui/src/tui.ts:520-550 | with a target named the focus goes there, or an interrupted overlay waits for it |
| FocusWhere.AfterInvisible | packages/tui/src/tui.ts:734-745 | a focused overlay that is not visible any more passes the focus on |
| FocusWhere.AfterResume | packages/tui/src/tui.ts:747-760 | an overlay that is to resume gets the focus unless what blocks it has it |
| FocusObject.FocusManager.SetFocusInternal | packages/tui/src/tui.ts:337-400 | the find loops, branches and in-place updates end in exactly the state of the model that `RunKept` and `RunTidy` are about, and keep the marking and restore invariant |
| FocusObject.FocusManager.IsOverlayFocusAncestor | packages/tui/src/tui.ts:427-436 | true exactly when the component is reached by following earlier focus, each component once, so it ends even on a cycle |
| FocusObject.FocusManager.RetargetPreFocus | packages/tui/src/tui.ts:438-444 | after the loop exactly the overlays that would have returned focus to the removed one return it to what that one would have |
| FocusObject.FocusManager.TopmostVisible | packages/tui/src/tui.ts:586-595 | the loop finds the visible capturing overlay with the highest focus order, if any |
| FocusObject.FocusManager.ShowOverlay | packages/tui/src/tui.ts:460-475 | a new overlay remembers the focus it found and takes it if visible and capturing; the invariant is kept |
| FocusObject.FocusManager.HideEntry | packages/tui/src/tui.ts:478-492 | hiding twice or after removal does nothing; otherwise references are retargeted and focus falls back as in the model, keeping the invariant |
| FocusObject.FocusManager.HideOverlay | packages/tui/src/tui.ts:556-569 | the same for the overlay on top of the stack |
| FocusObject.FocusManager.SetHidden | packages/tui/src/tui.ts:493-512 | hiding passes a held focus on, showing takes it back with a new focus order, as in the model, keeping the invariant |
| FocusObject.FocusManager.FocusEntry | packages/tui/src/tui.ts:514-519 | focuses an overlay only while it is in the stack and visible, keeping the invariant |
| FocusObject.FocusManager.UnfocusEntry | packages/tui/src/tui.ts:520-550 | replaces or clears a pending restore, or moves the focus to the target or fallback, as in the model, keeping the invariant |
| FocusObject.FocusManager.HandleInput | packages/tui/src/tui.ts:734-760 | an invisible focused overlay passes the focus on and an interrupted one gets it back before input is delivered, keeping the invariant |
| Scheduler.StepServed | packages/tui/src/tui.ts:656-703 | every step keeps each marked request served and counted, except, exactly, a start in a stuck state |
| Scheduler.RendersExactly | packages/tui/src/tui.ts:656-703 | a step renders once exactly when it is a callback that finds a marked request on a screen in use; a forced request always leaves its own callback and disarms the timer, any other one leaves a callback exactly when nothing was marked, and what is asked for during a render is marked anew |
| Scheduler.NoLostRender | packages/tui/src/tui.ts:656-703 | in every run whose restarts are not stuck a marked request has a callback outstanding, and renders equal requests that found none pending less the one still marked, so bursts coalesce |
| Scheduler.StuckUntilForced | packages/tui/src/tui.ts:634-639 | once stuck, ordinary requests are dropped until a forced one |
| Scheduler.RenderScheduler.RequestRender | packages/tui/src/tui.ts:656-683 | a request keeps the invariant that a marked request is served and counted once |
| Scheduler.RenderScheduler.OnForcedTick | packages/tui/src/tui.ts:670-677 | a forced callback renders at most once and only for a marked request, as the run theorem assumes |
| Scheduler.RenderScheduler.OnTick | packages/tui/src/tui.ts:685-690 | a callback arms the timer unless one is armed, stopped or nothing is marked, as the run theorem assumes |
| Scheduler.RenderScheduler.OnTimer | packages/tui/src/tui.ts:691-702 | the timer renders once and rearms itself for requests made while rendering, as the run theorem assumes |
| AgentTools.ExecuteSequential | packages/agent/src/agent-loop.ts:420-474 | events and results one call after the other, up to an abort |
| AgentTools.ExecuteParallel | packages/agent/src/agent-loop.ts:476-541 | all starts and preparations, then an interleaving of the running tools, then all result messages in call order, for every schedule |
| AgentTools.ExecuteGroups | packages/agent/src/agent-loop.ts:399-413 | groups in order, each group's events complete before the next begins |
| AgentTools.ExecuteToolCalls | packages/agent/src/agent-loop.ts:377-414 | whichever of the three ways is chosen, results and event order are those of `BatchFor` and `BatchTrace`, which `GroupsAgree` and `BatchEnded` are about |
| AgentCalls.CallReported | packages/agent/src/agent-loop.ts:377-760 | however a batch is executed, a call that is missing, refused, aborted or blocked, in this order, has no update and ends with its stated text and error flag; any other reports all its updates and ends with what the tool returned or threw, patched field by field by the after hook; the result messages say the same in call order |
| AgentCalls.TakenExactly | packages/agent/src/agent-loop.ts:377-541 | which calls are taken up before an abort or a halting group, and that the batch asks to stop exactly if all of them do or some group halts |
| AgentTools.GroupsAgree | packages/agent/src/agent-loop.ts:377-571 | undisturbed grouped execution gives the messages and the decision of sequential execution if and only if no group among several asks to stop as a whole |
| AgentAgreement.DecisionReported | packages/agent/src/agent-loop.ts:569-571 | without a partition the ends reported are those of the calls taken up, and the decision to stop is the one those events show |
| AgentAgreement.ParallelAgrees | packages/agent/src/agent-loop.ts:420-571 | any parallel execution, in whatever order its tools finish, announces the results of any sequential execution of the same calls in the same order, reports the same ends and asks to stop exactly when it does; with an abort, for executions that notice it after the same call |
| AgentAgreement.PartitionExecutions | packages/agent/src/agent-loop.ts:377-571 | an order-keeping partitioned execution announces the sequential results and takes the decision the sequential events show if and only if no group among several asks to stop as a whole |
| AgentTools.PartitionAgrees | packages/agent/src/agent-loop.ts:377-571 | an order-keeping partition agrees under the same condition |
| AgentLoop.BatchEnded | packages/agent/src/agent-loop.ts:377-541 | a batch announces exactly its result messages in order, however it is executed |
| AgentLoop.StreamAssistantResponse | packages/agent/src/agent-loop.ts:279-371 | the context grows by exactly the final message and one message is announced if and only if the provider starts at most once; every partial message is reported as it comes |
| AgentLoop.TakeTurn | packages/agent/src/agent-loop.ts:183-222 | a turn is its injected messages, the answer, its tool events and the turn end; the same messages go to the collected list and, if and only if the stream begins at most once, the context grows by nothing else |
| AgentLoop.RunAgentLoop | packages/agent/src/agent-loop.ts:97-273 | a run is agent_start, balanced turns, one final agent_end with exactly the messages announced; each turn injects exactly what the queues handed out before it; without replacement the context is longer than initial ++ collected by the stale partial messages of streams that began twice, and equal to it at every turn end when there are none |
| AgentLoop.RunAgentLoopContinue | packages/agent/src/agent-loop.ts:123-147 | the same for a continued run, refused for an empty context or after an answer |
| AgentTurns.RunTold | packages/agent/src/agent-loop.ts:165-273 | in every run a turn whose answer ended in an error or an abort is the last, without tool events and results; an answer with calls runs one batch; the run goes on exactly when it is not stopped by the hook and the tools want more or messages were handed out, steering first |
| AgentState.Agent.ProcessEvent | packages/agent/src/agent.ts:536-583 | the in-place reduction of one event is the one the replica and pending-call theorems are about |
| AgentState.Transcript | packages/agent/src/agent.ts:536-583 | the reduced transcript is the old one and every message whose end was announced |
| AgentState.StreamingIs | packages/agent/src/agent.ts:536-583 | the streaming message is the one last started or updated, and none after an end |
| AgentState.ReplicasAgree | packages/agent/src/agent.ts:536-583 | the transcript is always initial ++ newMessages; the context equals it if and only if no stream began twice, and then all three are equal at every turn end |
| AgentState.PendingIs | packages/agent/src/agent.ts:560-575 | for orderly events pendingToolCalls is started minus ended |
| AgentState.PendingInRun | packages/agent/src/agent.ts:536-583 | in every run with distinct call ids that holds at every moment and pendingToolCalls is empty at every turn end |
| Queues.PendingMessageQueue.Enqueue | packages/agent/src/agent.ts:130-132 | drained ++ queued stays everything enqueued |
| Queues.PendingMessageQueue.Drain | packages/agent/src/agent.ts:138-151 | hands over everything, or at most the oldest message, and nothing only from an empty queue; keeps drained ++ queued |
| Queues.PendingMessageQueue.HasItems | packages/agent/src/agent.ts:134-136 | true exactly when not everything enqueued has been drained |
| AgentQueues.InjectedOnce | packages/agent/src/agent-loop.ts:171-194 | the messages injected so far are the first ones followed by everything the polls handed out, in order |
| AgentQueues.RunWithQueues | packages/agent/src/agent.ts:467-474 | a run that drains the two queues while messages arrive, however it ends: the injected messages are the prompts followed by everything drained (but for what awaits a turn still to come), and drained ++ queued is everything enqueued |
| Queues.RunConserved | packages/agent/src/harness/agent-harness.ts:409-419 | for every interleaving of new messages with drains in either mode, finished or rolled back, drained ++ in flight ++ queued is everything enqueued, in order |
| Queues.BeginTakes | packages/agent/src/harness/agent-harness.ts:409-411 | a drain takes everything, or at most the oldest message |
| Queues.RollbackExact | packages/agent/src/harness/agent-harness.ts:409-419 | two overlapping drains rolled back in reverse order restore the queue, and in the order they began they do if and only if what they took is interchangeable |
| Queues.HarnessQueue.DrainQueuedMessages | packages/agent/src/harness/agent-harness.ts:409-419 | one drain with messages arriving while its hook runs, and the rollback when the hook fails |
| SessionWrites.RunOrdered | packages/agent/src/harness/agent-harness.ts:484-508 | for every interleaving of new writes and failed appends with one flusher at a time, appended ++ pending is everything deferred |
| SessionWrites.AnswerExact | packages/agent/src/harness/agent-harness.ts:484-508 | an append that worked keeps appended ++ pending equal to everything deferred if and only if its write is still the head |
| SessionWrites.TwoFlushersLose | packages/agent/src/harness/agent-harness.ts:484-508 | two flushers write the head twice and lose the next write |
| SessionWrites.Harness.Flush | packages/agent/src/harness/agent-harness.ts:484-508 | the flush keeps that equation over arrivals and failures and goes on until nothing is pending or an append fails |
| Proxy.ReadOn | packages/agent/src/proxy.ts:196-198 | lines of the whole text are the lines of a prefix followed by those of the unfinished line and the rest |
| Proxy.StreamProxy.ReadChunk | packages/agent/src/proxy.ts:196-211 | one chunk processes exactly its complete `data: ` lines |
| Proxy.StreamProxy.Run | packages/agent/src/proxy.ts:184-234 | for every chunking the outcome is that of the newline-terminated `data: ` lines read before an abort (section 9.2 of the WHATWG HTML standard, data lines only), and a failure or abort is reported with its message and reason |
| Proxy.DecodeChunks | packages/agent/src/proxy.ts:186-196 | an incremental decoder gives the text of the whole byte stream however it is cut, also inside a character |
| Proxy.StreamProxy.RunBytes | packages/agent/src/proxy.ts:184-234 | the same outcome from the bytes of the response in any chunks |
| Proxy.StreamProxy.ProcessProxyEvent | packages/agent/src/proxy.ts:242-365 | the switch over event kinds with its lookups, in-place updates and exceptions does to the message what `Rebuilt` is about, and fails with the right complaint exactly when a delta or end does not fit |
| Proxy.Rebuilt | packages/agent/src/proxy.ts:242-352 | for every interleaving the stream is accepted if and only if each delta and end fits the block last started at its index, and then each text or thinking block is the concatenation of its deltas since its last start |
| Proxy.EndTellsText | packages/agent/src/proxy.ts:268-280 | the end event of a block carries that whole concatenation |
| Proxy.AcceptIsApply | packages/agent/src/proxy.ts:199-209 | reading payloads that all parse is applying their events |
| ProxyBlocks.RebuiltWhole | packages/agent/src/proxy.ts:242-365 | every field of every block, tool calls included, how the message ended and which events the application is told, from the events alone |
| ProxyBlocks.StopsAtMisfit | packages/agent/src/proxy.ts:250-365 | a stream is read up to the first event that does not fit: message and told events are those before it, and the failure is the complaint about it |
| ProxyBlocks.EndsTold | packages/agent/src/proxy.ts:213-229 | a run ends with one error told exactly if it failed or was aborted, with the failure's own message, or as aborted when nothing failed before |
| ProxyBlocks.ToolArguments | packages/agent/src/proxy.ts:312-345 | a tool call without a delta after its end has as arguments what parsing the concatenation of its deltas gives |
| ProxyBlocks.LinesExactly | packages/agent/src/proxy.ts:196-198 | a text is its lines with their newlines and the unfinished line |
| ProxyBlocks.PayloadExactly | packages/agent/src/proxy.ts:200-203 | a line carries a payload exactly if it begins with `data: ` and something but whitespace follows |
| ProxyBlocks.TrimExactly | packages/agent/src/proxy.ts:202 | trimming takes the whitespace off both ends and nothing else |

## Left out

- Unicode segmentation, character widths and the width cache: graphemes come with a given width.
- Bytes of a frame: a line of the renderer is a sequence of items (graphemes of one cell, codes, images, the marker), and a terminal operation stands for its escape sequence; only images are also modelled as text.
- Number parsing of ids: `KittyProtocol.Number` reads plain decimal digits only, not the other number forms JavaScript accepts.
- Wide graphemes on the simulated terminal, cursor movement by images and the cursor-up prefix of multi-row images.
- Synchronised-output markers, hiding and showing the cursor, debug and crash logs, Termux height changes, and what `stop` writes on exit.
- Overlay layout (`resolveOverlayLayout`): sizes and positions only; compositing takes the resolved column and width.
- Input delivery to the focused component, key release filtering, key tables and key bindings.
- FocusObject.FocusManager.SetHidden: takes an overlay that was shown at some time, since only `showOverlay` hands out handles.
- FocusProofs.RunTidy: of the conditions on callers that of removal is exact at each step; the others are sufficient.
- Negotiation: the flags of the terminal object are one record field, and the Apple Terminal rewriting of a carriage return is not modelled.
- The 8-bit single-byte conversion in `StdinBuffer.process`, and durations of all timers.
- `truncateToWidth`, `applyBackgroundToLine` and `normalizeTerminalOutput`.
- Tool result details and timestamps, argument validation, and runs in which hooks or listeners throw.
- AgentLoop.RunAgentLoop: a run whose script ends early is reported as unfinished instead of going on for ever.
- Proxy.StreamProxy.RunBytes: the decoder and JSON parsing are parameters; HTTP errors and the sharing of the partial message between events are not modelled.
- SessionWrites.Harness.Flush: treats every kind of write alike, and direct writes while idle are not part of the equation.
- Queues: clearing during an abort while a drain is in flight.
- Compaction, session storage, provider clients, command-line code and registries.
