# Wendy and Michael, verified

Two home-built 6502 computers, Wendy and Michael, live in one repository: their emulator, their assembler, and the
chips of their boards as C models. This project states what the hardest of that code is for, as models in Dafny, and
proves it: for every input, every run and every reachable state.

Each component has a value for its state and functions that say what its operations do to it; theorems are lemmas about
those functions. Where the source changes things in place, a class does the same with arrays and fields, and each of
its methods is proved to leave the state that the function says. So a theorem about the functions is one about the
code's loops.

To check all of it: `dafny verify dfyconfig.toml`.

## What is modelled

**Michael's graphic display, from bus byte to browser pixel.** `Ili9341` is the panel: commands and data through MADCTL
windows into frame memory, and the scroll that shows it; `Ili9341Laws` says which word of the memory each pixel sent is,
and which pixel of the glass each word. `FpgaText` is the 20 by 20 character grid with its scroll region, cursor and
hardware-scroll offset. `FpgaTextCell` and `FpgaTextRender` draw the cells a cache says are stale and let the panel's
scroll do the rest. `FpgaTextLaws` says what the operations do cell by cell. `FpgaBus` parses the strobed transfers into
commands, and `FpgaBusDevice` does so in place; `FpgaBusReplies` is what a program reads back, and `FpgaBusPicture` what
its bytes put on the glass. The theorem that ties them: in every reachable state in text mode, a look at the glass shows
the grid, and the grid is the operations whose arguments arrived in full. `PixelCode` (and `PixelCodeLaws`),
`WebDisplay`, `WebDisplaySync` and `WebDisplayServer` take frame memory to a page in budgeted messages: the page
follows, within the budget, and no line waits for ever. `WebDisplayRoom` is how much room that takes. `WebGlass` puts
the two halves together: what the page draws is the grid.

**The two-pass assembler.** `PyasmExpression` and `PyasmPass` are what a line does in a pass; `PyasmPhases` proves
exactly when the passes agree on every address and mode; `PyasmPartings` has a small program for every condition that
rests on, where they part without it; `PyasmImage` is the image, and `PyasmOperand` what the CPU makes of it;
`PyasmStatements` is what values, data, labels and conditions mean; `PyasmAssembler` is the assembler as it runs.

**Audio.** `AudioRing` is the ring between the emulator and the audio thread, its two sides as atomic steps in any
interleaving, with 32-bit counters that wrap; `AudioResampler` averages PB7's level over each sample and filters it.

**Printers and parsers over wires.** `DirectIo` prints the ANSI that `Console` parses, `ConsoleLaws` is what each
sequence does in cells, and `ConsoleScreen` is that screen in place. `KeyReader` decodes keys from ANSI input and keeps
what it read too far. `SerialLink` times commands by the oscillator with what is left over of a tick carried on, and
`UartLine` frames bytes in them. `GalSpi` is a clocked burst engine.

**The CPU and the web server's arithmetic.** `CpuStack`, `CpuArithmetic` and `CpuCore`: calls, interrupts, ADC and SBC.
`Sha1` and `Base64`: the WebSocket handshake's hash and its encoding; `Sha1Laws` has the block function against RFC
3174. `WebSocket` receives, parses and unmasks what a client sends.

## Where the code and what is said of it differ

The models follow the code.

- `emulator/web_display.h:33-34` puts the most a rectangle can take at two bytes a pixel. It is three: a new colour pushes
  out the very colour the next pixel has. `WebDisplayRoom.RectMaxHolds` says for which sizes the stated bound holds, both
  ways, and `PixelCode.CycleTakesThree` has the pixels. So the room the encoder is said to need, the budget and that bound,
  is not enough for some page and memory, for every budget less than everything (`WebDisplayRoom.StatedRoomIsEnough`, both
  ways).
- `emulator/serial_link.h` says the oscillator does not pass a command's end in a bracket while none follows. It does if
  part of the next command has come by then: the run loop waits only for an empty buffer. `SerialLink.TickPassesDue` says
  exactly when, `SerialLink.NothingDrifts` that the timing is right exactly if that never happens, and
  `SerialLink.SplitIsLate` has a run.
- `emulator/console.c` keeps its parameters and cursor in ints. A move down or right whose sum is past 0x7FFFFFFF takes the
  cursor off the screen, on the usual wrap of an int: the test for the last row or column does not see it.
  `Console.StaysOnScreen` says exactly when it stays, `Console.LongMoveLeaves` has the bytes, and `Console.ShortNumbersFit`
  says that no stream without ten digits in a row does it.
- The assembler's list of forward references is matched by address alone. Within what `PyasmPhases.PassesAgree` takes of a
  program it says exactly when the passes agree. What it takes is enough, and `PyasmPartings` has for each condition a
  program that breaks it and parts; not every such program parts. A constant leaves the forward flag as the value before
  left it, so the absolute mode may be chosen where the zero page would do; the passes still agree.
- A WebSocket text of 8185 to 8192 bytes is within the cap that `emulator/web_server.c` sets, but its frame is not within
  the buffer: it is never delivered, and its client is closed (`WebSocket.LongTextCloses`).
- `emulator/audio.c` calls the filtered wave bounded roughly by 1. It is bounded by 1 exactly, so its samples never clip.

## Model

| member | source | states |
|---|---|---|
| Ili9341.GlassLineCycles | emulator/chips/ili9341.c:112-117 | in the scroll area the glass shows the memory lines in a cycle from the line VSCRSADD names; outside it, each line at its own row, whatever the registers hold |
| Ili9341.GlassShowsEachLineOnce | emulator/chips/ili9341.c:112-117 | no scroll setting shows a memory line twice, so none is lost |
| Ili9341.KeepsValid | emulator/chips/ili9341.c:36-106 | commands, data and the reset line keep the memory and the registers in their ranges |
| PanelLaws.FillsWindow | emulator/chips/ili9341.c:54-65 | pixels after RAMWR fill the window in order from its start, along its columns, then its pages, and round again, each where MADCTL puts it and in its colours; what is off the panel is lost; after RAMWRC they go on where they were: every word of the memory, for every window, MADCTL and number of pixels |
| PanelLaws.Switches | emulator/chips/ili9341.c:36-49 | which commands make the display show, and that none changes its memory |
| PanelLaws.Resets | emulator/chips/ili9341.c:10-34 | what a reset leaves, by its line or its command, and that in reset nothing is taken |
| PanelLaws.Registers | emulator/chips/ili9341.c:68-93 | the window, MADCTL, the scan and the scroll start are as the parameters say once they have all come, and nothing else changes |
| PanelLaws.ScrollSet | emulator/chips/ili9341.c:86-92 | a scroll area is taken exactly if its parts make up 320 lines |
| PanelLaws.GlassIsMemory | emulator/chips/ili9341.c:119-122 | the glass pixel as a word of the memory, mirrored by the scan and moved by the scroll; white when blank |
| Ili9341.Chip.DoWritePixel | emulator/chips/ili9341.c:54-65 | a pixel written where MADCTL puts the window, inside the memory only, and the window moved on |
| FpgaText.Screen.DoShiftRow | emulator/chips/fpga_text.c:39-55 | cells inserted or deleted at the cursor, in place, are the row that the cells from the cursor on and blanks make |
| FpgaText.Screen.MoveRows | emulator/chips/fpga_text.c:57-72 | the in-place row loop gives the old grid with its rows moved by n and blank ones coming in |
| FpgaText.Screen.DoScroll | emulator/chips/fpga_text.c:57-72 | the rows moved and, for the whole region, the hardware offset turned with them |
| FpgaText.Screen.DoPut | emulator/chips/fpga_text.c:81-96 | a character put into its cell in place, the cursor moving on to the next row after the last column and stopping past the last cell, and the three control codes |
| FpgaText.MovedRow | emulator/chips/fpga_text.c:57-72 | which old row each row holds after a move, or that it is blank |
| FpgaText.InsertThenDelete | emulator/chips/fpga_text.c:39-55 | deleting what was inserted gives the row back but for the cells pushed off its end |
| FpgaText.ScrollUpThenDown | emulator/chips/fpga_text.c:57-72 | scrolling up and down again gives the picture and the offset back, the rows scrolled off blank |
| FpgaText.TextFills | emulator/chips/fpga_text.c:81-96 | text put from the first cell on fills the grid in reading order, to its last cell, and scrolls nothing |
| TextLaws.GotoThenPut | emulator/chips/fpga_text.c:15-18 | after GOTO a, b a character shows at row a, or the last if that is past it, and column b, in the video set, and no other cell changes; past the last column none does |
| TextLaws.PutGoesOn | emulator/chips/fpga_text.c:81-87 | the character after it shows in the next column, or in the next row's first; after the last cell, nowhere |
| TextLaws.ControlsThenPut | emulator/chips/fpga_text.c:88-95 | where the next character shows after BS, LF and CR |
| TextLaws.ClearThenPut | emulator/chips/fpga_text.c:20-24 | CLEAR blanks every cell, and the next character shows at the top left |
| TextLaws.TextOnThenPut | emulator/chips/fpga_text.c:106-107 | TEXT_ON does that and resets the video, the cursor, the region and the scroll |
| TextLaws.ClearsToEnd | emulator/chips/fpga_text.c:112-112 | CLEAR_EOL blanks exactly the cursor's row from the cursor on |
| TextLaws.ShiftsAt | emulator/chips/fpga_text.c:39-53 | every cell of the picture after INSERT and DELETE |
| TextLaws.VideoThenPut | emulator/chips/fpga_text.c:122-122 | VIDEO is the video the next character shows in |
| TextLaws.ScrollMoves | emulator/chips/fpga_text.c:57-72 | every row after SCROLL_UP and SCROLL_DOWN: the region's moved, blank ones let in, the others as they were |
| TextLaws.RegionThenScroll | emulator/chips/fpga_text.c:27-35 | which rows move after REGION a, b, if it has two rows or more, and that it homes the cursor; of fewer, it does nothing |
| TextLaws.LinesAt | emulator/chips/fpga_text.c:74-79 | INSERT_LINES and DELETE_LINES move the rows from the cursor's to the region's end, if it is in the region, and go to its first column |
| TextLaws.NoCellsChange | emulator/chips/fpga_text.c:104-124 | CURSOR, TEXT_OFF and codes without an operation change no cell |
| TextCells.CellPixelMeaning | emulator/chips/fpga_text_render.c:46-57 | a cell's pixel is the glyph's bit, inverted for reverse video, and in the bottom two rows inverted under the cursor |
| TextCells.PaintStep | emulator/chips/fpga_text_render.c:46-57 | each pixel sent to a cell's window lands in the panel memory where that pixel of the cell belongs, through MADCTL MY, MV and BGR |
| TextCells.PaintedAt | emulator/chips/fpga_text_render.c:46-57 | a cell drawn holds its pixels, and every other cell is untouched |
| TextCells.WindowOpened | emulator/chips/fpga_text_render.c:46-57 | the address commands open exactly the cell's window |
| TextCells.ScrollSent | emulator/chips/fpga_text_render.c:39-43 | the scroll commands set the panel's scroll area and start for the region and offset |
| FpgaTextRender.GlassShowsGrid | emulator/chips/fpga_text_render.c:74-101 | after a draw every glass pixel of a panel that is showing is the grid cell's pixel |
| FpgaTextRender.GlassRow | emulator/chips/fpga_text_render.c:32-36 | memory_row is the inverse of the panel's glass_line: the row drawn in memory is the row the scroll shows |
| FpgaTextRender.DrawKeepsSynced | emulator/chips/fpga_text_render.c:74-101 | each entry of the cache is unknown or exactly what panel memory holds, before and after every draw |
| FpgaTextRender.DrawnBefore | emulator/chips/fpga_text_render.c:74-101 | a cell's entry is as it was until its turn, and then what the grid wants |
| FpgaTextRender.SendsStaleCells | emulator/chips/fpga_text_render.c:90-99 | a draw sends exactly the cells the cache says are stale |
| FpgaTextRender.DrawSettles | emulator/chips/fpga_text_render.c:74-101 | after a draw no cell is stale |
| FpgaTextRender.OpsScrollWholeRegion | emulator/chips/fpga_text.c:57-79 | scrolling, and inserting or deleting lines at the region's top, is a hardware scroll |
| FpgaTextRender.KeptRow | emulator/chips/fpga_text.c:57-72 | a row kept by a scroll is already drawn at its new memory row |
| FpgaTextRender.ScrollSendsFewCells | emulator/chips/fpga_text_render.c:90-99 | after a full draw, scrolling the region by n rows leaves at most 20 * n + 2 cells to send |
| FpgaTextRender.BlinkIsSteady | emulator/chips/fpga_text_render.c:60-72 | however often it is drawn, a still cursor blinks in steady half-periods |
| FpgaTextRender.BlinksFromMove | emulator/chips/fpga_text_render.c:60-72 | a cursor that moves, shows or goes is lit at once and blinks from then on, a quarter of a second lit and a quarter not |
| FpgaTextRender.InitSynced | emulator/chips/fpga_text_render.c:16-19 | a new renderer's cache claims nothing |
| FpgaTextRender.Renderer.DoCell | emulator/chips/fpga_text_render.c:90-99 | a stale cell drawn and remembered, in place |
| FpgaTextRender.Renderer.DoDraw | emulator/chips/fpga_text_render.c:74-101 | the whole draw in place, renderer and panel |
| FpgaBus.RunShowsGrid | emulator/chips/fpga_bus.c:183-187 | in every reachable state in text mode, a look at the glass shows the grid |
| FpgaBus.StepKeepsInv | emulator/chips/fpga_bus.c:100-175 | no transfer disturbs the renderer's cache in text mode |
| FpgaBus.WriteDataKeepsInv | emulator/chips/fpga_bus.c:113-135 | data never reaches the panel behind the renderer's back |
| FpgaBus.EndingTextModeFinishesPicture | emulator/chips/fpga_bus.c:52-67 | ending text mode, or resetting the panel from it, leaves the picture finished |
| FpgaBus.GridIsCompletedOps | emulator/chips/fpga_bus.c:100-135 | the grid is the operations whose arguments arrived in full, applied in order; abandoned commands have no effect |
| FpgaBus.CompletedExtends | emulator/chips/fpga_bus.c:113-135 | a data byte completes exactly the operation it is the last argument of |
| FpgaBus.RunParsed | emulator/chips/fpga_bus.c:137-175 | the command under way always waits for what its data leaves to come |
| FpgaBus.NetDataApart | emulator/chips/fpga_bus.c:84-98 | the network touches the replies, the status and its frames, nothing of the display |
| BusPicture.TypedText | emulator/chips/fpga_bus.c:113-135 | after any events, whatever command they left unfinished, the bus bytes of GOTO a, b and PUT of a code do that to the grid, and nothing else |
| BusPicture.TypedOnGlass | emulator/chips/fpga_bus.c:183-187 | and a look at the glass then has the character's glyph at that row and column, and the other cells as before |
| BusPicture.CursorShows | emulator/chips/fpga_text_render.c:46-57 | CURSOR shows or hides the cursor, in the bottom two rows of the cell GOTO names |
| BusPicture.TextModeIs | emulator/chips/fpga_bus.c:51-67 | after any events text mode is on exactly if, of the bus bytes of TEXT_ON, TEXT_OFF and DISP_RESET, the last were those of TEXT_ON |
| BusReplies.StrobesWrite | emulator/chips/fpga_bus.c:137-153 | a rising strobe with RW low is one byte written, command or data by RS; one with RW high writes nothing |
| BusReplies.TransfersCounted | emulator/chips/fpga_bus.c:142-143 | the transfers counted are the rises of E, in 32 bits |
| BusReplies.WriteTaken | emulator/chips/fpga_bus.c:137-174 | a write between reads takes no reply from the queue |
| BusReplies.RepliesInOrder | emulator/chips/fpga_bus.c:154-173 | n reads give the first n replies in order and take them from the queue |
| BusReplies.ReadsReply | emulator/chips/fpga_bus.c:154-173 | one read gives the first reply; with none, 0, and the status has underflow |
| BusReplies.ReadsStatus | emulator/chips/fpga_bus.c:157-159 | a status read has a bit for each thing that happened since the last, and clears them |
| BusReplies.Queued | emulator/chips/fpga_bus.c:46-49 | replies queued come after those there, as far as there is room, and what is dropped shows in the status |
| BusReplies.Identifies | emulator/chips/fpga_bus.c:56-56 | ID replies M, B, the version and the capabilities |
| BusReplies.Measures | emulator/chips/fpga_bus.c:59-59 | GEOMETRY replies rows and columns |
| BusReplies.Echoes | emulator/chips/fpga_bus.c:126-127 | ECHO replies its data |
| BusReplies.Resets | emulator/chips/fpga_bus.c:60-60 | RESET empties the queue and clears the status |
| BusReplies.CommandStatus | emulator/chips/fpga_bus.c:51-67 | which command abandons, and which is unknown, in text mode and out of it |
| BusReplies.OperationStatus | emulator/chips/fpga_bus.c:26-31 | which operations of text mode and the network are unknown |
| BusReplies.DataStatus | emulator/chips/fpga_bus.c:126-135 | which commands take data after their arguments, and after which it shows as extra |
| BusReplies.RawDisplay | emulator/chips/fpga_bus.c:107-111 | what a raw display command does to the panel, and that text mode refuses it |
| BusReplies.NetReads | emulator/chips/fpga_bus.c:75-98 | NET_READ queues the count's bytes after the header, a count of 0 being 256, and its frame's answers are checked |
| BusReplies.NetWrites | emulator/chips/fpga_bus.c:75-98 | NET_WRITE opens a frame with its header, checks the answers, and leaves it open |
| BusReplies.WriteSent | emulator/chips/fpga_bus.c:93-103 | data of a frame replies nothing, and a command ends the frame |
| FpgaBusDevice.Device.DoPushReply | emulator/chips/fpga_bus.c:46-49 | the reply ring takes a byte, or drops it and says so when full |
| PixelCode.CodeDecodes | emulator/web_display.c:45-73 | decoding by the documented format gives the pixels back, whatever follows, and leaves both ends remembering the same colours |
| PixelCode.CodePixels | emulator/web_display.c:45-73 | the runs chosen stand for the pixels: literals, long runs, swapped colours |
| PixelCode.RunsRead | emulator/web_display.h:17-27 | runs read back as sent, short and long counts alike |
| PixelCode.CodeFits | emulator/web_display.c:22-73 | at most three bytes a pixel |
| PixelCode.ColoursStayDistinct | emulator/web_display.c:45-73 | the two remembered colours stay distinct |
| PixelCode.CycleTakesThree | emulator/web_display.c:45-73 | three colours in turn take three bytes a pixel, so the bound is met |
| PixelCodeLaws.Remembered | emulator/web_display.h:20-25 | which two colours are remembered after each kind of run |
| PixelCodeLaws.FillIsOneRun | emulator/web_display.h:26-27 | a fill is one run |
| PixelCodeLaws.TwoColoursAreStretches | emulator/web_display.h:26-27 | pixels of the two remembered colours take a run a stretch, with no colour in it |
| PixelCodeLaws.NewAreLiteral | emulator/web_display.c:45-73 | pixels that are all new are one run of themselves |
| WebDisplay.MessageReads | emulator/web_display.h:17-27 | a message reads back as its rectangles, colours carried from one to the next |
| WebDisplay.PutRowsAt | emulator/web_display.c:89-106 | a rectangle put into a picture changes its part of its lines and nothing else |
| WebDisplaySync.PageHasShadow | emulator/web_display.c:108-138 | over any run of memories and budgets the page has the server's shadow on every line marked known |
| WebDisplaySync.PageFollows | emulator/web_display.c:108-138 | one message keeps the page and the shadow the same on known lines |
| WebDisplaySync.MessageCarriesMemory | emulator/web_display.c:108-138 | every rectangle sent carries the memory as it is |
| WebDisplaySync.SyncsReach | emulator/web_display.c:108-138 | a message brings up to date the lines before the first band it leaves, and changes no other line |
| WebDisplaySync.MessageFitsBudget | emulator/web_display.c:122-136 | a message is within the budget unless it is one rectangle, and stops only where the next would not fit |
| WebDisplaySync.EmptyWhenSynced | emulator/web_display.c:137-138 | there is nothing to send exactly when the page has everything |
| WebDisplaySync.MessageSyncsSome | emulator/web_display.c:108-138 | with the memory still, each message strictly lowers the number of stale lines |
| WebDisplaySync.StillMemoryConverges | emulator/web_display.c:108-138 | as many messages as stale lines bring the page up to date |
| WebDisplaySync.NoLineStarves | emulator/web_display.c:108-138 | line j from where a message starts is up to date after one of the next j + 1, however the others change |
| WebDisplaySync.EveryLineWithin320 | emulator/web_display.c:108-138 | within 320 messages every line has been up to date |
| WebDisplayRoom.RectMaxHolds | emulator/web_display.h:33-34 | the stated most a rectangle can take holds of all rectangles of n pixels if and only if 5 + 3 * n is within it |
| WebDisplayRoom.RoomTaken | emulator/web_display.c:108-138 | while it encodes, the buffer has at most one rectangle of three bytes a pixel past the budget, or past the first rectangle |
| WebDisplayRoom.FilledFits | emulator/web_display.c:108-138 | and never more than 21 rectangles and three bytes for every pixel of the display |
| WebDisplayRoom.StatedRoomIsEnough | emulator/web_display.h:43-47 | the room said to be needed, the budget and RECT_MAX, is enough for every page and memory if and only if it is room for everything there could be to send |
| WebDisplayRoom.RoomExceeded | emulator/web_display.c:122-136 | for every smaller budget, a page and a memory that take more |
| WebGlass.PageLineIsGlassLine | emulator/web/board.js:223-230 | the line a page draws at a row is the one the panel shows there |
| WebGlass.PageHasMemory | emulator/web_display.c:108-138 | once the memory keeps still, as many messages as the page lacks lines make its picture the memory |
| WebGlass.PageShowsGrid | emulator/web/board.js:233-249 | from bus byte to browser pixel: in text mode, after a look at the glass and with the memory still for as many messages as the page lacks lines, every pixel the page draws is the grid's |
| WebDisplayServer.Writer.PutPixels | emulator/web_display.c:45-73 | the coder's loop appends exactly the code of the pixels |
| WebDisplayServer.Writer.PutRect | emulator/web_display.c:89-97 | a rectangle's header and code |
| WebDisplayServer.PageShadow.Changed | emulator/web_display.c:76-86 | whether and between which pixels a line differs from what the page has |
| WebDisplayServer.PageShadow.ShadowRect | emulator/web_display.c:100-106 | the shadow takes the rectangle, its lines known |
| WebDisplayServer.PageShadow.SendMessage | emulator/web_display.c:108-138 | the encoder's loop gives the message and the shadow of the specification, and takes the room it says |
| PyasmExpression.PlainValue | asm/pyasm.py:752-868 | with no unknown label under a selector after an operator, an operand is flagged forward, or is the same in both passes, or a byte in both |
| PyasmExpression.KnownValue | asm/pyasm.py:770-868 | a value of known labels reads the same in both passes |
| PyasmExpression.ValueFails | asm/pyasm.py:679-741 | where the first pass reads a value the second fails only for want of a label |
| PyasmExpression.SelectorsSplit | asm/pyasm.py:752-768 | the two selectors split a word into the bytes that make it |
| PyasmExpression.SumsUndone | asm/pyasm.py:770-850 | addition and subtraction undo each other in sixteen bits |
| PyasmExpression.ShiftsUndone | asm/pyasm.py:770-850 | a left shift in range multiplies by the power of two, and the right shift undoes it |
| PyasmExpression.ShiftsOut | asm/pyasm.py:787-805 | a shift of sixteen or more leaves nothing; one of fewer multiplies by the power of two in sixteen bits, or divides by it |
| PyasmPhases.PassesAgree | asm/pyasm.py:420-1050 | for a program whose code address never falls or passes $FFFF, the second pass is at every line where the first was, if and only if every line before is settled: its address-setting value is the same, or its mode decided alike |
| PyasmPhases.PlainPassesAgree | asm/pyasm.py:420-1050 | and for a plain program every line is settled: the passes agree on address, segment, conditions, scope and the mode of every instruction |
| PyasmPhases.PlainPassFailsLate | asm/pyasm.py:420-1191 | the second pass of a plain program rejects nothing the first took but for a missing label or a value or branch out of range |
| PyasmPhases.StepAgree | asm/pyasm.py:472-530 | one line keeps the passes together exactly when it is settled |
| PyasmPhases.ChosenAgree | asm/pyasm.py:1011-1050 | the head of the list is met exactly where its forward reference was listed |
| PyasmPhases.PassExtends | asm/pyasm.py:1011-1013 | the references still to come are at or past the code address |
| PyasmPhases.IfdefAgree | asm/pyasm.py:1348-1379 | the second pass replays the first's decision |
| PyasmPartings.SelectorParts | asm/pyasm.py:752-768 | without it: $F0+<later takes another mode in the second pass |
| PyasmPartings.ReserveParts | asm/pyasm.py:1275-1281 | without it: .reserve of a label to come is 0 in the first pass |
| PyasmPartings.SetPcParts | asm/pyasm.py:872-888 | without it: an address from a label to come differs |
| PyasmPartings.BeforeStartParts | asm/pyasm.py:982-993 | without it: an instruction before the address is set is taken for a later forward reference |
| PyasmPartings.ZeropageParts | asm/pyasm.py:1236-1248 | without it: an instruction in .zeropage is taken for one in the code |
| PyasmPartings.EndParts | asm/pyasm.py:429-429 | without it: an instruction at $FFFF meets the list's terminator |
| PyasmImage.ImageLength | asm/pyasm.py:970-1007 | the output is as long as from the origin to the last code address |
| PyasmImage.LabelInImage | asm/pyasm.py:940-966 | a code label's line puts out its bytes at the label less the origin |
| PyasmImage.InstructionInImage | asm/pyasm.py:1159-1191 | at every instruction's address the image has its opcode and an operand the CPU decodes to the value written |
| PyasmImage.PutInstructionEncodes | asm/pyasm.py:1159-1191 | the bytes put out for a mode and value are that opcode and an operand decoded back to the value |
| PyasmImage.BranchLands | emulator/cpu_core.c:181-184 | a branch in range, its offset sign-extended and added to the address after it, lands on its target |
| PyasmOperand.OperandMeans | asm/pyasm.py:1077-1191 | at every instruction of the image its bytes are ones from which the CPU (emulator/cpu_core.c:159-262) forms exactly what the operand says, by its shape, index and value: a number, a branch's target, a cell at an address indexed, or through a pointer; for any registers, memory and program |
| PyasmOperand.ZeroPageIndexWraps | emulator/cpu_core.c:173-180 | in a zero-page mode, the cell is the one written if and only if the index does not pass the end of the page |
| PyasmStatements.ValueReads | asm/pyasm.py:770-868 | a value is its terms under its operators from the left, known labels as they are and others 0, then the selector |
| PyasmStatements.ShortIfItFits | asm/pyasm.py:1030-1050 | the first pass takes the zero-page mode exactly where there is one, the value fits and nothing in it is to come |
| PyasmStatements.DataLaid | asm/pyasm.py:1283-1322 | .byte, .word and .asciiz lay their items in order: characters, a byte, or two with the low one first, and the zero after |
| PyasmStatements.ZerosLaid | asm/pyasm.py:1275-1281 | .reserve and setting the address forwards lay that many zeros |
| PyasmStatements.AssignedIs | asm/pyasm.py:890-938 | a name given a value has that value |
| PyasmStatements.LocalBelongs | asm/pyasm.py:940-966 | a label is the address, and a local one belongs to the global one before it |
| PyasmStatements.UnknownSkips | asm/pyasm.py:1394-1428 | .ifdef of an unknown name, any nested lines and its .endif leave nothing but the decision |
| PyasmStatements.KnownTakes | asm/pyasm.py:1348-1379 | .ifdef of a known name leaves its lines in |
| PyasmStatements.FlagReads | asm/pyasm.py:679-868 | a value is taken to refer forward exactly if it has no selector and the flag was set at one of its terms: by a label to come, or by the value before where only constants follow |
| PyasmStatements.FlagGoesOn | asm/pyasm.py:679-868 | the flag goes on from value to value across lines |
| PyasmStatements.InstructionFails | asm/pyasm.py:1159-1191 | an instruction is rejected exactly for a mode it does not have, a branch or byte out of range, or an index after a branch, each with its error |
| PyasmStatements.DataFails | asm/pyasm.py:1283-1322 | a data line is rejected in the second pass exactly for an unknown label or a byte past its range |
| PyasmStatements.LabelFails | asm/pyasm.py:890-966 | a label is rejected exactly if it is defined already, or is local before any global one |
| PyasmStatements.SetPcFails | asm/pyasm.py:982-993 | the address is rejected exactly if it is set backwards |
| PyasmStatements.ConditionFails | asm/pyasm.py:1348-1392 | the errors of .ifdef and .endif |
| PyasmStatements.ZeropageRoom | asm/pyasm.py:1250-1281 | what .byte, .word, .asciiz and .reserve do in the zero page, and when they do not fit |
| PyasmAssembler.Assembler.ParseExpression | asm/pyasm.py:770-850 | the expression loop reads the value and the forward flag of the specification |
| PyasmAssembler.Assembler.AdvancePcTo | asm/pyasm.py:995-1007 | the address moved on, filling with zeros in the second pass |
| PyasmAssembler.Assembler.DataParameters | asm/pyasm.py:1283-1322 | data items in order, with the byte range checked in the second pass |
| PyasmAssembler.Assembler.Run | asm/pyasm.py:420-443 | both passes: the image, or the first error |
| AudioRing.PopsWhatWasAccepted | emulator/audio.c:37-59 | in every interleaving the samples popped are a prefix of those accepted, the 32-bit counters that far apart and never more than the ring holds |
| AudioRing.NoSlotWrittenWhileCopied | emulator/audio.c:37-59 | no slot is written while it is still to be copied |
| AudioRing.FullAndEmpty | emulator/audio.c:37-59 | a push is dropped exactly when the ring was full as it began; a pop takes what there was, up to what was asked |
| AudioRing.PushesAccounted | emulator/audio.c:37-46 | every push that began was accepted, or dropped and counted, or is under way, in every interleaving |
| AudioRing.PushFinishes | emulator/audio.c:37-46 | its steps end a push: its sample accepted, or dropped if the ring was full |
| AudioRing.RunKeepsInv | emulator/audio.c:37-59 | what every atomic step keeps |
| AudioRing.SlotOfCount | emulator/audio.c:44-55 | the capacity divides the counters' range, so wrapping moves no slot |
| AudioRing.LiveRing.RbPush | emulator/audio.c:37-46 | a push as its atomic steps |
| AudioRing.LiveRing.RbPopInto | emulator/audio.c:48-59 | the oldest samples in order, and the tail moved past them |
| AudioRing.LiveRing.Callback | emulator/audio.c:61-72 | the samples there are, then silence |
| AudioResampler.NothingLost | emulator/audio.c:198-251 | samples = whole periods of the time; means times the period, and what is left, are the time PB7 was high; no sample reaches the ends of its range |
| AudioResampler.TimeElapses | emulator/audio.c:240-247 | the time and the high time are those of the readings, however often the 64-bit tick counter wraps |
| AudioResampler.HighPassBounds | emulator/audio.c:204-207 | the high-pass output lies in [-1, 1], by staying at most 1 below its input |
| AudioResampler.SamplesAreWave | emulator/audio.c:198-229 | for every run, sample n is 16384 times y_n without its fraction, y_n the sum over j <= n of alpha to the n - j + 1 times the change from average j - 1 to j, with 0 before the first |
| AudioResampler.HeldDecays | emulator/audio.c:204-207 | while the level is held y decays by a power of alpha |
| AudioResampler.SilenceIsSilent | emulator/audio.c:204-212 | averages of 0 from the start give samples of 0 |
| AudioResampler.StepResponse | emulator/audio.c:204-207 | y after a step of the level from 0 is alpha to the samples since |
| AudioResampler.DrainedAccounted | emulator/audio.c:247-250 | each sample emitted keeps the account |
| AudioResampler.Resampler.AudioStep | emulator/audio.c:240-251 | a step in place: time and level added, and samples while a period is full |
| DirectIo.CallsDo | emulator/direct_io.c:21-45 | every cell, the cursor, the margins and the video, after the console has read what is printed for any screen call with any arguments, are what the call says of the screen before |
| DirectIo.CallsRead | emulator/direct_io.c:21-45 | what is printed for any screen call with any arguments, read in the ground state, does exactly that call and returns to ground, on a screen of any rows and columns up to 65535 |
| DirectIo.PrintedFits | emulator/direct_io.c:21-45 | a sequence fits its buffer |
| Console.DecimalRead | emulator/console.c:733-737 | a number in decimal is read as itself, if an int holds it |
| DirectIo.Print | emulator/direct_io.c:8-12 | the digits printed one by one are the number's |
| Console.StaysOnScreen | emulator/console.c:532-760 | for every byte stream the cursor and the margins stay on the screen if and only if no move down or right gets past what a 32-bit int holds |
| Console.ByteKeepsValid | emulator/console.c:545-592 | for every screen and sequence: row + n for B and E and col + n for C at most 0x7FFFFFFF, or the cursor is off the screen |
| Console.ShortNumbersFit | emulator/console.c:733-737 | so no stream without ten digits in a row takes it off |
| Console.LongMoveLeaves | emulator/console.c:552-557 | and ESC [ 2147483647 B does, from any row but the first |
| Console.FedJoined | emulator/console.c:689-760 | a stream in two pieces is the stream |
| Console.LineWritten | emulator/console.c:305-352 | characters the row has room for appear one after another, and nothing else changes |
| Console.RowMovesUndone | emulator/console.c:548-590 | a move up or down that meets no edge is undone by its opposite |
| Console.ColumnMovesUndone | emulator/console.c:548-590 | so is one left or right; a column set to where the cursor is changes nothing |
| ConsoleLaws.Erases | emulator/console.c:603-610 | J and K: each cell is erased or not by where it is from the cursor |
| ConsoleLaws.Moves | emulator/console.c:545-602 | where A to H put the cursor, at most at the edge |
| ConsoleLaws.ZeroIsOne | emulator/console.c:545-602 | a parameter of 0 counts as 1 |
| ConsoleLaws.SequenceRead | emulator/console.c:726-759 | a sequence with any parameters in decimal, some left out, is handled with the first eight of them, one left out as 0 |
| ConsoleLaws.Controls | emulator/console.c:695-720 | where CR, BS and a tab go |
| ConsoleLaws.LineFeeds | emulator/console.c:699-709 | LF goes down a row, or from the bottom margin scrolls the rows between the margins |
| ConsoleLaws.Characters | emulator/console.c:305-351 | a character goes into the cursor's cell alone; where the cursor goes after it |
| ConsoleLaws.Video | emulator/console.c:671-683 | the video is what the last of a sequence's parameters that is 0, 7 or 27 says |
| ConsoleLaws.OthersIgnored | emulator/console.c:532-536 | a private sequence, or one with another last letter, does nothing |
| KeyReader.KeysAreTyped | emulator/direct_io.c:57-118 | keys typed with a pause before each are read as those keys, whichever of their sequences they send; any other CSI sequence is drained through its final byte and is no key |
| KeyReader.EscapeOTyped | emulator/direct_io.c:95-118 | Escape, O and another character with no pause are those three keys, but for O and P to S |
| KeyReader.EscapeTyped | emulator/direct_io.c:105-118 | and so are Escape and any other character but [ |
| KeyReader.KeyStaysShallow | emulator/direct_io.c:57-118 | reading a key, from any input, never has more than two bytes kept |
| KeyReader.Decoder.Eat | emulator/direct_io.c:68-71 | an unknown sequence drained through its last byte, or the end of input |
| KeyReader.Decoder.ReadKey | emulator/direct_io.c:95-118 | a key, with the bytes kept in an array of two |
| ConsoleScreen.Emulation.ClearScreen | emulator/console.c:149-196 | the part of the screen erased, in place |
| ConsoleScreen.Emulation.MoveRows | emulator/console.c:198-267 | rows moved one after another hold what each row is to hold |
| ConsoleScreen.Emulation.ScrollRegion | emulator/console.c:198-267 | a region scrolled, or blanked by more lines than it has |
| ConsoleScreen.Emulation.ShiftChars | emulator/console.c:271-299 | characters inserted or deleted at the cursor |
| ConsoleScreen.Emulation.HandleByte | emulator/console.c:689-760 | a byte in place, its arithmetic wrapping as an int does: screen and parser, and whether the cursor is still on the screen |
| CpuStack.NodeReturns | emulator/cpu_core.c:433-448 | any nesting of subroutines, BRK, IRQ, NMI and pushes that fits the 256-byte stack, the pointer wrapping or not, returns each to its own pc and sp and, for interrupts, to its status up to B and the constant bit |
| CpuStack.AllReturn | emulator/cpu_core.c:115-134 | and leaves every live byte as it was |
| CpuStack.KeptByte | emulator/cpu_core.c:649-662 | a byte pushed is pulled again, whatever was nested between |
| CpuStack.Entered | emulator/cpu_core.c:433-448 | a subroutine or handler starts at its address; a handler with interrupts off, for BRK on a 65C02 in binary, and every other flag as it was |
| CpuStack.Interrupts | emulator/cpu_core.c:433-448 | the three bytes an interrupt saves, the address and the status, with B for BRK alone |
| CpuStack.UnwoundAround | emulator/cpu_core.c:115-134 | the bytes under a frame are what they were before it |
| CpuArithmetic.ChainAdds | emulator/cpu_core.c:284-347 | ADCs low to high are one addition with carry in and out, binary or decimal, on both CPUs |
| CpuArithmetic.ChainSubtracts | emulator/cpu_core.c:707-734 | SBCs low to high are one subtraction, the carry clear where it borrows |
| CpuArithmetic.ChainUndone | emulator/cpu_core.c:851-883 | an SBC chain undoes an ADC chain byte for byte |
| CpuArithmetic.ChainOverflows | emulator/cpu_core.c:306-314 | after a binary chain V tells whether the signed sum is past its width |
| CpuArithmetic.AdcFlags | emulator/cpu_core.c:284-347 | for every A, operand and status, on both CPUs: Z and N are the result's, but in decimal on an NMOS CPU those of the binary sum; V is whether the signed sum is past a byte; D, I and the rest stay |
| CpuArithmetic.SbcFlags | emulator/cpu_core.c:707-734 | the same of SBC, the operand complemented |
| CpuCore.Core.DoPush16 | emulator/cpu_core.c:115-119 | two bytes pushed, the page wrapping |
| CpuCore.Core.DoPull16 | emulator/cpu_core.c:125-130 | two bytes pulled |
| Sha1.PiecesHashAsOne | emulator/web_server.c:53-63 | hashing a message in any pieces is hashing it whole: the padded message of RFC 3174 folded block by block |
| Sha1.FinishedIsDigest | emulator/web_server.c:64-79 | the padding loop and the length make the padded message |
| Sha1.UpdatesJoin | emulator/web_server.c:53-63 | two updates are one with both pieces |
| Sha1Laws.MethodsAgree | emulator/web_server.c:28-46 | the words after eighty rounds, made by the second method of section 6.2 of RFC 3174 with sixteen words in a ring, are added to the hash |
| Sha1Laws.ShiftsRound | emulator/web_server.c:26-26 | the rotations by 1, 5 and 30 move each bit round the word |
| Sha1Laws.FunctionsOf | emulator/web_server.c:38-41 | the three functions of section 5 of RFC 3174, in their rounds |
| Sha1Laws.ChoiceChooses | emulator/web_server.c:38-38 | the first chooses between two words, bit by bit |
| Sha1Laws.MostIsMajority | emulator/web_server.c:40-40 | the third is the majority, bit by bit |
| Sha1Laws.ConstantsAreRoots | emulator/web_server.c:38-41 | the constants are 2^30 times the square roots of 2, 3, 5 and 10, without their fractions |
| Sha1Laws.StartsFromDigits | emulator/web_server.c:48-52 | the five words a hash starts from, byte by byte |
| Sha1Laws.LengthReads | emulator/web_server.c:70-72 | the eight bytes of the length are its digits in base 256, the highest first |
| Sha1.Hasher.HashBlock | emulator/web_server.c:28-46 | a block hashed in place |
| Sha1.Hasher.Update | emulator/web_server.c:53-63 | bytes copied in, and full blocks hashed, in place |
| Sha1.Hasher.PadZeros | emulator/web_server.c:64-72 | zeros one at a time until the length fits, which ends |
| Base64.EncodedIsDecoded | emulator/web_server.c:82-103 | a decoder by section 4 of RFC 4648 undoes the encoder at every length |
| Base64.EncodedLength | emulator/web_server.c:82-103 | four characters for every three bytes begun |
| Base64.Encode | emulator/web_server.c:82-103 | the encoder's loop |
| WebSocket.MessageComesThrough | emulator/web_server.c:451-492 | a client's text frame is parsed as its text, whatever its mask and whatever follows it, pings and pongs are passed over with their length, and any other frame is refused |
| WebSocket.UnmaskedRefused | emulator/web_server.c:463-468 | a frame without a mask, or with a length of eight bytes, is refused |
| WebSocket.PartIsMore | emulator/web_server.c:451-492 | until the last of a frame's bytes has come, there is more to wait for |
| WebSocket.TextsComeThrough | emulator/web_server.c:648-685 | however a client's bytes are cut up as they are received, its texts come through in order, whatever pings and pongs are between, and all of them once all its bytes have, if their frames are within the buffer |
| WebSocket.RefusedCloses | emulator/web_server.c:673-685 | a refused frame closes the client, the texts before it kept |
| WebSocket.FrameFits | emulator/web_server.c:111-111 | a frame is within the buffer if and only if its payload is at most 8184 bytes |
| WebSocket.LongTextCloses | emulator/web_server.c:648-651 | of a longer text nothing comes through: the buffer fills with part of its frame, and then the client is closed |
| WebSocket.Client.Unmask | emulator/web_server.c:471-474 | the payload unmasked in place, nothing else changed |
| WebSocket.Client.ParseFrame | emulator/web_server.c:451-492 | a frame, its text unmasked where it lies and what follows it untouched; while there is more to come the buffer stays as it is |
| WebSocket.Client.ReadFrom | emulator/web_server.c:648-685 | bytes received, and the loop that takes every whole frame and moves what follows it to the front |
| GalSpi.RunIsRight | emulator/chips/gal_spi.c:8-22 | in every run without reset each burst is eight pulses that send the loaded byte, most significant bit first; pulses = 8 * finished bursts + progress; in the cycle a burst ends its eight answers are in order in the shift register |
| GalSpi.DrivesAnswers | emulator/chips/gal_spi.c:41-45 | what it drives onto the port, whenever it does, is the eight answers of the last burst |
| GalSpi.StrobeExchanges | emulator/chips/gal_spi.c:8-22 | in every run, a strobe that comes when it is idle and is held for nine cycles or more sends exactly the byte then on the port, and drives the device's eight answers from the ninth on |
| GalSpi.BurstRuns | emulator/chips/gal_spi.c:13-18 | a burst's pulses are consecutive |
| GalSpi.StrobeInBurst | emulator/chips/gal_spi.c:13-18 | a strobe during a burst starts nothing |
| SerialLink.NothingDrifts | emulator/serial_link.c:206-354 | in a bracket, in whatever pieces its bytes come, each command takes effect at floor(rate * the time before it + what was left over) if and only if the oscillator never moves on with only part of a command that is due |
| SerialLink.TickPassesDue | emulator/serial_link.c:335-344 | a tick takes the oscillator past the next command's due tick if and only if, at that tick and after the poll, the buffer has part of that command and not all |
| SerialLink.TornIsLate | emulator/serial_link.c:335-344 | that command is then late whenever the rest of it comes |
| SerialLink.SplitIsLate | emulator/serial_link.c:335-344 | a command of which nothing has come by its due tick takes effect then; with one to eight of its nine bytes there it is a tick late |
| SerialLink.RunKeepsOnTime | emulator/emu_wendy2c.c:264-276 | what servicing the link and stepping the oscillator keep, over any run |
| SerialLink.PollCatches | emulator/serial_link.c:311-333 | a poll applies all that has come and is due |
| SerialLink.NextParsed | emulator/serial_link.c:226-252 | a buffer of a client's bytes begins with its next command, or has part of it |
| SerialLink.CommandParsed | emulator/serial_link.c:226-252 | a command is parsed as the client packs it |
| SerialLink.RunDrives | emulator/serial_link.c:254-308 | after any run the line's level is that of the last LOW or HIGH in effect, the reset line's that of the last reset command, and a bracket is open if TX_START was the last of its two |
| SerialLink.UnknownDrops | emulator/serial_link.c:226-308 | a byte that is no opcode drops the client: nothing it sent after has any effect, and the oscillator does not wait for it |
| SerialLink.Device.Poll | emulator/serial_link.c:311-333 | the command loop in place, on a buffer of 4096 bytes that takes what it has room for |
| UartLine.BytesRecovered | emulator/wendy2c_emu_link.py:197-231 | for at least two ticks a bit, and no tick passed with part of a due command, a receiver that samples the line's level, as the run has it, in the middle of each bit finds every byte sent, in any framing and however the queue cuts it up |
| UartLine.Sampled | emulator/wendy2c_emu_link.py:214-231 | at a bit's middle tick the run's line is at the bit's level |
| UartLine.LevelAtCentre | emulator/serial_link.c:254-308 | at any tick the run's line is at the level of the command in effect then |
| UartLine.FramesReceived | emulator/wendy2c_emu_link.py:197-231 | framing is undone, either bit order, five to eight data bits |
| UartLine.Sender.SendUartByte | emulator/wendy2c_emu_link.py:197-231 | the loop queues the commands of the byte's frame, flushing or not |

The methods of the classes that have neither a loop nor a buffer to prove are not in the table; each leaves the state its
function says.

## Left out

- Sockets, files, terminals, clocks and signals. Time comes in as a parameter; what a socket brings is an argument.
- The glyph table: the font is a parameter, any function from a code and a column to sixteen bits.
- The network device behind the bus: its answers are an arbitrary stream of bytes. The bus's port B output and its
  interlock, the log and the reports.
- The panel's commands that change nothing it shows. `ili9341_showing` is a condition of the glass theorems.
- The bus's and the renderer's registers are grouped in records; a cell's code and its reverse bit are one value. Times
  in microseconds do not wrap.
- The web display's output buffer is a sequence of any length; forgetting a page is a new shadow.
- The assembler's text: lines, values and data items come parsed, so syntax errors, character tables, include files and
  macros are not here. An instruction's modes are any table from modes to opcodes, and every instruction is known.
- PyasmPhases.PassesAgree: takes the first pass's code address never to fall or pass $FFFF, and instructions with a
  zero-page mode to stand in the code after the address is set. `PyasmPartings` shows that the passes part without; that
  every program that breaks these parts them is not so.
- Audio: rounding of doubles (they are reals), C memory ordering (each atomic access is one step, a side's own counter
  read with the other's), the WAV file and the device. A sampler not yet enabled.
- The console's resizing, its repaint highlights, the cursor report it answers, and what its code does once the cursor is
  off the screen: `Console.Fed` ends there. Screens are of at most 65535 rows and columns, as a terminal's window size
  says; cells are found by row and column, not by the product the code computes.
- Direct I/O's key input is a list of bytes, each known to come soon after the one before it or not.
- WebSocket frames sent (text, audio, the pong to a ping), HTTP, and a client that closes its end.
- The CPU's dispatch and cycle counts; what runs between calls is any work that leaves the stack pointer and the live bytes
  alone. ADC and SBC take their operand as an argument. The addressing modes are those the assembler writes
  (`PyasmOperand`), not the 65C02's others.
- The serial link's accepting and dropping of clients, but for an unknown opcode. A PING's answer. Its times are exact:
  nanoseconds times the rate and what is left over are reals, where the code has doubles, and ticks do not wrap at 64
  bits; "nothing drifts" is of that arithmetic.
- The SPI interface's reset, and the device on its other side: the answers are inputs.
- SHA-1 on messages of 2^61 bytes or more is as the code has it, its length wrapping.
