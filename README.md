# Terminal character handlers of the SSH client plugin

This project models the byte interpreter of the SSH protocol plugin's
terminal emulator, `protocols/ssh/src/terminal_handlers.c`. The decoded
output of the remote shell reaches the terminal one byte at a time. The
terminal's current character handler receives each byte:

- `echo` handles Normal mode. It acts on the C0 controls BEL, BS, CR
  and LF, and on ESC. It writes every other byte to the grid, wrapping
  at the right edge and scrolling at the bottom of the scroll region.
- `escape` handles the byte after ESC. It selects the next handler:
  `(` selects `charset`, `]` selects `osc` and `[` selects `csi`. It
  logs any other byte and goes back to `echo`.
- `charset` takes one byte and ignores it.
- `osc` discards an operating system command up to a terminator.
- `csi` gathers the parameters of a control sequence (section 5.4 of
  ECMA-48). It keeps them in function-local `static` storage: a count, a
  16-entry array and a 256-byte digit buffer. On the final byte it runs
  one of the commands CUU, CUD, CUF, CUB, SGR, DECSTBM, CUP, CHA, VPA,
  ED, EL, IL, DL, DCH or ICH. It then clears the parameters and returns
  to `echo`.

The project has six modules:

- `Bytes` models the stream's bytes and what `atoi` makes of a digit
  buffer.
- `Trace` records the calls into the grid (`GridOp`) and into the log
  (`LogEntry`). Their effect on the screen lives in `terminal.c`, which
  is not part of this model.
- `Attributes` models character attributes and SELECT GRAPHIC RENDITION.
- `Handlers` is the interpreter as functions on a `State` value: one
  function per handler and per command, plus `Step` and `Run`.
- `Terminal` holds the class `Terminal`. Its fields are updated in
  place, and the CSI accumulator is kept in two arrays. Each handler and
  command method is proved to move `Abstract()` exactly where the
  `Handlers` function of the same name takes it, with two exceptions:
  - `DeleteChars` and `InsertChars` follow `Handlers.DeleteCharsAsWritten`
    and `Handlers.InsertCharsAsWritten`, which model the C code.
  - The helpers `EffectiveColors` and `ApplyRendition` compute values in
    place. They are proved equal to `Attributes.Effective` and
    `Attributes.Rendition`.

  `Feed` is a loop over a buffer and is proved equal to `Handlers.Run`.
- `Sequences` states what whole streams do: complete control sequences
  against a reference reading of their parameter text, escapes,
  operating system commands, wrapping, and some concrete sequences.

The model keeps several behaviours of the code that a reader might not
expect:

- **No range checks on absolute positions.** Nothing keeps the cursor or
  the scroll region on screen:
  - DECSTBM takes its parameters unchecked (lines 329-333). A bare
    `ESC [ r` sets both margins to -1 (`Sequences.BareScrollRegion`).
  - CUP, CHA and VPA do not clamp (lines 335-355).
- **One-sided clamps.** Each relative motion clamps on one side only (lines 204-258):
  - Up and left stop at 0.
  - Down and right stop at the last row and column.

  A cursor that is already off screen can therefore stay off screen.
  `Handlers.RelativeMotionStaysOnScreen` proves that a cursor on screen
  stays on screen.
- **Reset at the end of a sequence.** The parameters are reset only when
  a sequence ends, not when one starts (lines 482-493).
  `Handlers.StepKeepsInvariant` shows that outside a sequence the
  accumulator is always empty anyway.
- **Digits kept after 16 parameters.** The digit buffer is cleared at
  `;` only while fewer than 16 parameters are stored (lines 190-199).
  After that, digits pile up (`Sequences.RunFull`).
- **SGR 27 clears reverse video only.** The SGR chain tests 27 twice
  (lines 314-319). The second test, meant to clear bold, can never be
  reached (`Attributes.Rendition`).
- **DCH and ICH as written.** The state machine runs DCH and ICH as the
  code writes them, including the clears described under "## Findings".
  The corrected definitions beside them state what was evidently
  intended.

## Model

| member | source | states |
|---|---|---|
| Bytes.DigitValue | protocols/ssh/src/terminal_handlers.c:176 | an ASCII digit's value is its distance from '0', at most 9 |
| Bytes.DecimalValue | protocols/ssh/src/terminal_handlers.c:193-194 | `atoi` of the digit buffer: an empty buffer reads as 0, a single digit as its value |
| Bytes.DecimalValueBound | protocols/ssh/src/terminal_handlers.c:179-194 | a parameter of k digits is below 10^k |
| Bytes.LeadingZero | protocols/ssh/src/terminal_handlers.c:194 | a leading zero does not change a parameter's value |
| Bytes.Digits | protocols/ssh/src/terminal_handlers.c:176-194 | the decimal digits of n are non-empty, all digits, and read back as n (the inverse of DecimalValue) |
| Attributes.Effective | protocols/ssh/src/terminal_handlers.c:102-111 | under reverse video the colours are exchanged; bold then brightens a base foreground 0-7 by 8; palette colours stay palette colours; without reverse or bold the colours are unchanged |
| Attributes.Rendition | protocols/ssh/src/terminal_handlers.c:268-323 | the effect of each handled SGR value (0, 1, 4, 7, 27, 30-37, 38, 39, 40-47, 49); an unhandled value changes nothing; which values can change bold, reverse, underscore, foreground and background |
| Attributes.Renditions | protocols/ssh/src/terminal_handlers.c:266-325 | a sequence of only unhandled values changes nothing; without a 0, bold once set stays set; without 0, 4, 38 or 39, underscore is unchanged |
| Attributes.RenditionLog | protocols/ssh/src/terminal_handlers.c:321-323 | a single value is logged exactly when it is unhandled, at most one entry per value, none when every value is handled, and each entry names an unhandled value; with RenditionLogConcat this fixes the whole log |
| Attributes.RenditionsKeepPalette | protocols/ssh/src/terminal_handlers.c:283-307 | with palette defaults, SGR keeps both current colours palette indices (0-15): it stores only `v - 30`, `v - 40` or a default |
| Attributes.RenditionsConcat | protocols/ssh/src/terminal_handlers.c:266-325 | applying two SGR parameter lists one after the other is applying their concatenation |
| Attributes.ResetDiscardsEarlier | protocols/ssh/src/terminal_handlers.c:271-272 | a 0 anywhere in the list discards every value before it |
| Attributes.RenditionLogConcat | protocols/ssh/src/terminal_handlers.c:321-323 | the unhandled values of two lists are logged as the two logs joined |
| Handlers.Initial | protocols/ssh/src/terminal_handlers.c:164-169 | a fresh session is in Normal mode with an empty accumulator and satisfies the invariant |
| Handlers.ScrollIntoRegion | protocols/ssh/src/terminal_handlers.c:93-100 | a cursor below the region is put on its last row and the region scrolls up one line; otherwise nothing changes |
| Handlers.WriteCell | protocols/ssh/src/terminal_handlers.c:85-122 | only the cursor and grid change; the row is the wrapped row capped at the region's end; the column after the write is 1 after a wrap, else one more; the grid gains the scroll, the effective colours and the cell at the new cursor |
| Handlers.EchoByte | protocols/ssh/src/terminal_handlers.c:43-128 | BEL changes nothing; BS steps left but not past column 0; CR returns to column 0; LF moves down and scrolls at the region's end; ESC selects the escape handler; every other byte is a WriteCell; no more than 3 grid calls and nothing else touched |
| Handlers.EscapeByte | protocols/ssh/src/terminal_handlers.c:130-154 | `(`, `]` and `[` select the charset, OSC and CSI handlers and log nothing; any other byte returns to Normal and is logged as an unhandled escape, with nothing else changed |
| Handlers.CharsetByte | protocols/ssh/src/terminal_handlers.c:156-159 | the designated set is ignored: only the mode changes, to Normal |
| Handlers.SignedChar | protocols/ssh/src/terminal_handlers.c:501-503 | the value a signed `char` holds lies in -128..127 and is congruent to the byte mod 256 |
| Handlers.OscAsWrittenMissesSt | protocols/ssh/src/terminal_handlers.c:503 | the terminator test on a signed `char` accepts exactly '\' and BEL, never 0x9C |
| Handlers.OscByte | protocols/ssh/src/terminal_handlers.c:501-506 | ST, '\' and BEL end the command; any other byte changes nothing |
| Handlers.FinishParameter | protocols/ssh/src/terminal_handlers.c:189-199 | with fewer than 16 parameters stored, the buffer's value becomes the next one and the buffer empties; with 16 stored, nothing changes |
| Handlers.Zeroed | protocols/ssh/src/terminal_handlers.c:486-488 | the first n parameters become 0 and the rest are kept |
| Handlers.EndSequence | protocols/ssh/src/terminal_handlers.c:482-493 | ';' changes nothing; any other byte returns to Normal with the stored parameters zeroed, the count and the buffer emptied |
| Handlers.Amount | protocols/ssh/src/terminal_handlers.c:208-209 | a parameter of 0 (also an omitted one) becomes 1, and a non-zero parameter is taken as it is |
| Handlers.Position | protocols/ssh/src/terminal_handlers.c:338-339 | a one-based position becomes zero-based; 0 also means the first |
| Handlers.CursorUp | protocols/ssh/src/terminal_handlers.c:204-216 | only the row changes: up by the amount, not above row 0 |
| Handlers.CursorDown | protocols/ssh/src/terminal_handlers.c:218-230 | only the row changes: down by the amount, not below the last row |
| Handlers.CursorBack | protocols/ssh/src/terminal_handlers.c:232-244 | only the column changes: left by the amount, not before column 0 |
| Handlers.CursorForward | protocols/ssh/src/terminal_handlers.c:246-258 | only the column changes: right by the amount, not past the last column |
| Handlers.RelativeMotionStaysOnScreen | protocols/ssh/src/terminal_handlers.c:204-258 | CUU, CUD, CUF and CUB keep an on-screen cursor on screen |
| Handlers.SelectGraphicRendition | protocols/ssh/src/terminal_handlers.c:263-327 | the stored parameters are applied in order to the current attributes, and the unhandled ones are logged in order |
| Handlers.SetScrollRegion | protocols/ssh/src/terminal_handlers.c:329-333 | the margins become the first two parameters minus one, unchecked; with none given, both become -1 |
| Handlers.CursorPosition | protocols/ssh/src/terminal_handlers.c:335-343 | the row and column come from the first two parameters, made zero-based; neither is negative, neither is clamped to the screen |
| Handlers.CursorColumn | protocols/ssh/src/terminal_handlers.c:345-349 | only the column changes, to the first parameter made zero-based |
| Handlers.CursorLine | protocols/ssh/src/terminal_handlers.c:351-355 | only the row changes, to the first parameter made zero-based |
| Handlers.EraseDisplay | protocols/ssh/src/terminal_handlers.c:358-381 | 0 clears from the cursor to the end of the screen, 1 from the start through the cursor, 2 the whole screen, in the current background; other values change nothing |
| Handlers.EraseLine | protocols/ssh/src/terminal_handlers.c:383-408 | 0, 1 and 2 clear one part of the cursor's line in the current background; other values change nothing |
| Handlers.EraseLineClearsNamedPart | protocols/ssh/src/terminal_handlers.c:383-408 | with the cursor on screen, EL 0 clears exactly the columns from the cursor to the edge, EL 1 from the start through the cursor, EL 2 the whole line |
| Handlers.InsertLines | protocols/ssh/src/terminal_handlers.c:410-419 | only the grid changes: the lines from the cursor to the region's end scroll down by the amount |
| Handlers.DeleteLines | protocols/ssh/src/terminal_handlers.c:421-430 | only the grid changes: the lines from the cursor to the region's end scroll up by the amount |
| Handlers.DeleteCharsAsWritten | protocols/ssh/src/terminal_handlers.c:432-452 | DCH as the state machine runs it: the rest of the line is copied left by the amount exactly when text remains right of the deleted cells, then the last `amount` columns of the row are always cleared in the current background; nothing else changes |
| Handlers.DeleteCharsAsWrittenClearsLeftOfCursor | protocols/ssh/src/terminal_handlers.c:446-450 | when the amount reaches past the edge, the clear as written starts left of the cursor |
| Handlers.DeleteChars | protocols/ssh/src/terminal_handlers.c:432-452 | the intended DCH: the same copy and clear while text remains, otherwise a clear from the cursor to the edge only; nothing else changes |
| Handlers.DeleteCharsAsWrittenWithinLine | protocols/ssh/src/terminal_handlers.c:432-452 | while the amount does not reach past the edge, DCH as written is the intended DCH and rewrites exactly the columns from the cursor to the edge |
| Handlers.DeleteCharsRewritesRestOfLine | protocols/ssh/src/terminal_handlers.c:432-452 | with the cursor on screen, DCH's copy and clear cover exactly the cursor's row from the cursor to the edge, without overlap |
| Handlers.InsertCharsAsWritten | protocols/ssh/src/terminal_handlers.c:454-473 | ICH as the state machine runs it: the line from the cursor is copied right by the amount exactly when some of it stays on the line, then `amount` columns from the cursor are always cleared in the current background; nothing else changes |
| Handlers.InsertCharsAsWrittenPassesEdge | protocols/ssh/src/terminal_handlers.c:467-471 | when the amount reaches past the edge, the clear as written runs beyond the last column |
| Handlers.InsertChars | protocols/ssh/src/terminal_handlers.c:454-473 | the intended ICH: the same copy and clear while text stays on the line, otherwise a clear from the cursor to the edge only; nothing else changes |
| Handlers.InsertCharsAsWrittenWithinLine | protocols/ssh/src/terminal_handlers.c:454-473 | while the amount does not reach past the edge, ICH as written is the intended ICH and rewrites exactly the columns from the cursor to the edge |
| Handlers.InsertCharsRewritesRestOfLine | protocols/ssh/src/terminal_handlers.c:454-473 | with the cursor on screen, ICH's cleared columns and moved text cover exactly the cursor's row from the cursor to the edge, without overlap |
| Handlers.Command | protocols/ssh/src/terminal_handlers.c:201-480 | no command touches the mode, the accumulator, the screen size or the defaults; only SGR changes attributes, only DECSTBM the region, only motions the cursor, only edits the grid; grid and log are only appended to; ';' does nothing and any other unknown final byte is logged |
| Handlers.CsiByte | protocols/ssh/src/terminal_handlers.c:161-499 | '?' is ignored; a digit is appended while the buffer has room; ';' stores a parameter; any other byte ends the parameter and runs the command the byte selects on the stored parameters; any byte but ';' then ends the sequence in Normal mode with the accumulator cleared |
| Handlers.Step | protocols/ssh/src/terminal_handlers.c:43-506 | the handler transitions between Normal, Escape, Charset, CSI and OSC modes; the escape, charset and OSC handlers change nothing but the mode, and log at most one entry |
| Handlers.Run | protocols/ssh/src/terminal_handlers.c:43-506 | a stream never changes the screen size or the defaults, and only appends to the grid and the log |
| Handlers.StepKeepsInvariant | protocols/ssh/src/terminal_handlers.c:161-499 | every byte keeps the accumulator invariant: only digits buffered, unstored parameters zero, nothing held outside a sequence |
| Handlers.RunKeepsInvariant | protocols/ssh/src/terminal_handlers.c:161-499 | every stream keeps the accumulator invariant |
| Handlers.StepKeepsColumnNonNegative | protocols/ssh/src/terminal_handlers.c:43-499 | on a screen at least one column wide, no byte moves the cursor left of column 0 |
| Handlers.CommandKeepsPalette | protocols/ssh/src/terminal_handlers.c:201-480 | with palette attributes and defaults, a command keeps the attributes in the palette and sets no colours outside it |
| Handlers.StepKeepsPalette | protocols/ssh/src/terminal_handlers.c:43-506 | with palette attributes and defaults, a byte keeps the attributes in the palette, and every colour pair it hands to the grid is a pair of palette indices |
| Handlers.RunKeepsPalette | protocols/ssh/src/terminal_handlers.c:43-506 | the same for a whole stream: the attributes stay in the palette, and so does every colour pair set |
| Handlers.IdleArgumentsAreZero | protocols/ssh/src/terminal_handlers.c:482-493 | outside a control sequence all 16 parameters are 0 |
| Handlers.RunConcat | protocols/ssh/src/terminal_handlers.c:43-506 | handling a stream in two pieces is handling it whole |
| Sequences.RunSeparated | protocols/ssh/src/terminal_handlers.c:176-199 | digit groups each ended by ';' are stored, in order, as their decimal values |
| Sequences.RunFull | protocols/ssh/src/terminal_handlers.c:189-199 | once 16 parameters are stored, digits and ';' change only the digit buffer |
| Sequences.ParametersGathered | protocols/ssh/src/terminal_handlers.c:161-199 | the parameter text of a sequence stores the decimal values of its first 16 groups, padded with zeros |
| Sequences.ControlSequenceEffect | protocols/ssh/src/terminal_handlers.c:161-499 | ESC '[' with a parameter text and a final byte is the command seeing the text's first 16 values, with the accumulator as before |
| Sequences.ExtraParametersIgnored | protocols/ssh/src/terminal_handlers.c:189-199 | parameters beyond the 16th have no effect on a sequence |
| Sequences.CursorUpDefaultsToOne | protocols/ssh/src/terminal_handlers.c:204-216 | `ESC [ A` and `ESC [ 0 A` move up one row |
| Sequences.CursorPositionExample | protocols/ssh/src/terminal_handlers.c:335-343 | `ESC [ 5 ; 10 H` puts the cursor at row 4, column 9 |
| Sequences.BareRenditionResets | protocols/ssh/src/terminal_handlers.c:263-272 | `ESC [ m` and `ESC [ 0 m` restore the default attributes and change nothing else |
| Sequences.BareScrollRegion | protocols/ssh/src/terminal_handlers.c:329-333 | `ESC [ r` sets both margins to -1 |
| Sequences.UpThenDownReturns | protocols/ssh/src/terminal_handlers.c:204-230 | n rows up and n rows down from an on-screen row at least n returns to the same state |
| Sequences.EscapeEndsControlSequence | protocols/ssh/src/terminal_handlers.c:475-493 | ESC inside a control sequence ends it, logged as an unhandled final byte, and does not start a new escape |
| Sequences.EscapeAfterEscape | protocols/ssh/src/terminal_handlers.c:146-148 | `ESC ESC` logs one unhandled escape and returns to Normal |
| Sequences.NoEscapeStaysNormal | protocols/ssh/src/terminal_handlers.c:43-128 | a stream without ESC stays in Normal mode and changes no attributes, region, accumulator or log |
| Sequences.OscPayloadDiscarded | protocols/ssh/src/terminal_handlers.c:501-506 | an OSC payload and its first terminator (ST, '\' or BEL) change nothing but the mode, back to Normal |
| Sequences.OscSequenceIsNoOp | protocols/ssh/src/terminal_handlers.c:138-140 | `ESC ]` with a payload and BEL leaves the state unchanged |
| Sequences.CharsetDesignationIsNoOp | protocols/ssh/src/terminal_handlers.c:134-159 | `ESC (` with any byte leaves the state unchanged |
| Sequences.WrapAtRightEdge | protocols/ssh/src/terminal_handlers.c:85-122 | at the last column one byte fills it and the next is written at column 0 of the next row |
| Terminal.Terminal.constructor | protocols/ssh/src/terminal_handlers.c:164-169 | a new terminal is valid and equals the initial state |
| Terminal.Terminal.ScrollIntoRegion | protocols/ssh/src/terminal_handlers.c:93-100 | the new state is Handlers.ScrollIntoRegion of the old |
| Terminal.Terminal.EffectiveColors | protocols/ssh/src/terminal_handlers.c:102-111 | the colours computed in place are the effective colours of the current attributes |
| Terminal.Terminal.WriteCell | protocols/ssh/src/terminal_handlers.c:85-122 | the new state is Handlers.WriteCell of the old |
| Terminal.Terminal.EchoByte | protocols/ssh/src/terminal_handlers.c:43-128 | the new state is Handlers.EchoByte of the old |
| Terminal.Terminal.EscapeByte | protocols/ssh/src/terminal_handlers.c:130-154 | the new state is Handlers.EscapeByte of the old |
| Terminal.Terminal.CharsetByte | protocols/ssh/src/terminal_handlers.c:156-159 | the new state is Handlers.CharsetByte of the old |
| Terminal.Terminal.OscByte | protocols/ssh/src/terminal_handlers.c:501-506 | the new state is Handlers.OscByte of the old |
| Terminal.Terminal.ApplyRendition | protocols/ssh/src/terminal_handlers.c:268-323 | one SGR value gives Attributes.Rendition, and is reported as handled exactly when it is one of the handled values |
| Terminal.Terminal.SelectGraphicRendition | protocols/ssh/src/terminal_handlers.c:263-327 | the loop over the stored parameters leaves the state at Handlers.SelectGraphicRendition of the old |
| Terminal.Terminal.CursorUp | protocols/ssh/src/terminal_handlers.c:204-216 | the new state is Handlers.CursorUp of the old |
| Terminal.Terminal.CursorDown | protocols/ssh/src/terminal_handlers.c:218-230 | the new state is Handlers.CursorDown of the old |
| Terminal.Terminal.CursorBack | protocols/ssh/src/terminal_handlers.c:232-244 | the new state is Handlers.CursorBack of the old |
| Terminal.Terminal.CursorForward | protocols/ssh/src/terminal_handlers.c:246-258 | the new state is Handlers.CursorForward of the old |
| Terminal.Terminal.SetScrollRegion | protocols/ssh/src/terminal_handlers.c:329-333 | the new state is Handlers.SetScrollRegion of the old |
| Terminal.Terminal.CursorPosition | protocols/ssh/src/terminal_handlers.c:335-343 | the new state is Handlers.CursorPosition of the old |
| Terminal.Terminal.CursorColumn | protocols/ssh/src/terminal_handlers.c:345-349 | the new state is Handlers.CursorColumn of the old |
| Terminal.Terminal.CursorLine | protocols/ssh/src/terminal_handlers.c:351-355 | the new state is Handlers.CursorLine of the old |
| Terminal.Terminal.EraseDisplay | protocols/ssh/src/terminal_handlers.c:358-381 | the new state is Handlers.EraseDisplay of the old |
| Terminal.Terminal.EraseLine | protocols/ssh/src/terminal_handlers.c:383-408 | the new state is Handlers.EraseLine of the old |
| Terminal.Terminal.InsertLines | protocols/ssh/src/terminal_handlers.c:410-419 | the new state is Handlers.InsertLines of the old |
| Terminal.Terminal.DeleteLines | protocols/ssh/src/terminal_handlers.c:421-430 | the new state is Handlers.DeleteLines of the old |
| Terminal.Terminal.DeleteChars | protocols/ssh/src/terminal_handlers.c:432-452 | the new state is Handlers.DeleteCharsAsWritten of the old |
| Terminal.Terminal.InsertChars | protocols/ssh/src/terminal_handlers.c:454-473 | the new state is Handlers.InsertCharsAsWritten of the old |
| Terminal.Terminal.Command | protocols/ssh/src/terminal_handlers.c:201-480 | the new state is Handlers.Command of the old |
| Terminal.Terminal.FinishParameter | protocols/ssh/src/terminal_handlers.c:189-199 | storing the buffer's digits into the array leaves the state at Handlers.FinishParameter of the old |
| Terminal.Terminal.EndSequence | protocols/ssh/src/terminal_handlers.c:482-493 | the reset loop over the array leaves the state at Handlers.EndSequence of the old |
| Terminal.Terminal.CsiByte | protocols/ssh/src/terminal_handlers.c:161-499 | the new state is Handlers.CsiByte of the old |
| Terminal.Terminal.Step | protocols/ssh/src/terminal_handlers.c:43-506 | the handler the mode selects leaves the terminal valid and at Handlers.Step of the old state |
| Terminal.Terminal.Feed | protocols/ssh/src/terminal_handlers.c:43-506 | handling a buffer byte by byte keeps the terminal valid and leaves it at Handlers.Run of the old state |

## Left out

- Grid and log effects: the bodies of `guac_terminal_set`, `_copy`, `_clear`, `_clear_range`, `_scroll_up`, `_scroll_down` and `guac_client_log_info` live in `terminal.c` and the client library, which are not part of this model. Each call is recorded as a `GridOp` or `LogEntry` with its arguments. A log entry keeps the byte or value, not the formatted message.
- The byte a cell receives is recorded as an unsigned byte. The C code passes a possibly signed `char` to `guac_terminal_set`, and for bytes 0x80 and above that reinterpretation is left to the grid.
- C `int` width: parameters are unbounded naturals. `atoi` on a buffer of up to 255 digits can overflow `int`, which is undefined in C, and that is not modelled. `Bytes.DecimalValueBound` bounds the value by the digit count. Cursor arithmetic is unbounded as well.
- Every terminal has its own accumulator. In C the `csi` handler's `static` storage is shared by every terminal in the process, so two sessions could interleave their parameters. That sharing is not modelled.
- Locking and concurrency are not modelled. Each handler's `int` return value is always 0 and is not modelled either.
- The screen size, the default attributes and the initial scroll region are set outside this file, when the terminal is created in `terminal.c`. The constructor takes them as parameters, with the scroll region spanning the screen.
- The palette lemmas (`Handlers.StepKeepsPalette`, `RunKeepsPalette` and the others) take palette defaults as a precondition. The default attributes are chosen in `terminal.c`, which is not part of this model.
- StepKeepsColumnNonNegative: bounds only the column, and only from below. The source keeps neither the row nor the column within the screen (see the differences listed above).

## Findings

| source | as written | input that shows it | evidently intended | confidence | as-written member | corrected member |
|---|---|---|---|---|---|---|
| protocols/ssh/src/terminal_handlers.c:503 | the terminator test compares a `char`, signed on common ABIs, with 0x9C | the byte 0x9C after `ESC ]`: as a signed `char` it is -100, never 156, so the command runs on past the string terminator | ST (0x9C) ends the operating system command, as the comment beside the test says | not executed | Handlers.OscAsWrittenMissesSt | Sequences.OscPayloadDiscarded |
| protocols/ssh/src/terminal_handlers.c:446-450 | DCH always clears `amount` columns ending at the right edge | width 80, cursor at column 78, `ESC [ 5 P`: columns 75-79 are cleared, so 75-77, left of the cursor, are erased | when the amount reaches the edge, clear only from the cursor to the edge | not executed | Handlers.DeleteCharsAsWrittenClearsLeftOfCursor | Handlers.DeleteCharsRewritesRestOfLine |
| protocols/ssh/src/terminal_handlers.c:467-471 | ICH always clears `amount` columns starting at the cursor | width 80, cursor at column 78, `ESC [ 5 @`: the clear covers columns 78-82, three past the last column | clear only from the cursor to the edge | not executed | Handlers.InsertCharsAsWrittenPassesEdge | Handlers.InsertCharsRewritesRestOfLine |

`Handlers.OscByte` uses the corrected OSC terminator test,
`Handlers.OscTerminates`. It is reached through `Handlers.Step` and `Run`,
and through `Terminal.Terminal.OscByte` in the class. `Handlers.Command`
and the class's `Command` run DCH and ICH as written, through `Handlers.DeleteCharsAsWritten` and
`Handlers.InsertCharsAsWritten`. The corrected `Handlers.DeleteChars` and
`Handlers.InsertChars` state the intended behaviour. The `WithinLine`
lemmas show that the two agree whenever the amount stays within the
line. Whether `guac_terminal_clear` clips a clear that runs past the
last column is decided in `terminal.c`, which is not part of this model.
