/**
 * The interpreter as a function on values: the terminal's state, one
 * function per character handler, and Step/Run, which route each byte to
 * the handler the current mode selects. The class in terminal.dfy is
 * proved to change its fields exactly as these functions say.
 */
module Handlers {
  import opened Bytes
  import opened Trace
  import opened Attributes

  /** Capacity of the CSI parameter array (`argv[16]`). */
  const MAX_ARGS: nat := 16
  /** Digits a parameter buffer of 256 bytes holds before its terminating NUL. */
  const MAX_DIGITS: nat := 255

  /** Which handler receives the next byte (the C code's `char_handler`). */
  datatype Mode = Normal | Escape | Charset | Csi | Osc

  /**
   * Everything a byte can read or change: the cursor, the screen size, the
   * scroll region, the current and default attributes, the handler mode,
   * the CSI accumulator (`argc`, `argv`, and the digits gathered so far),
   * and the calls made so far into the grid and the log.
   */
  datatype State = State(
    cursorRow: int,
    cursorCol: int,
    width: int,
    height: int,
    scrollStart: int,
    scrollEnd: int,
    current: Attributes,
    defaults: Attributes,
    mode: Mode,
    argc: nat,
    argv: seq<nat>,
    digits: seq<byte>,
    grid: seq<GridOp>,
    log: seq<LogEntry>)

  /** The sizes of the accumulator's storage, which every state respects. */
  predicate Shaped(s: State) {
    |s.argv| == MAX_ARGS && s.argc <= MAX_ARGS && |s.digits| <= MAX_DIGITS
  }

  /**
   * What holds of every state the interpreter reaches: the buffer holds only
   * digits, parameters not yet stored are zero, and outside a control
   * sequence the accumulator is empty.
   */
  predicate Invariant(s: State) {
    && Shaped(s)
    && AllDigits(s.digits)
    && (forall i :: s.argc <= i < |s.argv| ==> s.argv[i] == 0)
    && (s.mode != Csi ==> s.argc == 0 && s.digits == [])
  }

  /** The state of a fresh session: the static initialisers of the accumulator and Normal mode. */
  function Initial(width: int, height: int, defaults: Attributes): (s: State)
    ensures Invariant(s) && s.mode == Normal
  {
    State(0, 0, width, height, 0, height - 1, defaults, defaults, Normal,
          0, seq(MAX_ARGS, _ => 0), [], [], [])
  }

  function Min(x: int, y: int): int { if x <= y then x else y }
  function Max(x: int, y: int): int { if x >= y then x else y }

  // ---------------------------------------------------------------------
  // Normal mode

  /** The bytes Normal mode writes to the grid: all but BEL, BS, CR, LF and ESC. */
  predicate Displayable(c: byte) {
    c != BEL && c != BS && c != CR && c != LF && c != ESC
  }

  /** The scroll-up a cursor that reached `row` triggers, if any. */
  function ScrollFor(s: State, row: int): seq<GridOp> {
    if row > s.scrollEnd then [ScrollUp(s.scrollStart, s.scrollEnd, 1)] else []
  }

  /**
   * A cursor below the scroll region is put back on its last row and the
   * region scrolls up by one line.
   */
  function ScrollIntoRegion(s: State): (r: State)
    ensures r == s.(cursorRow := Min(s.cursorRow, s.scrollEnd), grid := s.grid + ScrollFor(s, s.cursorRow))
  {
    if s.cursorRow > s.scrollEnd then
      s.(cursorRow := s.scrollEnd, grid := s.grid + [ScrollUp(s.scrollStart, s.scrollEnd, 1)])
    else s
  }

  /**
   * A displayable byte: wrap to the next row when the cursor is past the
   * right edge, scroll it back into the region, write the cell in the
   * effective colours and advance.
   */
  function WriteCell(s: State, c: byte): (r: State)
    ensures var row := if s.cursorCol >= s.width then s.cursorRow + 1 else s.cursorRow;
      var e := Effective(s.current);
      && r == s.(cursorRow := r.cursorRow, cursorCol := r.cursorCol, grid := r.grid)
      && r.cursorRow == Min(row, s.scrollEnd)
      && r.cursorCol == (if s.cursorCol >= s.width then 1 else s.cursorCol + 1)
      && r.grid == s.grid + ScrollFor(s, row)
                   + [SetColors(e.foreground, e.background), Set(r.cursorRow, r.cursorCol - 1, c)]
  {
    var wrapped := if s.cursorCol >= s.width then s.(cursorCol := 0, cursorRow := s.cursorRow + 1) else s;
    var t := ScrollIntoRegion(wrapped);
    var e := Effective(t.current);
    t.(grid := t.grid + [SetColors(e.foreground, e.background), Set(t.cursorRow, t.cursorCol, c)],
       cursorCol := t.cursorCol + 1)
  }

  /** The echo handler: one byte in Normal mode. */
  function EchoByte(s: State, c: byte): (r: State)
    // nothing but the cursor, the grid and the mode changes
    ensures r.width == s.width && r.height == s.height
    ensures r.scrollStart == s.scrollStart && r.scrollEnd == s.scrollEnd
    ensures r.current == s.current && r.defaults == s.defaults
    ensures r.argc == s.argc && r.argv == s.argv && r.digits == s.digits && r.log == s.log
    ensures r.mode == (if c == ESC then Escape else s.mode)
    // the control bytes
    ensures c == BEL ==> r == s
    ensures c == BS ==> r == s.(cursorCol := if s.cursorCol >= 1 then s.cursorCol - 1 else s.cursorCol)
    ensures c == BS && s.cursorCol >= 0 ==> r.cursorCol >= 0
    ensures c == CR ==> r == s.(cursorCol := 0)
    ensures c == LF ==> r == s.(cursorRow := Min(s.cursorRow + 1, s.scrollEnd),
                                grid := s.grid + ScrollFor(s, s.cursorRow + 1))
    ensures c == ESC ==> r == s.(mode := Escape)
    // a displayable byte: wrap, scroll, write the cell, advance
    ensures Displayable(c) ==> r == WriteCell(s, c)
    ensures s.grid <= r.grid && |r.grid| <= |s.grid| + 3
  {
    if c == BEL then s
    else if c == BS then (if s.cursorCol >= 1 then s.(cursorCol := s.cursorCol - 1) else s)
    else if c == CR then s.(cursorCol := 0)
    else if c == LF then ScrollIntoRegion(s.(cursorRow := s.cursorRow + 1))
    else if c == ESC then s.(mode := Escape)
    else WriteCell(s, c)
  }

  // ---------------------------------------------------------------------
  // Escape, charset and operating system command modes

  /** The escape handler: the byte after ESC. */
  function EscapeByte(s: State, c: byte): (r: State)
    ensures r == s.(mode := r.mode, log := r.log)
    ensures c == LEFT_PAREN ==> r.mode == Charset
    ensures c == RIGHT_BRACKET ==> r.mode == Osc
    ensures c == LEFT_BRACKET ==> r.mode == Csi
    // any other byte is reported and ends the escape
    ensures c != LEFT_PAREN && c != RIGHT_BRACKET && c != LEFT_BRACKET ==>
      r == s.(mode := Normal, log := s.log + [UnhandledEscape(c)])
    ensures r.mode == Normal <==> r.log == s.log + [UnhandledEscape(c)]
    ensures r.mode != Normal ==> r.log == s.log
  {
    if c == LEFT_PAREN then s.(mode := Charset)
    else if c == RIGHT_BRACKET then s.(mode := Osc)
    else if c == LEFT_BRACKET then s.(mode := Csi)
    else s.(mode := Normal, log := s.log + [UnhandledEscape(c)])
  }

  /** The charset handler: the designated character set is accepted and ignored. */
  function CharsetByte(s: State, c: byte): (r: State)
    ensures r.mode == Normal && r == s.(mode := r.mode)
  {
    s.(mode := Normal)
  }

  /** The bytes that end an operating system command: ST, '\' and BEL. */
  predicate OscTerminates(c: byte) {
    c == ST || c == BACKSLASH || c == BEL
  }

  /** The value a C `char` holds for byte `c` where `char` is signed. */
  function SignedChar(c: byte): (v: int)
    ensures -128 <= v < 128
    ensures v % 256 == c as int % 256
  {
    if c < 128 then c as int else c as int - 256
  }

  /** The terminator test as the C code writes it, on a signed `char`. */
  predicate OscTerminatesAsWritten(c: byte) {
    SignedChar(c) == ST as int || SignedChar(c) == BACKSLASH as int || SignedChar(c) == BEL as int
  }

  /** Compared with a signed `char`, the string terminator 0x9C is never recognised. */
  lemma OscAsWrittenMissesSt(c: byte)
    ensures OscTerminatesAsWritten(c) <==> OscTerminates(c) && c != ST
    ensures OscTerminates(ST) && !OscTerminatesAsWritten(ST)
  {
  }

  /** The OSC handler: the payload is discarded up to a terminator. */
  function OscByte(s: State, c: byte): (r: State)
    ensures r == s.(mode := r.mode)
    ensures OscTerminates(c) ==> r.mode == Normal
    ensures !OscTerminates(c) ==> r == s
    ensures c == ST ==> r.mode == Normal
  {
    if OscTerminates(c) then s.(mode := Normal) else s
  }

  // ---------------------------------------------------------------------
  // Control sequences: the parameter accumulator

  /**
   * The byte that ends a parameter stores the digits gathered so far, as
   * long as fewer than 16 parameters are stored; a 17th and later parameter
   * is dropped and its digits are not cleared.
   */
  function FinishParameter(s: State): (r: State)
    requires Shaped(s)
    ensures Shaped(r) && r.argc >= 1
    ensures s.argc < MAX_ARGS ==>
      r == s.(argv := s.argv[s.argc := DecimalValue(s.digits)], argc := s.argc + 1, digits := [])
    ensures s.argc == MAX_ARGS ==> r == s
  {
    if s.argc < MAX_ARGS then
      s.(argv := s.argv[s.argc := DecimalValue(s.digits)], argc := s.argc + 1, digits := [])
    else s
  }

  /** `argv` with its first `n` entries set to zero (the reset loop). */
  function Zeroed(argv: seq<nat>, n: nat): (r: seq<nat>)
    requires n <= |argv|
    ensures |r| == |argv|
    ensures forall i :: 0 <= i < |r| ==> r[i] == if i < n then 0 else argv[i]
  {
    seq(|argv|, i requires 0 <= i < |argv| => if i < n then 0 else argv[i])
  }

  /** Any byte but ';' completes the sequence: back to Normal with the accumulator cleared. */
  function EndSequence(s: State, c: byte): (r: State)
    requires Shaped(s)
    ensures c == SEMICOLON ==> r == s
    ensures c != SEMICOLON ==> r == s.(mode := Normal, argv := Zeroed(s.argv, s.argc), argc := 0, digits := [])
  {
    if c != SEMICOLON then
      s.(mode := Normal, argv := Zeroed(s.argv, s.argc), argc := 0, digits := [])
    else s
  }

  // ---------------------------------------------------------------------
  // Control sequences: the commands

  /** A relative motion or count parameter: 0, also an omitted parameter, means 1. */
  function Amount(v: nat): (n: nat)
    ensures n >= 1
    ensures v == 0 ==> n == 1
    ensures v != 0 ==> n == v
  {
    if v == 0 then 1 else v
  }

  /** A one-based position parameter as a zero-based row or column; 0 means the first. */
  function Position(v: nat): (p: nat)
    ensures v == 0 ==> p == 0
    ensures v != 0 ==> p + 1 == v
  {
    if v != 0 then v - 1 else v
  }

  /** CUU, `A`: up by the amount, stopping at row 0. */
  function CursorUp(s: State): (r: State)
    requires Shaped(s)
    ensures r == s.(cursorRow := Max(0, s.cursorRow - Amount(s.argv[0])))
    ensures r.cursorRow >= 0
  {
    var row := s.cursorRow - Amount(s.argv[0]);
    s.(cursorRow := if row < 0 then 0 else row)
  }

  /** CUD, `B`: down by the amount, stopping at the last row. */
  function CursorDown(s: State): (r: State)
    requires Shaped(s)
    ensures r == s.(cursorRow := Min(s.height - 1, s.cursorRow + Amount(s.argv[0])))
    ensures r.cursorRow <= s.height - 1
  {
    var row := s.cursorRow + Amount(s.argv[0]);
    s.(cursorRow := if row >= s.height then s.height - 1 else row)
  }

  /** CUB, `D`: left by the amount, stopping at column 0. */
  function CursorBack(s: State): (r: State)
    requires Shaped(s)
    ensures r == s.(cursorCol := Max(0, s.cursorCol - Amount(s.argv[0])))
    ensures r.cursorCol >= 0
  {
    var col := s.cursorCol - Amount(s.argv[0]);
    s.(cursorCol := if col < 0 then 0 else col)
  }

  /** CUF, `C`: right by the amount, stopping at the last column. */
  function CursorForward(s: State): (r: State)
    requires Shaped(s)
    ensures r == s.(cursorCol := Min(s.width - 1, s.cursorCol + Amount(s.argv[0])))
    ensures r.cursorCol <= s.width - 1
  {
    var col := s.cursorCol + Amount(s.argv[0]);
    s.(cursorCol := if col >= s.width then s.width - 1 else col)
  }

  /** SGR, `m`: every stored parameter, left to right; unhandled values are logged. */
  function SelectGraphicRendition(s: State): (r: State)
    requires Shaped(s)
    ensures r == s.(current := Renditions(s.current, s.defaults, s.argv[..s.argc]),
                    log := s.log + RenditionLog(s.argv[..s.argc]))
  {
    var vs := s.argv[..s.argc];
    s.(current := Renditions(s.current, s.defaults, vs), log := s.log + RenditionLog(vs))
  }

  /** DECSTBM, `r`: the one-based margins taken as they are, without any check. */
  function SetScrollRegion(s: State): (r: State)
    requires Shaped(s)
    ensures r == s.(scrollStart := s.argv[0] as int - 1, scrollEnd := s.argv[1] as int - 1)
    ensures s.argv[0] == 0 && s.argv[1] == 0 ==> r.scrollStart == -1 && r.scrollEnd == -1
  {
    s.(scrollStart := s.argv[0] as int - 1, scrollEnd := s.argv[1] as int - 1)
  }

  /** CUP, `H`: row and column from the first two parameters, unclamped. */
  function CursorPosition(s: State): (r: State)
    requires Shaped(s)
    ensures r == s.(cursorRow := Position(s.argv[0]), cursorCol := Position(s.argv[1]))
    ensures r.cursorRow >= 0 && r.cursorCol >= 0
  {
    s.(cursorRow := Position(s.argv[0]), cursorCol := Position(s.argv[1]))
  }

  /** CHA, `G`: the column from the first parameter, unclamped. */
  function CursorColumn(s: State): (r: State)
    requires Shaped(s)
    ensures r == s.(cursorCol := Position(s.argv[0]))
  {
    s.(cursorCol := Position(s.argv[0]))
  }

  /** VPA, `d`: the row from the first parameter, unclamped. */
  function CursorLine(s: State): (r: State)
    requires Shaped(s)
    ensures r == s.(cursorRow := Position(s.argv[0]))
  {
    s.(cursorRow := Position(s.argv[0]))
  }

  /** ED, `J`: 0 clears from the cursor to the end, 1 from the start to the cursor, 2 all. */
  function EraseDisplay(s: State): (r: State)
    requires Shaped(s)
    ensures var bg := s.current.background;
      r == s.(grid := s.grid + (
        if s.argv[0] == 0 then [ClearRange(s.cursorRow, s.cursorCol, s.height - 1, s.width - 1, bg)]
        else if s.argv[0] == 1 then [ClearRange(0, 0, s.cursorRow, s.cursorCol, bg)]
        else if s.argv[0] == 2 then [Clear(0, 0, s.height, s.width, bg)]
        else []))
    ensures s.argv[0] > 2 ==> r == s
  {
    var bg := s.current.background;
    if s.argv[0] == 0 then
      s.(grid := s.grid + [ClearRange(s.cursorRow, s.cursorCol, s.height - 1, s.width - 1, bg)])
    else if s.argv[0] == 1 then
      s.(grid := s.grid + [ClearRange(0, 0, s.cursorRow, s.cursorCol, bg)])
    else if s.argv[0] == 2 then
      s.(grid := s.grid + [Clear(0, 0, s.height, s.width, bg)])
    else s
  }

  /** EL, `K`: 0 clears from the cursor to the line's end, 1 from its start through the cursor, 2 the line. */
  function EraseLine(s: State): (r: State)
    requires Shaped(s)
    ensures var bg := s.current.background;
      r == s.(grid := s.grid + (
        if s.argv[0] == 0 then [Clear(s.cursorRow, s.cursorCol, 1, s.width - s.cursorCol, bg)]
        else if s.argv[0] == 1 then [Clear(s.cursorRow, 0, 1, s.cursorCol + 1, bg)]
        else if s.argv[0] == 2 then [Clear(s.cursorRow, 0, 1, s.width, bg)]
        else []))
    ensures s.argv[0] > 2 ==> r == s
  {
    var bg := s.current.background;
    if s.argv[0] == 0 then
      s.(grid := s.grid + [Clear(s.cursorRow, s.cursorCol, 1, s.width - s.cursorCol, bg)])
    else if s.argv[0] == 1 then
      s.(grid := s.grid + [Clear(s.cursorRow, 0, 1, s.cursorCol + 1, bg)])
    else if s.argv[0] == 2 then
      s.(grid := s.grid + [Clear(s.cursorRow, 0, 1, s.width, bg)])
    else s
  }

  /**
   * With the cursor on screen, EL clears exactly the part of the cursor's
   * line its parameter names: from the cursor to the edge, from the start
   * through the cursor, or the whole line.
   */
  lemma EraseLineClearsNamedPart(s: State)
    requires Shaped(s) && 0 <= s.cursorCol < s.width && s.argv[0] <= 2
    ensures var ops := EraseLine(s).grid[|s.grid|..];
      && (s.argv[0] == 0 ==> Tiles(ops, s.cursorRow, s.cursorCol, s.width))
      && (s.argv[0] == 1 ==> Tiles(ops, s.cursorRow, 0, s.cursorCol + 1))
      && (s.argv[0] == 2 ==> Tiles(ops, s.cursorRow, 0, s.width))
  {
    var ops := EraseLine(s).grid[|s.grid|..];
    assert |ops| == 1;
    assert Tiles(ops[1..], s.cursorRow, End(ops[0]), End(ops[0]));
  }

  /** IL, `L`: the lines from the cursor to the region's end move down by the amount. */
  function InsertLines(s: State): (r: State)
    requires Shaped(s)
    ensures r == s.(grid := s.grid + [ScrollDown(s.cursorRow, s.scrollEnd, Amount(s.argv[0]))])
  {
    s.(grid := s.grid + [ScrollDown(s.cursorRow, s.scrollEnd, Amount(s.argv[0]))])
  }

  /** DL, `M`: the lines from the cursor to the region's end move up by the amount. */
  function DeleteLines(s: State): (r: State)
    requires Shaped(s)
    ensures r == s.(grid := s.grid + [ScrollUp(s.cursorRow, s.scrollEnd, Amount(s.argv[0]))])
  {
    s.(grid := s.grid + [ScrollUp(s.cursorRow, s.scrollEnd, Amount(s.argv[0]))])
  }

  /**
   * DCH, `P`, as the C code writes it: the rest of the line moves left by
   * the amount when anything of it remains, then the last `amount` columns
   * of the line are cleared, whatever the cursor's column.
   */
  function DeleteCharsAsWritten(s: State): (r: State)
    requires Shaped(s)
    ensures var n := Amount(s.argv[0]);
      var row, col, w := s.cursorRow, s.cursorCol, s.width;
      // the copy happens exactly when text to the right of the deleted cells remains
      r == s.(grid := s.grid
                      + (if col + n < w then [Copy(row, col + n, 1, w - col - n, row, col)] else [])
                      + [Clear(row, w - n, 1, n, s.current.background)])
  {
    var n := Amount(s.argv[0]);
    var moved := if s.cursorCol + n < s.width
      then s.(grid := s.grid + [Copy(s.cursorRow, s.cursorCol + n, 1, s.width - s.cursorCol - n, s.cursorRow, s.cursorCol)])
      else s;
    moved.(grid := moved.grid + [Clear(s.cursorRow, s.width - n, 1, n, s.current.background)])
  }

  /**
   * When the amount reaches past the right edge, the clear written in the C
   * code starts left of the cursor: characters before the cursor are erased.
   */
  lemma DeleteCharsAsWrittenClearsLeftOfCursor(s: State)
    requires Shaped(s) && s.cursorCol + Amount(s.argv[0]) > s.width
    ensures var r := DeleteCharsAsWritten(s);
      var op := r.grid[|r.grid| - 1];
      op.Clear? && op.row == s.cursorRow && op.col < s.cursorCol
  {
  }

  /**
   * DCH, `P`, as evidently intended (Command runs the version as written):
   * the rest of the line moves left by the amount when anything
   * of it remains, and the columns it leaves at the right edge are cleared;
   * when nothing remains, the line is cleared from the cursor to the edge.
   */
  function DeleteChars(s: State): (r: State)
    requires Shaped(s)
    ensures var n := Amount(s.argv[0]);
      var row, col, w := s.cursorRow, s.cursorCol, s.width;
      r == s.(grid := s.grid
                      + (if col + n < w then [Copy(row, col + n, 1, w - col - n, row, col), Clear(row, w - n, 1, n, s.current.background)]
                         else [Clear(row, col, 1, w - col, s.current.background)]))
  {
    var n := Amount(s.argv[0]);
    var bg := s.current.background;
    if s.cursorCol + n < s.width then
      s.(grid := s.grid + [Copy(s.cursorRow, s.cursorCol + n, 1, s.width - s.cursorCol - n, s.cursorRow, s.cursorCol),
                           Clear(s.cursorRow, s.width - n, 1, n, bg)])
    else
      s.(grid := s.grid + [Clear(s.cursorRow, s.cursorCol, 1, s.width - s.cursorCol, bg)])
  }

  /** With the cursor on screen, DCH rewrites exactly the columns from the cursor to the edge. */
  lemma DeleteCharsRewritesRestOfLine(s: State)
    requires Shaped(s) && 0 <= s.cursorCol < s.width
    ensures var r := DeleteChars(s);
      Tiles(r.grid[|s.grid|..], s.cursorRow, s.cursorCol, s.width)
  {
    var r := DeleteChars(s);
    var ops := r.grid[|s.grid|..];
    if s.cursorCol + Amount(s.argv[0]) < s.width {
      assert Tiles(ops[2..], s.cursorRow, s.width, s.width);
      assert Tiles(ops[1..], s.cursorRow, End(ops[0]), s.width);
    } else {
      assert Tiles(ops[1..], s.cursorRow, s.width, s.width);
    }
  }

  /**
   * While the amount does not reach past the right edge, DCH as written
   * makes the intended calls, so with the cursor on screen it also rewrites
   * exactly the columns from the cursor to the edge.
   */
  lemma DeleteCharsAsWrittenWithinLine(s: State)
    requires Shaped(s) && 0 <= s.cursorCol && s.cursorCol + Amount(s.argv[0]) <= s.width
    ensures DeleteCharsAsWritten(s) == DeleteChars(s)
    ensures Tiles(DeleteCharsAsWritten(s).grid[|s.grid|..], s.cursorRow, s.cursorCol, s.width)
  {
    var n := Amount(s.argv[0]);
    if s.cursorCol + n == s.width {
      assert s.width - n == s.cursorCol;
    }
    DeleteCharsRewritesRestOfLine(s);
  }

  /**
   * ICH, `@`, as the C code writes it: the line from the cursor moves right
   * by the amount when anything of it stays on screen, then `amount`
   * columns from the cursor are cleared, whether or not they are on screen.
   */
  function InsertCharsAsWritten(s: State): (r: State)
    requires Shaped(s)
    ensures var n := Amount(s.argv[0]);
      var row, col, w := s.cursorRow, s.cursorCol, s.width;
      // the copy happens exactly when some of the moved text stays on the line
      r == s.(grid := s.grid
                      + (if col + n < w then [Copy(row, col, 1, w - col - n, row, col + n)] else [])
                      + [Clear(row, col, 1, n, s.current.background)])
  {
    var n := Amount(s.argv[0]);
    var moved := if s.cursorCol + n < s.width
      then s.(grid := s.grid + [Copy(s.cursorRow, s.cursorCol, 1, s.width - s.cursorCol - n, s.cursorRow, s.cursorCol + n)])
      else s;
    moved.(grid := moved.grid + [Clear(s.cursorRow, s.cursorCol, 1, n, s.current.background)])
  }

  /** When the amount reaches past the right edge, the clear written in the C code runs off the line. */
  lemma InsertCharsAsWrittenPassesEdge(s: State)
    requires Shaped(s) && s.cursorCol + Amount(s.argv[0]) > s.width
    ensures var r := InsertCharsAsWritten(s);
      var op := r.grid[|r.grid| - 1];
      op.Clear? && op.row == s.cursorRow && End(op) > s.width
  {
  }

  /**
   * ICH, `@`, as evidently intended (Command runs the version as written):
   * the line from the cursor moves right by the amount when
   * anything of it stays on screen, and the columns it opens at the cursor
   * are cleared; when nothing stays, the line is cleared from the cursor to the edge.
   */
  function InsertChars(s: State): (r: State)
    requires Shaped(s)
    ensures var n := Amount(s.argv[0]);
      var row, col, w := s.cursorRow, s.cursorCol, s.width;
      r == s.(grid := s.grid
                      + (if col + n < w then [Copy(row, col, 1, w - col - n, row, col + n), Clear(row, col, 1, n, s.current.background)]
                         else [Clear(row, col, 1, w - col, s.current.background)]))
  {
    var n := Amount(s.argv[0]);
    var bg := s.current.background;
    if s.cursorCol + n < s.width then
      s.(grid := s.grid + [Copy(s.cursorRow, s.cursorCol, 1, s.width - s.cursorCol - n, s.cursorRow, s.cursorCol + n),
                           Clear(s.cursorRow, s.cursorCol, 1, n, bg)])
    else
      s.(grid := s.grid + [Clear(s.cursorRow, s.cursorCol, 1, s.width - s.cursorCol, bg)])
  }

  /**
   * With the cursor on screen, ICH rewrites exactly the columns from the
   * cursor to the edge: the cleared columns first, then the moved text.
   */
  lemma InsertCharsRewritesRestOfLine(s: State)
    requires Shaped(s) && 0 <= s.cursorCol < s.width
    ensures var ops := InsertChars(s).grid[|s.grid|..];
      if |ops| == 2 then Tiles([ops[1], ops[0]], s.cursorRow, s.cursorCol, s.width)
      else Tiles(ops, s.cursorRow, s.cursorCol, s.width)
  {
    var ops := InsertChars(s).grid[|s.grid|..];
    if s.cursorCol + Amount(s.argv[0]) < s.width {
      var swapped := [ops[1], ops[0]];
      assert Tiles(swapped[2..], s.cursorRow, s.width, s.width);
      assert Tiles(swapped[1..], s.cursorRow, End(swapped[0]), s.width);
    } else {
      assert Tiles(ops[1..], s.cursorRow, s.width, s.width);
    }
  }

  /**
   * While the amount does not reach past the right edge, ICH as written
   * makes the intended calls, so with the cursor on screen it also rewrites
   * exactly the columns from the cursor to the edge.
   */
  lemma InsertCharsAsWrittenWithinLine(s: State)
    requires Shaped(s) && 0 <= s.cursorCol && s.cursorCol + Amount(s.argv[0]) <= s.width
    ensures InsertCharsAsWritten(s) == InsertChars(s)
    ensures var ops := InsertCharsAsWritten(s).grid[|s.grid|..];
      if |ops| == 2 then Tiles([ops[1], ops[0]], s.cursorRow, s.cursorCol, s.width)
      else Tiles(ops, s.cursorRow, s.cursorCol, s.width)
  {
    var n := Amount(s.argv[0]);
    if s.cursorCol + n == s.width {
      assert s.width - s.cursorCol == n;
    }
    InsertCharsRewritesRestOfLine(s);
  }

  /** The final bytes that move the cursor. */
  predicate IsMotion(c: byte) {
    c in {CUU, CUD, CUF, CUB, CUP, CHA, VPA}
  }

  /** The final bytes that call into the grid. */
  predicate IsEdit(c: byte) {
    c in {ED, EL, IL, DL, DCH, ICH}
  }

  predicate IsCommand(c: byte) {
    IsMotion(c) || IsEdit(c) || c == SGR || c == DECSTBM
  }

  /** The four relative motions keep a cursor that is on screen on screen. */
  lemma RelativeMotionStaysOnScreen(s: State, c: byte)
    requires Shaped(s) && (c == CUU || c == CUD || c == CUF || c == CUB)
    requires 0 <= s.cursorRow < s.height && 0 <= s.cursorCol < s.width
    ensures var r := Command(s, c);
      0 <= r.cursorRow < r.height && 0 <= r.cursorCol < r.width
  {
  }

  /** The command a final byte selects; ';' and unknown bytes run none. */
  function Command(s: State, c: byte): (r: State)
    requires Shaped(s)
    ensures Shaped(r)
    ensures r.mode == s.mode && r.argc == s.argc && r.argv == s.argv && r.digits == s.digits
    ensures r.width == s.width && r.height == s.height && r.defaults == s.defaults
    ensures c != SGR ==> r.current == s.current
    ensures IsCommand(c) && c != SGR ==> r.log == s.log
    ensures c != DECSTBM ==> r.scrollStart == s.scrollStart && r.scrollEnd == s.scrollEnd
    ensures !IsMotion(c) ==> r.cursorRow == s.cursorRow && r.cursorCol == s.cursorCol
    ensures !IsEdit(c) ==> r.grid == s.grid
    ensures s.grid <= r.grid && s.log <= r.log
    ensures !IsCommand(c) ==> r == s.(log := s.log + (if c == SEMICOLON then [] else [UnhandledCsi(c)]))
  {
    if c == CUU then CursorUp(s)
    else if c == CUD then CursorDown(s)
    else if c == CUB then CursorBack(s)
    else if c == CUF then CursorForward(s)
    else if c == SGR then SelectGraphicRendition(s)
    else if c == DECSTBM then SetScrollRegion(s)
    else if c == CUP then CursorPosition(s)
    else if c == CHA then CursorColumn(s)
    else if c == VPA then CursorLine(s)
    else if c == ED then EraseDisplay(s)
    else if c == EL then EraseLine(s)
    else if c == IL then InsertLines(s)
    else if c == DL then DeleteLines(s)
    else if c == DCH then DeleteCharsAsWritten(s)
    else if c == ICH then InsertCharsAsWritten(s)
    else if c != SEMICOLON then s.(log := s.log + [UnhandledCsi(c)])
    else s
  }

  /** The CSI handler: one byte of a control sequence after ESC '['. */
  function CsiByte(s: State, c: byte): (r: State)
    requires Shaped(s)
    ensures Shaped(r)
    ensures r.width == s.width && r.height == s.height && r.defaults == s.defaults
    ensures c == QUESTION ==> r == s
    ensures IsDigit(c) ==> r == s.(digits := if |s.digits| < MAX_DIGITS then s.digits + [c] else s.digits)
    ensures c == SEMICOLON ==> r == FinishParameter(s)
    // any other byte ends the parameter and runs the command it selects
    ensures c != QUESTION && !IsDigit(c) ==> r == EndSequence(Command(FinishParameter(s), c), c)
    ensures c != QUESTION && !IsDigit(c) && c != SEMICOLON ==>
      && r.mode == Normal && r.argc == 0 && r.digits == []
      && r.argv == Zeroed(s.argv, FinishParameter(s).argc)
    ensures s.grid <= r.grid && s.log <= r.log
  {
    if c == QUESTION then s
    else if IsDigit(c) then
      (if |s.digits| < MAX_DIGITS then s.(digits := s.digits + [c]) else s)
    else
      EndSequence(Command(FinishParameter(s), c), c)
  }

  // ---------------------------------------------------------------------
  // Routing

  /** One byte, handled by the handler the current mode selects. */
  function Step(s: State, c: byte): (r: State)
    requires Shaped(s)
    ensures Shaped(r)
    ensures r.width == s.width && r.height == s.height && r.defaults == s.defaults
    ensures s.grid <= r.grid && s.log <= r.log
    // the mode transitions
    ensures s.mode == Normal ==> r.mode == (if c == ESC then Escape else Normal)
    ensures s.mode == Escape ==> r.mode == (if c == LEFT_PAREN then Charset
                                           else if c == RIGHT_BRACKET then Osc
                                           else if c == LEFT_BRACKET then Csi
                                           else Normal)
    ensures s.mode == Charset ==> r.mode == Normal
    ensures s.mode == Osc ==> r.mode == (if OscTerminates(c) then Normal else Osc)
    ensures s.mode == Csi ==> r.mode == (if c == QUESTION || IsDigit(c) || c == SEMICOLON then Csi else Normal)
    // the escape, charset and OSC handlers change nothing but the mode (and log an unknown escape)
    ensures s.mode in {Escape, Charset, Osc} ==>
      r == s.(mode := r.mode, log := r.log) && |r.log| <= |s.log| + 1
  {
    match s.mode
    case Normal => EchoByte(s, c)
    case Escape => EscapeByte(s, c)
    case Charset => CharsetByte(s, c)
    case Csi => CsiByte(s, c)
    case Osc => OscByte(s, c)
  }

  /** A stream of bytes, each handled in turn. */
  function Run(s: State, bytes: seq<byte>): (r: State)
    requires Shaped(s)
    ensures Shaped(r)
    ensures r.width == s.width && r.height == s.height && r.defaults == s.defaults
    ensures s.grid <= r.grid && s.log <= r.log
    decreases |bytes|
  {
    if bytes == [] then s else Run(Step(s, bytes[0]), bytes[1..])
  }

  // ---------------------------------------------------------------------
  // Invariants

  /** Every byte keeps the accumulator invariant, so a sequence always starts from an empty buffer. */
  lemma StepKeepsInvariant(s: State, c: byte)
    requires Invariant(s)
    ensures Invariant(Step(s, c))
  {
    if s.mode == Csi && c != QUESTION {
      var f := FinishParameter(s);
      if IsDigit(c) {
        assert AllDigits(s.digits + [c]);
      } else if c == SEMICOLON {
        assert forall i :: f.argc <= i < |f.argv| ==> f.argv[i] == 0;
      } else {
        var r := Step(s, c);
        assert r.argv == Zeroed(s.argv, f.argc);
        assert forall i :: 0 <= i < |r.argv| ==> r.argv[i] == 0;
      }
    }
  }

  /** Run keeps the invariant. */
  lemma {:induction false} RunKeepsInvariant(s: State, bytes: seq<byte>)
    requires Invariant(s)
    ensures Invariant(Run(s, bytes))
    decreases |bytes|
  {
    if bytes != [] {
      StepKeepsInvariant(s, bytes[0]);
      RunKeepsInvariant(Step(s, bytes[0]), bytes[1..]);
    }
  }

  /** On a screen at least one column wide, no byte moves the cursor left of column 0. */
  lemma StepKeepsColumnNonNegative(s: State, c: byte)
    requires Shaped(s) && s.width >= 1 && s.cursorCol >= 0
    ensures Step(s, c).cursorCol >= 0
  {
    if s.mode == Csi && !IsDigit(c) && c != QUESTION {
      var f := FinishParameter(s);
      assert Step(s, c).cursorCol == Command(f, c).cursorCol;
    }
  }

  /** Every colour pair a list of grid calls hands to the grid is a pair of palette indices. */
  predicate PaletteCalls(ops: seq<GridOp>) {
    forall i :: 0 <= i < |ops| && ops[i].SetColors? ==> IsColor(ops[i].foreground) && IsColor(ops[i].background)
  }

  /** The calls made over two stretches of a trace are those of each stretch. */
  lemma PaletteCallsSplit(a: seq<GridOp>, b: seq<GridOp>, c: seq<GridOp>)
    requires a <= b <= c
    requires PaletteCalls(b[|a|..]) && PaletteCalls(c[|b|..])
    ensures PaletteCalls(c[|a|..])
  {
    forall i | 0 <= i < |c| - |a| && c[|a|..][i].SetColors?
      ensures IsColor(c[|a|..][i].foreground) && IsColor(c[|a|..][i].background)
    {
      if |a| + i < |b| {
        assert c[|a|..][i] == b[|a|..][i];
      } else {
        assert c[|a|..][i] == c[|b|..][|a| + i - |b|];
      }
    }
  }

  /** A command keeps the current attributes in the palette and sets no colours. */
  lemma CommandKeepsPalette(s: State, c: byte)
    requires Shaped(s) && Palette(s.current) && Palette(s.defaults)
    ensures var r := Command(s, c);
      Palette(r.current) && PaletteCalls(r.grid[|s.grid|..])
  {
    if c == SGR {
      RenditionsKeepPalette(s.current, s.defaults, s.argv[..s.argc]);
    }
  }

  /**
   * With palette defaults, no byte takes the current attributes out of the
   * palette, and every colour pair it sets is a pair of palette indices.
   */
  lemma StepKeepsPalette(s: State, c: byte)
    requires Shaped(s) && Palette(s.current) && Palette(s.defaults)
    ensures var r := Step(s, c);
      Palette(r.current) && PaletteCalls(r.grid[|s.grid|..])
  {
    if s.mode == Csi && c != QUESTION && !IsDigit(c) {
      var f := FinishParameter(s);
      CommandKeepsPalette(f, c);
      assert Step(s, c) == EndSequence(Command(f, c), c);
    } else if s.mode == Normal && Displayable(c) {
      assert Step(s, c) == WriteCell(s, c);
    }
  }

  /** Over a whole stream, the attributes and every colour pair set stay in the palette. */
  lemma {:induction false} RunKeepsPalette(s: State, bytes: seq<byte>)
    requires Shaped(s) && Palette(s.current) && Palette(s.defaults)
    ensures var r := Run(s, bytes);
      Palette(r.current) && PaletteCalls(r.grid[|s.grid|..])
    decreases |bytes|
  {
    if bytes == [] {
      assert Run(s, bytes).grid[|s.grid|..] == [];
    } else {
      var t := Step(s, bytes[0]);
      StepKeepsPalette(s, bytes[0]);
      RunKeepsPalette(t, bytes[1..]);
      PaletteCallsSplit(s.grid, t.grid, Run(t, bytes[1..]).grid);
    }
  }

  /** Outside a control sequence, the argument array is all zeros. */
  lemma IdleArgumentsAreZero(s: State)
    requires Invariant(s) && s.mode != Csi
    ensures s.argv == seq(MAX_ARGS, _ => 0)
  {
  }

  /** Appending a byte to a stream is one more step. */
  lemma {:induction false} RunSnoc(s: State, bytes: seq<byte>, c: byte)
    requires Shaped(s)
    ensures Run(s, bytes + [c]) == Step(Run(s, bytes), c)
    decreases |bytes|
  {
    if bytes == [] {
      assert Run(Step(s, c), []) == Step(s, c);
      assert [c][1..] == [];
    } else {
      assert (bytes + [c])[1..] == bytes[1..] + [c];
      RunSnoc(Step(s, bytes[0]), bytes[1..], c);
    }
  }

  /** A stream split in two is the two halves one after the other. */
  lemma {:induction false} RunConcat(s: State, xs: seq<byte>, ys: seq<byte>)
    requires Shaped(s)
    ensures Run(s, xs + ys) == Run(Run(s, xs), ys)
    decreases |xs|
  {
    if xs == [] {
      assert xs + ys == ys;
    } else {
      assert (xs + ys)[1..] == xs[1..] + ys;
      RunConcat(Step(s, xs[0]), xs[1..], ys);
    }
  }
}
