/**
 * The terminal object the handlers update in place. The handler mode
 * stands for the `char_handler` function pointer, and the CSI
 * accumulator, function-local `static` storage in C, is held in fields:
 * `argc`, the 16-entry `argv` array, `argvLength` and the 256-byte digit
 * buffer. Each handler and command method is proved to leave `Abstract()`
 * exactly where the function of the same name in Handlers takes it, except
 * that DeleteChars and InsertChars follow the `...AsWritten` functions.
 * EffectiveColors and ApplyRendition compute values that equal
 * `Attributes.Effective` and `Attributes.Rendition`, and Feed equals `Handlers.Run`.
 */
module Terminal {
  import opened Bytes
  import opened Trace
  import opened Attributes
  import H = Handlers

  class Terminal {
    var cursorRow: int
    var cursorCol: int
    var width: int
    var height: int
    var scrollStart: int
    var scrollEnd: int
    var current: Attributes
    var defaults: Attributes
    var mode: H.Mode

    // the CSI accumulator
    var argc: nat
    const argv: array<nat>
    var argvLength: nat
    const argvBuffer: array<byte>

    // the calls made so far into the grid and the diagnostics log
    var grid: seq<GridOp>
    var log: seq<LogEntry>

    /** The terminal as a value; only the digits gathered so far count in the buffer. */
    ghost function Abstract(): H.State
      reads this, argv, argvBuffer
      requires argvLength <= argvBuffer.Length
    {
      H.State(cursorRow, cursorCol, width, height, scrollStart, scrollEnd,
              current, defaults, mode, argc, argv[..], argvBuffer[..argvLength], grid, log)
    }

    /** The sizes of the accumulator's storage. */
    ghost predicate Sized()
      reads this, argv, argvBuffer
    {
      && argv.Length == H.MAX_ARGS
      && argvBuffer.Length == H.MAX_DIGITS + 1
      && argvLength <= H.MAX_DIGITS
      && argc <= H.MAX_ARGS
    }

    ghost predicate Valid()
      reads this, argv, argvBuffer
      ensures Valid() ==> Sized()
    {
      Sized() && H.Invariant(Abstract())
    }

    /** A session's terminal: cursor at the origin, the whole screen as scroll region, Normal mode. */
    constructor (width: int, height: int, defaults: Attributes)
      ensures Valid()
      ensures Abstract() == H.Initial(width, height, defaults)
    {
      this.cursorRow, this.cursorCol := 0, 0;
      this.width, this.height := width, height;
      this.scrollStart, this.scrollEnd := 0, height - 1;
      this.current, this.defaults := defaults, defaults;
      this.mode := H.Normal;
      this.argc := 0;
      this.argv := new nat[H.MAX_ARGS](_ => 0);
      this.argvLength := 0;
      this.argvBuffer := new byte[H.MAX_DIGITS + 1](_ => 0);
      this.grid, this.log := [], [];
      new;
      assert argv[..] == seq(H.MAX_ARGS, _ => 0);
    }

    /** A cursor below the scroll region moves back onto its last row, scrolling it up one line. */
    method ScrollIntoRegion()
      requires Sized()
      modifies this
      ensures Sized()
      ensures Abstract() == H.ScrollIntoRegion(old(Abstract()))
    {
      if cursorRow > scrollEnd {
        cursorRow := scrollEnd;
        grid := grid + [ScrollUp(scrollStart, scrollEnd, 1)];
      }
    }

    /**
     * The colours a cell is written in: the current colours, exchanged
     * under reverse video, with a base foreground brightened under bold.
     */
    method EffectiveColors() returns (foreground: int, background: int)
      ensures Colors(foreground, background) == Effective(current)
    {
      foreground := current.foreground;
      background := current.background;
      if current.reverse {
        var swap := background;
        background := foreground;
        foreground := swap;
      }
      if current.bold && foreground <= 7 {
        foreground := foreground + 8;
      }
    }

    /** A displayable byte written at the cursor, which then advances. */
    method WriteCell(c: byte)
      requires Sized()
      modifies this
      ensures Sized()
      ensures Abstract() == H.WriteCell(old(Abstract()), c)
    {
      if cursorCol >= width {
        cursorCol := 0;
        cursorRow := cursorRow + 1;
      }
      ScrollIntoRegion();
      var foreground, background := EffectiveColors();
      grid := grid + [SetColors(foreground, background)];
      grid := grid + [Set(cursorRow, cursorCol, c)];
      cursorCol := cursorCol + 1;
    }

    /** The echo handler (Normal mode). */
    method EchoByte(c: byte)
      requires Sized()
      modifies this
      ensures Sized()
      ensures Abstract() == H.EchoByte(old(Abstract()), c)
    {
      if c == BEL {
      } else if c == BS {
        if cursorCol >= 1 {
          cursorCol := cursorCol - 1;
        }
      } else if c == CR {
        cursorCol := 0;
      } else if c == LF {
        cursorRow := cursorRow + 1;
        ScrollIntoRegion();
      } else if c == ESC {
        mode := H.Escape;
      } else {
        WriteCell(c);
      }
    }

    /** The escape handler: the byte after ESC picks the next handler. */
    method EscapeByte(c: byte)
      requires Sized()
      modifies this
      ensures Sized()
      ensures Abstract() == H.EscapeByte(old(Abstract()), c)
    {
      if c == LEFT_PAREN {
        mode := H.Charset;
      } else if c == RIGHT_BRACKET {
        mode := H.Osc;
      } else if c == LEFT_BRACKET {
        mode := H.Csi;
      } else {
        log := log + [UnhandledEscape(c)];
        mode := H.Normal;
      }
    }

    /** The charset handler. */
    method CharsetByte(c: byte)
      requires Sized()
      modifies this
      ensures Sized()
      ensures Abstract() == H.CharsetByte(old(Abstract()), c)
    {
      mode := H.Normal;
    }

    /** The OSC handler. */
    method OscByte(c: byte)
      requires Sized()
      modifies this
      ensures Sized()
      ensures Abstract() == H.OscByte(old(Abstract()), c)
    {
      if c == ST || c == BACKSLASH || c == BEL {
        mode := H.Normal;
      }
    }

    /**
     * One SGR value applied to `attributes`: the attributes it yields and
     * whether the value is one the terminal acts on.
     */
    method ApplyRendition(attributes: Attributes, value: nat) returns (next: Attributes, handled: bool)
      ensures next == Rendition(attributes, defaults, value)
      ensures handled == IsRendition(value)
    {
      next, handled := attributes, true;
      if value == 0 {
        next := defaults;
      } else if value == 1 {
        next := attributes.(bold := true);
      } else if value == 4 {
        next := attributes.(underscore := true);
      } else if 30 <= value <= 37 {
        next := attributes.(foreground := value - 30);
      } else if 40 <= value <= 47 {
        next := attributes.(background := value - 40);
      } else if value == 38 {
        next := attributes.(underscore := true, foreground := defaults.foreground);
      } else if value == 39 {
        next := attributes.(underscore := false, foreground := defaults.foreground);
      } else if value == 49 {
        next := attributes.(background := defaults.background);
      } else if value == 7 {
        next := attributes.(reverse := true);
      } else if value == 27 {
        next := attributes.(reverse := false);
      } else {
        handled := false;
      }
    }

    /** The SGR loop over the stored parameters, applied left to right. */
    method SelectGraphicRendition()
      requires Sized()
      modifies this
      ensures Sized()
      ensures Abstract() == H.SelectGraphicRendition(old(Abstract()))
    {
      var attributes := current;
      var entries := log;
      var i := 0;
      while i < argc
        invariant unchanged(this, argv)
        invariant 0 <= i <= argc
        invariant attributes == Renditions(current, defaults, argv[..i])
        invariant entries == log + RenditionLog(argv[..i])
      {
        var value := argv[i];
        var handled;
        attributes, handled := ApplyRendition(attributes, value);
        if !handled {
          entries := entries + [UnhandledRendition(value)];
        }
        assert argv[..i + 1][..i] == argv[..i];
        i := i + 1;
      }
      assert argv[..argc] == argv[..i];
      current, log := attributes, entries;
    }

    /** CUU, `A`. */
    method CursorUp()
      requires Sized()
      modifies this
      ensures Sized()
      ensures Abstract() == H.CursorUp(old(Abstract()))
    {
      var amount := argv[0];
      if amount == 0 { amount := 1; }
      cursorRow := cursorRow - amount;
      if cursorRow < 0 { cursorRow := 0; }
    }

    /** CUD, `B`. */
    method CursorDown()
      requires Sized()
      modifies this
      ensures Sized()
      ensures Abstract() == H.CursorDown(old(Abstract()))
    {
      var amount := argv[0];
      if amount == 0 { amount := 1; }
      cursorRow := cursorRow + amount;
      if cursorRow >= height { cursorRow := height - 1; }
    }

    /** CUB, `D`. */
    method CursorBack()
      requires Sized()
      modifies this
      ensures Sized()
      ensures Abstract() == H.CursorBack(old(Abstract()))
    {
      var amount := argv[0];
      if amount == 0 { amount := 1; }
      cursorCol := cursorCol - amount;
      if cursorCol < 0 { cursorCol := 0; }
    }

    /** CUF, `C`. */
    method CursorForward()
      requires Sized()
      modifies this
      ensures Sized()
      ensures Abstract() == H.CursorForward(old(Abstract()))
    {
      var amount := argv[0];
      if amount == 0 { amount := 1; }
      cursorCol := cursorCol + amount;
      if cursorCol >= width { cursorCol := width - 1; }
    }

    /** DECSTBM, `r`. */
    method SetScrollRegion()
      requires Sized()
      modifies this
      ensures Sized()
      ensures Abstract() == H.SetScrollRegion(old(Abstract()))
    {
      scrollStart := argv[0] as int - 1;
      scrollEnd := argv[1] as int - 1;
    }

    /** CUP, `H`. */
    method CursorPosition()
      requires Sized()
      modifies this
      ensures Sized()
      ensures Abstract() == H.CursorPosition(old(Abstract()))
    {
      var row := argv[0];
      if row != 0 { row := row - 1; }
      var col := argv[1];
      if col != 0 { col := col - 1; }
      cursorRow := row;
      cursorCol := col;
    }

    /** CHA, `G`. */
    method CursorColumn()
      requires Sized()
      modifies this
      ensures Sized()
      ensures Abstract() == H.CursorColumn(old(Abstract()))
    {
      var col := argv[0];
      if col != 0 { col := col - 1; }
      cursorCol := col;
    }

    /** VPA, `d`. */
    method CursorLine()
      requires Sized()
      modifies this
      ensures Sized()
      ensures Abstract() == H.CursorLine(old(Abstract()))
    {
      var row := argv[0];
      if row != 0 { row := row - 1; }
      cursorRow := row;
    }

    /** ED, `J`. */
    method EraseDisplay()
      requires Sized()
      modifies this
      ensures Sized()
      ensures Abstract() == H.EraseDisplay(old(Abstract()))
    {
      if argv[0] == 0 {
        grid := grid + [ClearRange(cursorRow, cursorCol, height - 1, width - 1, current.background)];
      } else if argv[0] == 1 {
        grid := grid + [ClearRange(0, 0, cursorRow, cursorCol, current.background)];
      } else if argv[0] == 2 {
        grid := grid + [Clear(0, 0, height, width, current.background)];
      }
    }

    /** EL, `K`. */
    method EraseLine()
      requires Sized()
      modifies this
      ensures Sized()
      ensures Abstract() == H.EraseLine(old(Abstract()))
    {
      if argv[0] == 0 {
        grid := grid + [Clear(cursorRow, cursorCol, 1, width - cursorCol, current.background)];
      } else if argv[0] == 1 {
        grid := grid + [Clear(cursorRow, 0, 1, cursorCol + 1, current.background)];
      } else if argv[0] == 2 {
        grid := grid + [Clear(cursorRow, 0, 1, width, current.background)];
      }
    }

    /** IL, `L`. */
    method InsertLines()
      requires Sized()
      modifies this
      ensures Sized()
      ensures Abstract() == H.InsertLines(old(Abstract()))
    {
      var amount := argv[0];
      if amount == 0 { amount := 1; }
      grid := grid + [ScrollDown(cursorRow, scrollEnd, amount)];
    }

    /** DL, `M`. */
    method DeleteLines()
      requires Sized()
      modifies this
      ensures Sized()
      ensures Abstract() == H.DeleteLines(old(Abstract()))
    {
      var amount := argv[0];
      if amount == 0 { amount := 1; }
      grid := grid + [ScrollUp(cursorRow, scrollEnd, amount)];
    }

    /** DCH, `P`, as the C code writes it: the clear always covers the last `amount` columns. */
    method DeleteChars()
      requires Sized()
      modifies this
      ensures Sized()
      ensures Abstract() == H.DeleteCharsAsWritten(old(Abstract()))
    {
      var amount := argv[0];
      if amount == 0 { amount := 1; }
      if cursorCol + amount < width {
        grid := grid + [Copy(cursorRow, cursorCol + amount, 1, width - cursorCol - amount, cursorRow, cursorCol)];
      }
      grid := grid + [Clear(cursorRow, width - amount, 1, amount, current.background)];
    }

    /** ICH, `@`, as the C code writes it: the clear always covers `amount` columns from the cursor. */
    method InsertChars()
      requires Sized()
      modifies this
      ensures Sized()
      ensures Abstract() == H.InsertCharsAsWritten(old(Abstract()))
    {
      var amount := argv[0];
      if amount == 0 { amount := 1; }
      if cursorCol + amount < width {
        grid := grid + [Copy(cursorRow, cursorCol, 1, width - cursorCol - amount, cursorRow, cursorCol + amount)];
      }
      grid := grid + [Clear(cursorRow, cursorCol, 1, amount, current.background)];
    }

    /** The command the final byte of a sequence selects; ';' and unknown bytes run none. */
    method Command(c: byte)
      requires Sized()
      modifies this
      ensures Sized()
      ensures Abstract() == H.Command(old(Abstract()), c)
    {
      if c == CUU {
        CursorUp();
      } else if c == CUD {
        CursorDown();
      } else if c == CUB {
        CursorBack();
      } else if c == CUF {
        CursorForward();
      } else if c == SGR {
        SelectGraphicRendition();
      } else if c == DECSTBM {
        SetScrollRegion();
      } else if c == CUP {
        CursorPosition();
      } else if c == CHA {
        CursorColumn();
      } else if c == VPA {
        CursorLine();
      } else if c == ED {
        EraseDisplay();
      } else if c == EL {
        EraseLine();
      } else if c == IL {
        InsertLines();
      } else if c == DL {
        DeleteLines();
      } else if c == DCH {
        DeleteChars();
      } else if c == ICH {
        InsertChars();
      } else if c != SEMICOLON {
        log := log + [UnhandledCsi(c)];
      }
    }

    /** Store the gathered digits as the next parameter, while fewer than 16 are stored. */
    method FinishParameter()
      requires Sized()
      modifies this, argv, argvBuffer
      ensures Sized()
      ensures Abstract() == H.FinishParameter(old(Abstract()))
    {
      if argc < H.MAX_ARGS {
        ghost var digits := argvBuffer[..argvLength];
        argvBuffer[argvLength] := 0;
        assert argvBuffer[..argvLength] == digits;
        argv[argc] := DecimalValue(argvBuffer[..argvLength]);
        argc := argc + 1;
        argvLength := 0;
      }
    }

    /** Unless the byte is ';', the sequence is over: back to Normal, parameters cleared. */
    method EndSequence(c: byte)
      requires Sized()
      modifies this, argv
      ensures Sized()
      ensures Abstract() == H.EndSequence(old(Abstract()), c)
    {
      if c != SEMICOLON {
        mode := H.Normal;
        ghost var before := argv[..];
        for i := 0 to argc
          modifies argv
          invariant forall j :: 0 <= j < argv.Length ==> argv[j] == if j < i then 0 else before[j]
        {
          argv[i] := 0;
        }
        assert argv[..] == H.Zeroed(before, argc);
        argc := 0;
        argvLength := 0;
      }
    }

    /** The CSI handler: gather digits, store parameters, and on a final byte run the command and reset. */
    method CsiByte(c: byte)
      requires Sized()
      modifies this, argv, argvBuffer
      ensures Sized()
      ensures Abstract() == H.CsiByte(old(Abstract()), c)
    {
      if c == QUESTION {
        return;
      }
      if IsDigit(c) {
        if argvLength < argvBuffer.Length - 1 {
          argvBuffer[argvLength] := c;
          argvLength := argvLength + 1;
          assert argvBuffer[..argvLength] == old(argvBuffer[..argvLength]) + [c];
        }
      } else {
        FinishParameter();
        Command(c);
        EndSequence(c);
      }
    }

    /** One byte, handed to the handler the mode selects. */
    method Step(c: byte)
      requires Valid()
      modifies this, argv, argvBuffer
      ensures Valid()
      ensures Abstract() == H.Step(old(Abstract()), c)
    {
      match mode {
        case Normal => EchoByte(c);
        case Escape => EscapeByte(c);
        case Charset => CharsetByte(c);
        case Csi => CsiByte(c);
        case Osc => OscByte(c);
      }
      H.StepKeepsInvariant(old(Abstract()), c);
    }

    /** A buffer of bytes from the host, handled one at a time. */
    method Feed(bytes: seq<byte>)
      requires Valid()
      modifies this, argv, argvBuffer
      ensures Valid()
      ensures Abstract() == H.Run(old(Abstract()), bytes)
    {
      ghost var s0 := Abstract();
      for i := 0 to |bytes|
        invariant Valid()
        invariant H.Run(Abstract(), bytes[i..]) == H.Run(s0, bytes)
      {
        assert bytes[i..][1..] == bytes[i + 1..];
        Step(bytes[i]);
      }
      assert bytes[|bytes|..] == [];
    }
  }
}
