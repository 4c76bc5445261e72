/**
 * Properties of whole byte streams: what a complete control sequence
 * does, which parameters its command sees, how the escape, OSC and
 * Normal modes route a stream, and some concrete sequences.
 */
module Sequences {
  import opened Bytes
  import opened Trace
  import opened Attributes
  import opened Handlers

  // ---------------------------------------------------------------------
  // A reference reading of a control sequence's parameter text

  /**
   * The parameter texts this reading covers: at least one group, each of at
   * most 255 digits. Longer groups, of which only the first 255 digits are
   * kept, are outside it.
   */
  predicate WellFormed(gs: seq<seq<byte>>) {
    |gs| >= 1 && forall i :: 0 <= i < |gs| ==> AllDigits(gs[i]) && |gs[i]| <= MAX_DIGITS
  }

  /** The final byte of a sequence: neither a digit nor '?' nor ';'. */
  predicate IsFinal(f: byte) {
    !IsDigit(f) && f != QUESTION && f != SEMICOLON
  }

  /** Each group followed by a ';'. */
  function Separated(gs: seq<seq<byte>>): seq<byte>
    decreases |gs|
  {
    if gs == [] then [] else gs[0] + [SEMICOLON] + Separated(gs[1..])
  }

  /** The groups joined by ';', as they stand between ESC '[' and the final byte. */
  function Text(gs: seq<seq<byte>>): seq<byte>
    requires |gs| >= 1
  {
    Separated(gs[..|gs| - 1]) + gs[|gs| - 1]
  }

  /** The bytes of a whole control sequence. */
  function ControlSequence(gs: seq<seq<byte>>, f: byte): seq<byte>
    requires |gs| >= 1
  {
    [ESC, LEFT_BRACKET] + Text(gs) + [f]
  }

  /** The value of each group. */
  function Values(gs: seq<seq<byte>>): (vs: seq<nat>)
    ensures |vs| == |gs|
    decreases |gs|
  {
    if gs == [] then [] else [DecimalValue(gs[0])] + Values(gs[1..])
  }

  /** The argument array a command sees: the first 16 values, then zeros. */
  function Padded(vs: seq<nat>): (argv: seq<nat>)
    ensures |argv| == MAX_ARGS
  {
    if |vs| >= MAX_ARGS then vs[..MAX_ARGS] else vs + seq(MAX_ARGS - |vs|, _ => 0)
  }

  lemma {:induction false} ValuesSnoc(gs: seq<seq<byte>>, g: seq<byte>)
    ensures Values(gs + [g]) == Values(gs) + [DecimalValue(g)]
    decreases |gs|
  {
    if gs != [] {
      assert (gs + [g])[1..] == gs[1..] + [g];
      ValuesSnoc(gs[1..], g);
    }
  }

  lemma {:induction false} ValuesPrefix(gs: seq<seq<byte>>, k: nat)
    requires k <= |gs|
    ensures Values(gs)[..k] == Values(gs[..k])
    decreases k
  {
    if k > 0 {
      assert gs[..k][1..] == gs[1..][..k - 1];
      ValuesPrefix(gs[1..], k - 1);
    }
  }

  /** Storing a value after the stored ones extends the padded list by it. */
  lemma PaddedStore(vs: seq<nat>, v: nat)
    requires |vs| < MAX_ARGS
    ensures Padded(vs)[|vs| := v] == Padded(vs + [v])
  {
    var k := |vs|;
    assert Padded(vs) == vs + seq(MAX_ARGS - k, _ => 0);
    if k + 1 < MAX_ARGS {
      assert Padded(vs + [v]) == vs + [v] + seq(MAX_ARGS - k - 1, _ => 0);
    } else {
      assert Padded(vs + [v]) == vs + [v];
    }
  }

  // ---------------------------------------------------------------------
  // The accumulator, byte class by byte class

  lemma RunOne(s: State, c: byte)
    requires Shaped(s)
    ensures Run(s, [c]) == Step(s, c)
  {
    assert [c][1..] == [];
  }

  lemma RunTwo(s: State, a: byte, b: byte)
    requires Shaped(s)
    ensures Run(s, [a, b]) == Step(Step(s, a), b)
  {
    assert [a, b][1..] == [b];
    RunOne(Step(s, a), b);
  }

  lemma RunThree(s: State, a: byte, b: byte, c: byte)
    requires Shaped(s)
    ensures Run(s, [a, b, c]) == Step(Step(Step(s, a), b), c)
  {
    assert [a, b, c][1..] == [b, c];
    RunTwo(Step(s, a), b, c);
  }

  /** Digits are gathered in order while the buffer has room. */
  lemma {:induction false} RunDigits(s: State, g: seq<byte>)
    requires Shaped(s) && s.mode == Csi
    requires AllDigits(g) && |s.digits| + |g| <= MAX_DIGITS
    ensures Run(s, g) == s.(digits := s.digits + g)
    decreases |g|
  {
    if g == [] {
      assert s.digits + g == s.digits;
    } else {
      var t := Step(s, g[0]);
      assert t == s.(digits := s.digits + [g[0]]);
      assert t.digits + g[1..] == s.digits + g;
      RunDigits(t, g[1..]);
    }
  }

  lemma SeparatedCons(gs: seq<seq<byte>>)
    requires gs != []
    ensures Separated(gs) == gs[0] + [SEMICOLON] + Separated(gs[1..])
  {
  }

  /** A ';' with fewer than 16 parameters stored ends the parameter being gathered. */
  lemma SeparatorStores(s: State)
    requires Shaped(s) && s.mode == Csi && s.argc < MAX_ARGS
    ensures Run(s, [SEMICOLON]) == s.(argv := s.argv[s.argc := DecimalValue(s.digits)], argc := s.argc + 1, digits := [])
  {
    RunOne(s, SEMICOLON);
  }

  /** One group and its ';' store the group's value after the stored ones. */
  lemma GroupStores(s: State, g: seq<byte>, done: seq<nat>)
    requires Shaped(s) && s.mode == Csi && s.digits == []
    requires s.argc == |done| && s.argv == Padded(done) && |done| < MAX_ARGS
    requires AllDigits(g) && |g| <= MAX_DIGITS
    ensures Run(s, g + [SEMICOLON]) == s.(argv := Padded(done + [DecimalValue(g)]), argc := |done| + 1)
  {
    var t := s.(digits := g);
    calc {
      Run(s, g + [SEMICOLON]);
      { RunConcat(s, g, [SEMICOLON]); }
      Run(Run(s, g), [SEMICOLON]);
      { RunDigits(s, g); assert s.digits + g == g; }
      Run(t, [SEMICOLON]);
      { SeparatorStores(t); PaddedStore(done, DecimalValue(g)); }
      s.(argv := Padded(done + [DecimalValue(g)]), argc := |done| + 1);
    }
  }

  /** Each group and its ';' store one parameter, while fewer than 16 are stored. */
  lemma {:induction false} RunSeparated(s: State, gs: seq<seq<byte>>, done: seq<nat>)
    requires Shaped(s) && s.mode == Csi && s.digits == []
    requires s.argc == |done| && s.argv == Padded(done) && |done| + |gs| <= MAX_ARGS
    requires forall i :: 0 <= i < |gs| ==> AllDigits(gs[i]) && |gs[i]| <= MAX_DIGITS
    ensures Run(s, Separated(gs)) == s.(argc := |done| + |gs|, argv := Padded(done + Values(gs)))
    decreases |gs|
  {
    if gs == [] {
      assert done + Values(gs) == done;
    } else {
      var g, gs' := gs[0], gs[1..];
      var done' := done + [DecimalValue(g)];
      var u := s.(argv := Padded(done'), argc := |done'|);
      assert done' + Values(gs') == done + Values(gs);
      assert forall i :: 0 <= i < |gs'| ==> gs'[i] == gs[i + 1];
      calc {
        Run(s, Separated(gs));
        { SeparatedCons(gs); RunConcat(s, g + [SEMICOLON], Separated(gs')); }
        Run(Run(s, g + [SEMICOLON]), Separated(gs'));
        { GroupStores(s, g, done); }
        Run(u, Separated(gs'));
        { RunSeparated(u, gs', done'); }
        s.(argc := |done| + |gs|, argv := Padded(done + Values(gs)));
      }
    }
  }

  /** Bytes that may stand inside a sequence's parameter text: digits and ';'. */
  predicate ParameterBytes(bs: seq<byte>) {
    forall i :: 0 <= i < |bs| ==> IsDigit(bs[i]) || bs[i] == SEMICOLON
  }

  /** Once 16 parameters are stored, digits and ';' change nothing but the digit buffer. */
  lemma {:induction false} RunFull(s: State, bs: seq<byte>)
    requires Shaped(s) && s.mode == Csi && s.argc == MAX_ARGS
    requires ParameterBytes(bs)
    ensures Run(s, bs) == s.(digits := Run(s, bs).digits)
    decreases |bs|
  {
    if bs != [] {
      var t := Step(s, bs[0]);
      assert t == s.(digits := t.digits);
      RunFull(t, bs[1..]);
    }
  }

  lemma {:induction false} SeparatedAppend(xs: seq<seq<byte>>, ys: seq<seq<byte>>)
    ensures Separated(xs + ys) == Separated(xs) + Separated(ys)
    decreases |xs|
  {
    if xs == [] {
      assert xs + ys == ys;
    } else {
      assert (xs + ys)[1..] == xs[1..] + ys;
      SeparatedAppend(xs[1..], ys);
    }
  }

  lemma {:induction false} SeparatedBytes(gs: seq<seq<byte>>)
    requires forall i :: 0 <= i < |gs| ==> AllDigits(gs[i])
    ensures ParameterBytes(Separated(gs))
    decreases |gs|
  {
    if gs != [] {
      SeparatedBytes(gs[1..]);
    }
  }

  /** Up to the final group, the text stores the groups; the final group's digits wait in the buffer. */
  lemma TextGathered(s: State, gs: seq<seq<byte>>)
    requires Shaped(s) && s.mode == Csi && s.argc == 0 && s.argv == Padded([]) && s.digits == []
    requires WellFormed(gs) && |gs| <= MAX_ARGS
    ensures Run(s, Text(gs))
            == s.(argc := |gs| - 1, argv := Padded(Values(gs[..|gs| - 1])), digits := gs[|gs| - 1])
  {
    var n := |gs|;
    var init, last := gs[..n - 1], gs[n - 1];
    var t := s.(argc := n - 1, argv := Padded(Values(init)));
    calc {
      Run(s, Text(gs));
      { RunConcat(s, Separated(init), last); }
      Run(Run(s, Separated(init)), last);
      { assert forall i :: 0 <= i < |init| ==> init[i] == gs[i];
        RunSeparated(s, init, []);
        assert [] + Values(init) == Values(init); }
      Run(t, last);
      { RunDigits(t, last); assert t.digits + last == last; }
      t.(digits := last);
    }
  }

  /** Storing the last group's value after the others' gives the values of all groups. */
  lemma PaddedSnoc(gs: seq<seq<byte>>)
    requires 1 <= |gs| <= MAX_ARGS
    ensures var n := |gs|;
      Padded(Values(gs[..n - 1]))[n - 1 := DecimalValue(gs[n - 1])] == Padded(Values(gs))
  {
    var n := |gs|;
    var init, last := gs[..n - 1], gs[n - 1];
    assert init + [last] == gs;
    var vs := Values(init);
    var v := DecimalValue(last);
    calc {
      Padded(vs)[n - 1 := v];
      { PaddedStore(vs, v); }
      Padded(vs + [v]);
      { ValuesSnoc(init, last); }
      Padded(Values(init + [last]));
      Padded(Values(gs));
    }
  }

  /** Closing the last group stores its value after the others. */
  lemma LastStored(s: State, gs: seq<seq<byte>>)
    requires Shaped(s) && s.digits == [] && 1 <= |gs| <= MAX_ARGS && |gs[|gs| - 1]| <= MAX_DIGITS
    ensures var n := |gs|;
      FinishParameter(s.(argc := n - 1, argv := Padded(Values(gs[..n - 1])), digits := gs[n - 1]))
      == s.(argc := n, argv := Padded(Values(gs)))
  {
    PaddedSnoc(gs);
  }

  /** The text of at most 16 parameters stores every one of them. */
  lemma FewParametersGathered(s: State, gs: seq<seq<byte>>)
    requires Shaped(s) && s.mode == Csi && s.argc == 0 && s.argv == Padded([]) && s.digits == []
    requires WellFormed(gs) && |gs| <= MAX_ARGS
    ensures FinishParameter(Run(s, Text(gs))) == s.(argc := |gs|, argv := Padded(Values(gs)))
  {
    TextGathered(s, gs);
    LastStored(s, gs);
  }

  /** The text of more than 16 groups: the first 16 groups with their ';', then the rest. */
  lemma TextSplit(gs: seq<seq<byte>>)
    requires |gs| > MAX_ARGS
    ensures Text(gs) == Separated(gs[..MAX_ARGS]) + (Separated(gs[MAX_ARGS..|gs| - 1]) + gs[|gs| - 1])
  {
    var n := |gs|;
    assert gs[..n - 1] == gs[..MAX_ARGS] + gs[MAX_ARGS..n - 1];
    SeparatedAppend(gs[..MAX_ARGS], gs[MAX_ARGS..n - 1]);
  }

  lemma TailBytes(gs: seq<seq<byte>>)
    requires WellFormed(gs) && |gs| > MAX_ARGS
    ensures ParameterBytes(Separated(gs[MAX_ARGS..|gs| - 1]) + gs[|gs| - 1])
  {
    var n := |gs|;
    var rest, last := gs[MAX_ARGS..n - 1], gs[n - 1];
    assert forall i :: 0 <= i < |rest| ==> AllDigits(rest[i]) by {
      assert forall i :: 0 <= i < |rest| ==> rest[i] == gs[MAX_ARGS + i];
    }
    SeparatedBytes(rest);
    assert AllDigits(last);
  }

  /** The first 16 groups of a text, and what they leave in the argument array. */
  lemma FirstSixteen(gs: seq<seq<byte>>)
    requires WellFormed(gs) && |gs| >= MAX_ARGS
    ensures WellFormed(gs[..MAX_ARGS])
    ensures Padded(Values(gs)) == Padded(Values(gs[..MAX_ARGS]))
  {
    assert forall i :: 0 <= i < MAX_ARGS ==> gs[..MAX_ARGS][i] == gs[i];
    ValuesPrefix(gs, MAX_ARGS);
  }

  /** After the 16th parameter, the remaining groups and separators touch only the digit buffer. */
  lemma RestIgnored(t: State, gs: seq<seq<byte>>)
    requires Shaped(t) && t.mode == Csi && t.argc == MAX_ARGS
    requires WellFormed(gs) && |gs| > MAX_ARGS
    ensures var tail := Separated(gs[MAX_ARGS..|gs| - 1]) + gs[|gs| - 1];
      Run(t, tail) == t.(digits := Run(t, tail).digits)
  {
    TailBytes(gs);
    RunFull(t, Separated(gs[MAX_ARGS..|gs| - 1]) + gs[|gs| - 1]);
  }

  /** The first 16 groups and their separators store the first 16 parameters. */
  lemma SixteenStored(s: State, gs: seq<seq<byte>>)
    requires Shaped(s) && s.mode == Csi && s.argc == 0 && s.argv == Padded([]) && s.digits == []
    requires WellFormed(gs) && |gs| > MAX_ARGS
    ensures Run(s, Separated(gs[..MAX_ARGS])) == s.(argc := MAX_ARGS, argv := Padded(Values(gs)))
  {
    FirstSixteen(gs);
    RunSeparated(s, gs[..MAX_ARGS], []);
    assert [] + Values(gs[..MAX_ARGS]) == Values(gs[..MAX_ARGS]);
  }

  /** The text of more than 16 parameters stores the first 16 and drops the rest. */
  lemma ManyParametersGathered(s: State, gs: seq<seq<byte>>)
    requires Shaped(s) && s.mode == Csi && s.argc == 0 && s.argv == Padded([]) && s.digits == []
    requires WellFormed(gs) && |gs| > MAX_ARGS
    ensures var u := FinishParameter(Run(s, Text(gs)));
      u == s.(argc := MAX_ARGS, argv := Padded(Values(gs)), digits := u.digits)
  {
    var tail := Separated(gs[MAX_ARGS..|gs| - 1]) + gs[|gs| - 1];
    SixteenStored(s, gs);
    TextSplit(gs);
    RunConcat(s, Separated(gs[..MAX_ARGS]), tail);
    RestIgnored(s.(argc := MAX_ARGS, argv := Padded(Values(gs))), gs);
  }

  /** An accumulator that is not in use holds no parameter: every entry is zero. */
  lemma IdleIsPadded(s: State)
    requires Invariant(s) && s.argc == 0
    ensures s.argv == Padded([])
  {
    assert forall i :: 0 <= i < MAX_ARGS ==> s.argv[i] == 0;
  }

  /**
   * The parameter text of a sequence, read from an empty accumulator,
   * leaves exactly the first 16 values for the command: a 17th and later
   * parameter is dropped.
   */
  lemma ParametersGathered(s: State, gs: seq<seq<byte>>)
    requires Invariant(s) && s.mode == Csi && s.argc == 0 && s.digits == []
    requires WellFormed(gs)
    ensures var u := FinishParameter(Run(s, Text(gs)));
      u == s.(argc := Min(|gs|, MAX_ARGS), argv := Padded(Values(gs)), digits := u.digits)
  {
    IdleIsPadded(s);
    if |gs| <= MAX_ARGS {
      FewParametersGathered(s, gs);
    } else {
      ManyParametersGathered(s, gs);
    }
  }

  /** A command reads neither the mode nor the digit buffer, and leaves both alone. */
  lemma CommandIgnoresModeAndDigits(s: State, m: Mode, d: seq<byte>, c: byte)
    requires Shaped(s) && |d| <= MAX_DIGITS
    ensures Command(s.(mode := m, digits := d), c) == Command(s, c).(mode := m, digits := d)
  {
  }

  /** `ESC [` from Normal mode enters the control-sequence handler. */
  lemma EnterCsi(s: State)
    requires Shaped(s) && s.mode == Normal
    ensures Run(s, [ESC, LEFT_BRACKET]) == s.(mode := Csi)
  {
    RunTwo(s, ESC, LEFT_BRACKET);
  }

  /** A control sequence is its introducer, its parameter text and its final byte in turn. */
  lemma SequenceRuns(s: State, gs: seq<seq<byte>>, f: byte)
    requires Shaped(s) && s.mode == Normal && |gs| >= 1
    ensures Run(s, ControlSequence(gs, f)) == Step(Run(s.(mode := Csi), Text(gs)), f)
  {
    EnterCsi(s);
    RunConcat(s, [ESC, LEFT_BRACKET], Text(gs));
    RunSnoc(s, [ESC, LEFT_BRACKET] + Text(gs), f);
  }

  /** Clearing the first entries of a padded list clears all of them. */
  lemma ZeroedPadded(vs: seq<nat>)
    ensures Zeroed(Padded(vs), Min(|vs|, MAX_ARGS)) == seq(MAX_ARGS, _ => 0)
  {
  }

  /**
   * The final byte of a sequence whose parameters are gathered runs the
   * command on them, then empties the accumulator again.
   */
  lemma FinalByte(s: State, t: State, k: nat, p: seq<nat>, f: byte)
    requires Shaped(s) && s.mode == Normal && s.digits == [] && k <= MAX_ARGS && |p| == MAX_ARGS
    requires Zeroed(p, k) == s.argv
    requires Shaped(t) && t.mode == Csi
    requires FinishParameter(t) == s.(mode := Csi, argc := k, argv := p, digits := FinishParameter(t).digits)
    requires IsFinal(f)
    ensures Step(t, f) == Command(s.(argc := k, argv := p), f).(argc := 0, argv := s.argv)
  {
    var v := s.(argc := k, argv := p);
    var d := FinishParameter(t).digits;
    CommandIgnoresModeAndDigits(v, Csi, d, f);
    assert Step(t, f) == EndSequence(Command(v.(mode := Csi, digits := d), f), f);
  }

  /**
   * A whole control sequence, from Normal mode, is its command run with
   * the first 16 parameters, after which the accumulator is as empty as
   * before and the mode is Normal again.
   */
  lemma ControlSequenceEffect(s: State, gs: seq<seq<byte>>, f: byte)
    requires Invariant(s) && s.mode == Normal
    requires WellFormed(gs) && IsFinal(f)
    ensures Run(s, ControlSequence(gs, f))
            == Command(s.(argc := Min(|gs|, MAX_ARGS), argv := Padded(Values(gs))), f).(argc := 0, argv := s.argv)
  {
    var c := s.(mode := Csi);
    IdleArgumentsAreZero(s);
    ZeroedPadded(Values(gs));
    SequenceRuns(s, gs, f);
    ParametersGathered(c, gs);
    FinalByte(s, Run(c, Text(gs)), Min(|gs|, MAX_ARGS), Padded(Values(gs)), f);
  }

  /** Parameters after the 16th make no difference to a sequence. */
  lemma ExtraParametersIgnored(s: State, gs: seq<seq<byte>>, f: byte)
    requires Invariant(s) && s.mode == Normal
    requires WellFormed(gs) && |gs| > MAX_ARGS && IsFinal(f)
    ensures Run(s, ControlSequence(gs, f)) == Run(s, ControlSequence(gs[..MAX_ARGS], f))
  {
    FirstSixteen(gs);
    ControlSequenceEffect(s, gs, f);
    ControlSequenceEffect(s, gs[..MAX_ARGS], f);
  }

  // ---------------------------------------------------------------------
  // Concrete sequences

  /** `ESC [ A` and `ESC [ 0 A` both move the cursor up exactly one row, stopping at row 0. */
  lemma CursorUpDefaultsToOne(s: State)
    requires Invariant(s) && s.mode == Normal
    ensures Run(s, [ESC, LEFT_BRACKET, CUU]) == s.(cursorRow := Max(0, s.cursorRow - 1))
    ensures Run(s, [ESC, LEFT_BRACKET, DIGIT_ZERO, CUU]) == s.(cursorRow := Max(0, s.cursorRow - 1))
  {
    IdleArgumentsAreZero(s);
    ControlSequenceEffect(s, [[]], CUU);
    assert ControlSequence([[]], CUU) == [ESC, LEFT_BRACKET, CUU];
    ControlSequenceEffect(s, [[DIGIT_ZERO]], CUU);
    assert ControlSequence([[DIGIT_ZERO]], CUU) == [ESC, LEFT_BRACKET, DIGIT_ZERO, CUU];
  }

  /** The text `5;10` holds the parameters 5 and 10. */
  lemma FiveTenText()
    ensures var gs := [[0x35 as byte], [0x31 as byte, 0x30]];
      && WellFormed(gs)
      && ControlSequence(gs, CUP) == [ESC, LEFT_BRACKET, 0x35, SEMICOLON, 0x31, 0x30, CUP]
      && Padded(Values(gs))[0] == 5 && Padded(Values(gs))[1] == 10
  {
    var gs := [[0x35 as byte], [0x31 as byte, 0x30]];
    assert Text(gs) == [0x35, SEMICOLON, 0x31, 0x30] by {
      assert gs[..1] == [[0x35 as byte]];
      assert Separated(gs[..1]) == [0x35, SEMICOLON];
    }
    assert DecimalValue([0x31 as byte, 0x30]) == 10 by {
      assert [0x31 as byte, 0x30][..1] == [0x31];
    }
    assert Values(gs) == [5, 10] by {
      assert Values(gs[1..]) == [10];
    }
  }

  /** `ESC [ 5 ; 1 0 H` puts the cursor on row 4, column 9. */
  lemma CursorPositionExample(s: State)
    requires Invariant(s) && s.mode == Normal
    ensures Run(s, [ESC, LEFT_BRACKET, 0x35, SEMICOLON, 0x31, 0x30, CUP]) == s.(cursorRow := 4, cursorCol := 9)
  {
    var gs := [[0x35 as byte], [0x31 as byte, 0x30]];
    FiveTenText();
    ControlSequenceEffect(s, gs, CUP);
    var v := s.(argc := 2, argv := Padded(Values(gs)));
    assert Command(v, CUP) == v.(cursorRow := 4, cursorCol := 9);
  }

  /** A bare `ESC [ m` is `ESC [ 0 m`: the attributes return to the defaults, nothing is logged. */
  lemma BareRenditionResets(s: State)
    requires Invariant(s) && s.mode == Normal
    ensures Run(s, [ESC, LEFT_BRACKET, SGR]) == s.(current := s.defaults)
    ensures Run(s, [ESC, LEFT_BRACKET, DIGIT_ZERO, SGR]) == s.(current := s.defaults)
  {
    IdleArgumentsAreZero(s);
    ControlSequenceEffect(s, [[]], SGR);
    assert ControlSequence([[]], SGR) == [ESC, LEFT_BRACKET, SGR];
    assert Padded(Values([[]]))[..1] == [0];
    ControlSequenceEffect(s, [[DIGIT_ZERO]], SGR);
    assert ControlSequence([[DIGIT_ZERO]], SGR) == [ESC, LEFT_BRACKET, DIGIT_ZERO, SGR];
    assert Padded(Values([[DIGIT_ZERO]]))[..1] == [0];
  }

  /** A bare `ESC [ r` sets both margins to -1: the region is taken unchecked. */
  lemma BareScrollRegion(s: State)
    requires Invariant(s) && s.mode == Normal
    ensures Run(s, [ESC, LEFT_BRACKET, DECSTBM]) == s.(scrollStart := -1, scrollEnd := -1)
  {
    IdleArgumentsAreZero(s);
    ControlSequenceEffect(s, [[]], DECSTBM);
    assert ControlSequence([[]], DECSTBM) == [ESC, LEFT_BRACKET, DECSTBM];
  }

  /**
   * `ESC [ n A` then `ESC [ n B` comes back to the starting row when
   * neither motion is stopped at an edge.
   */
  lemma UpThenDownReturns(s: State, n: nat)
    requires Invariant(s) && s.mode == Normal
    requires 1 <= n <= s.cursorRow < s.height && |Digits(n)| <= MAX_DIGITS
    ensures Run(s, ControlSequence([Digits(n)], CUU) + ControlSequence([Digits(n)], CUD)) == s
  {
    IdleArgumentsAreZero(s);
    RunConcat(s, ControlSequence([Digits(n)], CUU), ControlSequence([Digits(n)], CUD));
    ControlSequenceEffect(s, [Digits(n)], CUU);
    var t := s.(cursorRow := s.cursorRow - n);
    assert Run(s, ControlSequence([Digits(n)], CUU)) == t;
    ControlSequenceEffect(t, [Digits(n)], CUD);
  }

  // ---------------------------------------------------------------------
  // Routing of whole streams

  /** ESC inside a control sequence ends it, returning to Normal; it does not start a new one. */
  lemma EscapeEndsControlSequence(s: State)
    requires Invariant(s) && s.mode == Normal
    ensures Run(s, [ESC, LEFT_BRACKET, ESC]) == s.(log := s.log + [UnhandledCsi(ESC)])
  {
    IdleArgumentsAreZero(s);
    ControlSequenceEffect(s, [[]], ESC);
    assert ControlSequence([[]], ESC) == [ESC, LEFT_BRACKET, ESC];
  }

  /** ESC right after ESC is an unhandled escape and returns to Normal. */
  lemma EscapeAfterEscape(s: State)
    requires Shaped(s) && s.mode == Normal
    ensures Run(s, [ESC, ESC]) == s.(log := s.log + [UnhandledEscape(ESC)])
  {
    RunTwo(s, ESC, ESC);
  }

  /**
   * A stream without ESC, read in Normal mode, stays in Normal mode and
   * touches neither the attributes, the scroll region, the accumulator nor the log.
   */
  lemma {:induction false} NoEscapeStaysNormal(s: State, bytes: seq<byte>)
    requires Shaped(s) && s.mode == Normal
    requires forall i :: 0 <= i < |bytes| ==> bytes[i] != ESC
    ensures var r := Run(s, bytes);
      && r.mode == Normal
      && r.current == s.current && r.scrollStart == s.scrollStart && r.scrollEnd == s.scrollEnd
      && r.argc == s.argc && r.argv == s.argv && r.digits == s.digits && r.log == s.log
    decreases |bytes|
  {
    if bytes != [] {
      NoEscapeStaysNormal(Step(s, bytes[0]), bytes[1..]);
    }
  }

  /**
   * An operating system command is discarded up to its terminator,
   * whatever the payload holds, escape sequences included.
   */
  lemma {:induction false} OscPayloadDiscarded(s: State, payload: seq<byte>, t: byte)
    requires Shaped(s) && s.mode == Osc
    requires forall i :: 0 <= i < |payload| ==> !OscTerminates(payload[i])
    requires OscTerminates(t)
    ensures Run(s, payload + [t]) == s.(mode := Normal)
    decreases |payload|
  {
    if payload == [] {
      RunOne(s, t);
    } else {
      assert (payload + [t])[1..] == payload[1..] + [t];
      OscPayloadDiscarded(Step(s, payload[0]), payload[1..], t);
    }
  }

  /** `ESC ] payload BEL` from Normal mode leaves the terminal exactly as it was. */
  lemma OscSequenceIsNoOp(s: State, payload: seq<byte>)
    requires Shaped(s) && s.mode == Normal
    requires forall i :: 0 <= i < |payload| ==> !OscTerminates(payload[i])
    ensures Run(s, [ESC, RIGHT_BRACKET] + payload + [BEL]) == s
  {
    RunTwo(s, ESC, RIGHT_BRACKET);
    assert [ESC, RIGHT_BRACKET] + payload + [BEL] == [ESC, RIGHT_BRACKET] + (payload + [BEL]);
    RunConcat(s, [ESC, RIGHT_BRACKET], payload + [BEL]);
    OscPayloadDiscarded(s.(mode := Osc), payload, BEL);
  }

  /** `ESC ( x` selects a character set, which is ignored: nothing changes. */
  lemma CharsetDesignationIsNoOp(s: State, x: byte)
    requires Shaped(s) && s.mode == Normal
    ensures Run(s, [ESC, LEFT_PAREN, x]) == s
  {
    RunThree(s, ESC, LEFT_PAREN, x);
  }

  /**
   * Two displayable bytes written from the last column: the first lands
   * in that column and leaves the cursor one past the edge; the second
   * wraps to the start of the next row, leaving the cursor in column 1.
   */
  lemma WrapAtRightEdge(s: State, a: byte, b: byte)
    requires Shaped(s) && s.mode == Normal && s.width >= 1
    requires s.cursorCol == s.width - 1 && s.cursorRow < s.scrollEnd
    requires Displayable(a) && Displayable(b)
    ensures var r := Run(s, [a, b]);
      var e := Effective(s.current);
      && r == s.(cursorRow := s.cursorRow + 1, cursorCol := 1, grid := r.grid)
      && r.grid == s.grid + [SetColors(e.foreground, e.background), Set(s.cursorRow, s.width - 1, a),
                             SetColors(e.foreground, e.background), Set(s.cursorRow + 1, 0, b)]
  {
    RunTwo(s, a, b);
  }
}
