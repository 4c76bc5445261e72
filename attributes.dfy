/**
 * Character attributes and the SELECT GRAPHIC RENDITION command (section
 * 8.3.117 of ECMA-48), in the subset and with the quirks of the terminal:
 * codes 0, 1, 4, 7, 27, 30-39, 40-47 and 49 only; 27 clears reverse video
 * but not bold.
 */
module Attributes {
  import opened Trace

  /** The attributes a cell is written with. Colours are palette indices. */
  datatype Attributes = Attributes(
    foreground: int,
    background: int,
    bold: bool,
    underscore: bool,
    reverse: bool)

  /** The colour pair handed to the grid before a cell is written. */
  datatype Colors = Colors(foreground: int, background: int)

  /** An index of the 16-colour palette: 8 base colours and their bright variants. */
  predicate IsColor(x: int) {
    0 <= x <= 15
  }

  /** Both colours of an attribute set are palette indices. */
  predicate Palette(a: Attributes) {
    IsColor(a.foreground) && IsColor(a.background)
  }

  /**
   * The colours a displayable byte is drawn in: foreground and background
   * are exchanged under reverse video, and bold then brightens a base
   * foreground colour (0..7) to its high-intensity variant.
   */
  function Effective(a: Attributes): (r: Colors)
    ensures r.background == (if a.reverse then a.foreground else a.background)
    ensures var base := if a.reverse then a.background else a.foreground;
            r.foreground == (if a.bold && base <= 7 then base + 8 else base)
    ensures IsColor(a.foreground) && IsColor(a.background) ==>
              IsColor(r.foreground) && IsColor(r.background)
    ensures !a.reverse && !a.bold ==> r == Colors(a.foreground, a.background)
  {
    var fg := if a.reverse then a.background else a.foreground;
    var bg := if a.reverse then a.foreground else a.background;
    Colors(if a.bold && fg <= 7 then fg + 8 else fg, bg)
  }

  /** The SGR values the terminal acts on; any other value is only logged. */
  predicate IsRendition(v: nat) {
    v in {0, 1, 4, 7, 27, 38, 39, 49} || 30 <= v <= 37 || 40 <= v <= 47
  }

  /**
   * One SGR value applied to the current attributes `a`, with `d` the
   * session's default attributes.
   */
  function Rendition(a: Attributes, d: Attributes, v: nat): (r: Attributes)
    // what each value does
    ensures v == 0 ==> r == d
    ensures v == 1 ==> r == a.(bold := true)
    ensures v == 4 ==> r == a.(underscore := true)
    ensures v == 7 ==> r == a.(reverse := true)
    ensures v == 27 ==> r == a.(reverse := false)
    ensures 30 <= v <= 37 ==> r == a.(foreground := v - 30)
    ensures 40 <= v <= 47 ==> r == a.(background := v - 40)
    ensures v == 38 ==> r == a.(underscore := true, foreground := d.foreground)
    ensures v == 39 ==> r == a.(underscore := false, foreground := d.foreground)
    ensures v == 49 ==> r == a.(background := d.background)
    ensures !IsRendition(v) ==> r == a
    // which values can touch which attribute
    ensures r.bold != a.bold ==> v == 0 || v == 1
    ensures r.reverse != a.reverse ==> v in {0, 7, 27}
    ensures r.underscore != a.underscore ==> v in {0, 4, 38, 39}
    ensures r.foreground != a.foreground ==> v == 0 || 30 <= v <= 39
    ensures r.background != a.background ==> v == 0 || 40 <= v <= 47 || v == 49
  {
    if v == 0 then d
    else if v == 1 then a.(bold := true)
    else if v == 4 then a.(underscore := true)
    else if 30 <= v <= 37 then a.(foreground := v - 30)
    else if 40 <= v <= 47 then a.(background := v - 40)
    else if v == 38 then a.(underscore := true, foreground := d.foreground)
    else if v == 39 then a.(underscore := false, foreground := d.foreground)
    else if v == 49 then a.(background := d.background)
    else if v == 7 then a.(reverse := true)
    else if v == 27 then a.(reverse := false)
    // A second test for 27, meant to clear bold, follows in the C chain and
    // can never be reached; it is not written here.
    else a
  }

  /**
   * The values of one SGR sequence applied left to right, the leftmost first
   * (given here by peeling off the last value).
   */
  function Renditions(a: Attributes, d: Attributes, vs: seq<nat>): (r: Attributes)
    ensures (forall i :: 0 <= i < |vs| ==> !IsRendition(vs[i])) ==> r == a
    ensures (forall i :: 0 <= i < |vs| ==> vs[i] != 0) && a.bold ==> r.bold
    ensures (forall i :: 0 <= i < |vs| ==> vs[i] != 0 && vs[i] != 4 && vs[i] != 38 && vs[i] != 39) ==>
              r.underscore == a.underscore
    decreases |vs|
  {
    if vs == [] then a
    else Rendition(Renditions(a, d, vs[..|vs| - 1]), d, vs[|vs| - 1])
  }

  /** The diagnostics one SGR sequence logs: one entry per unhandled value, in order. */
  function RenditionLog(vs: seq<nat>): (r: seq<LogEntry>)
    ensures |r| <= |vs|
    // a single value is logged exactly when it is not handled
    ensures |vs| == 1 ==> r == (if IsRendition(vs[0]) then [] else [UnhandledRendition(vs[0])])
    ensures (forall i :: 0 <= i < |vs| ==> IsRendition(vs[i])) ==> r == []
    ensures forall j :: 0 <= j < |r| ==> r[j].UnhandledRendition? && !IsRendition(r[j].value)
    decreases |vs|
  {
    if vs == [] then []
    else
      var init := RenditionLog(vs[..|vs| - 1]);
      var v := vs[|vs| - 1];
      if IsRendition(v) then init else init + [UnhandledRendition(v)]
  }

  /**
   * SGR keeps attributes within the palette as long as the defaults are:
   * it stores only `v - 30`, `v - 40` or a default colour.
   */
  lemma {:induction false} RenditionsKeepPalette(a: Attributes, d: Attributes, vs: seq<nat>)
    requires Palette(a) && Palette(d)
    ensures Palette(Renditions(a, d, vs))
    decreases |vs|
  {
    if vs != [] {
      RenditionsKeepPalette(a, d, vs[..|vs| - 1]);
    }
  }

  /** Applying two sequences one after the other is applying their concatenation. */
  lemma {:induction false} RenditionsConcat(a: Attributes, d: Attributes, xs: seq<nat>, ys: seq<nat>)
    ensures Renditions(a, d, xs + ys) == Renditions(Renditions(a, d, xs), d, ys)
    decreases |ys|
  {
    if ys == [] {
      assert xs + ys == xs;
    } else {
      var ys' := ys[..|ys| - 1];
      assert (xs + ys)[..|xs + ys| - 1] == xs + ys';
      RenditionsConcat(a, d, xs, ys');
    }
  }

  /**
   * A reset anywhere in a sequence discards everything before it: the
   * result is the defaults with only the values after the reset applied.
   */
  lemma ResetDiscardsEarlier(a: Attributes, d: Attributes, vs: seq<nat>, k: nat)
    requires k < |vs| && vs[k] == 0
    ensures Renditions(a, d, vs) == Renditions(d, d, vs[k + 1..])
  {
    var pre, post := vs[..k + 1], vs[k + 1..];
    assert vs == pre + post;
    assert pre[..|pre| - 1] == vs[..k];
    RenditionsConcat(a, d, pre, post);
  }

  /** The list of unhandled values of two sequences is the two lists joined. */
  lemma {:induction false} RenditionLogConcat(xs: seq<nat>, ys: seq<nat>)
    ensures RenditionLog(xs + ys) == RenditionLog(xs) + RenditionLog(ys)
    decreases |ys|
  {
    if ys == [] {
      assert xs + ys == xs;
    } else {
      var ys' := ys[..|ys| - 1];
      assert (xs + ys)[..|xs + ys| - 1] == xs + ys';
      RenditionLogConcat(xs, ys');
    }
  }
}
