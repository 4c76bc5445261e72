/**
 * Bytes of the host's output stream, the ASCII codes the interpreter
 * reacts to, and the decimal value of a CSI parameter's digit string.
 */
module Bytes {

  /** One byte of the stream, read as an unsigned value 0..255. */
  newtype byte = x: int | 0 <= x < 256

  // C0 controls handled in Normal mode
  const BEL: byte := 0x07
  const BS: byte := 0x08
  const LF: byte := 0x0A
  const CR: byte := 0x0D
  const ESC: byte := 0x1B

  // Bytes that select the next handler after ESC
  const LEFT_PAREN: byte := 0x28   // '('
  const RIGHT_BRACKET: byte := 0x5D  // ']'
  const LEFT_BRACKET: byte := 0x5B   // '['

  // Bytes with a meaning inside a control sequence
  const QUESTION: byte := 0x3F   // '?'
  const SEMICOLON: byte := 0x3B  // ';'
  const DIGIT_ZERO: byte := 0x30 // '0'
  const DIGIT_NINE: byte := 0x39 // '9'

  // Final bytes of the control sequences that are dispatched
  const CUU: byte := 0x41  // 'A' cursor up
  const CUD: byte := 0x42  // 'B' cursor down
  const CUF: byte := 0x43  // 'C' cursor forward
  const CUB: byte := 0x44  // 'D' cursor back
  const CHA: byte := 0x47  // 'G' cursor character absolute
  const CUP: byte := 0x48  // 'H' cursor position
  const ED: byte := 0x4A   // 'J' erase in display
  const EL: byte := 0x4B   // 'K' erase in line
  const IL: byte := 0x4C   // 'L' insert line
  const DL: byte := 0x4D   // 'M' delete line
  const DCH: byte := 0x50  // 'P' delete character
  const ICH: byte := 0x40  // '@' insert character
  const VPA: byte := 0x64  // 'd' line position absolute
  const SGR: byte := 0x6D  // 'm' select graphic rendition
  const DECSTBM: byte := 0x72  // 'r' set top and bottom margins

  // Bytes that end an operating system command
  const ST: byte := 0x9C         // C1 string terminator
  const BACKSLASH: byte := 0x5C  // '\', the second byte of ESC '\'

  predicate IsDigit(c: byte) {
    DIGIT_ZERO <= c <= DIGIT_NINE
  }

  predicate AllDigits(ds: seq<byte>) {
    forall i :: 0 <= i < |ds| ==> IsDigit(ds[i])
  }

  /** The value of one ASCII digit (0 for any other byte, which never occurs in a parameter). */
  function DigitValue(c: byte): (v: nat)
    ensures v <= 9
    ensures IsDigit(c) ==> v == c as int - DIGIT_ZERO as int
  {
    if IsDigit(c) then (c - DIGIT_ZERO) as nat else 0
  }

  /**
   * What `atoi` returns for a buffer of ASCII digits: their decimal value,
   * the most significant digit first. An empty buffer gives 0.
   */
  function DecimalValue(ds: seq<byte>): (n: nat)
    ensures ds == [] ==> n == 0
    ensures |ds| == 1 ==> n == DigitValue(ds[0])
  {
    if ds == [] then 0
    else
      var init := ds[..|ds| - 1];
      assert |init| < |ds|;
      DecimalValue(init) * 10 + DigitValue(ds[|ds| - 1])
  }

  function Pow10(k: nat): (p: nat)
    ensures p >= 1
  {
    if k == 0 then 1 else 10 * Pow10(k - 1)
  }

  /** A parameter of k digits is below 10^k, whatever C's `int` can hold. */
  lemma {:induction false} DecimalValueBound(ds: seq<byte>)
    ensures DecimalValue(ds) < Pow10(|ds|)
  {
    if ds != [] {
      DecimalValueBound(ds[..|ds| - 1]);
    }
  }

  /** Leading zeros do not change a parameter's value: "007" reads as 7. */
  lemma {:induction false} LeadingZero(ds: seq<byte>)
    ensures DecimalValue([DIGIT_ZERO] + ds) == DecimalValue(ds)
  {
    if ds != [] {
      var init := ds[..|ds| - 1];
      assert ([DIGIT_ZERO] + ds)[..|ds|] == [DIGIT_ZERO] + init;
      LeadingZero(init);
    }
  }

  /** The bytes of a decimal literal, as they appear in a control sequence. */
  function Digits(n: nat): (ds: seq<byte>)
    ensures ds != [] && AllDigits(ds)
    ensures DecimalValue(ds) == n
  {
    if n < 10 then [(DIGIT_ZERO as int + n) as byte]
    else
      var init := Digits(n / 10);
      var last := (DIGIT_ZERO as int + n % 10) as byte;
      assert (init + [last])[..|init|] == init;
      init + [last]
  }
}
