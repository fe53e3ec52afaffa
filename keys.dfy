/** Key decoding: the pure part of `Shell._get_key` (shyt/sh.py).

    The editor reads up to three bytes, decodes them to characters and turns
    the result into one integer key code.  Up and Down arrows (ESC [ A and
    ESC [ B) become negated codes so that they cannot be confused with a
    literally typed 'A' or 'B'; everything else is the code of a character. */
module Keys {

  /** The key codes the editor dispatches on. */
  const Up: int := -65
  const Down: int := -66
  const Tab: int := 9
  const Enter: int := 10
  const Right: int := 67
  const Left: int := 68
  const Delete: int := 127

  /** A Unicode scalar value, i.e. the code of some `char`. */
  predicate IsCharCode(n: int) {
    0 <= n < 0xD800 || 0xE000 <= n < 0x11_0000
  }

  /** Every value the decoder can produce. */
  predicate IsKeyCode(n: int) {
    n == Up || n == Down || IsCharCode(n)
  }

  /** The key code of one decoded read.  An empty read (end of input)
      makes `k[-1]` raise IndexError in the source, which ends the editor;
      the model requires a non-empty read. */
  function Decode(k: string): (r: int)
    requires |k| > 0
    ensures IsKeyCode(r)
    ensures r < 0 <==> |k| == 3 && (k[2] == 'A' || k[2] == 'B')
    ensures r < 0 ==> r == -(k[2] as int)
    ensures r >= 0 ==> r == k[|k| - 1] as int
  {
    match |k|
    case 3 =>
      var c := k[2] as int;
      if c == 65 || c == 66 then -c else c
    case 1 => k[0] as int
    case _ => k[|k| - 1] as int
  }

  /** A single character decodes to itself: converting the code back gives
      the character that was typed. */
  lemma DecodeSingleRoundTrip(c: char)
    ensures Decode([c]) >= 0 && Decode([c]) as char == c
  {
  }

  /** Only a three-character read ending in 'A' gives Up, and only one
      ending in 'B' gives Down. */
  lemma ArrowsOnlyFromEscapes(k: string)
    requires |k| > 0
    ensures Decode(k) == Up <==> |k| == 3 && k[2] == 'A'
    ensures Decode(k) == Down <==> |k| == 3 && k[2] == 'B'
  {
  }

  /** ESC [ A is Up, ESC [ B is Down, ESC [ C and ESC [ D are the plain codes
      of 'C' and 'D', and a lone 'A' is the character 'A'. */
  lemma DecodeExamples()
    ensures Decode(['\U{1B}', '[', 'A']) == Up
    ensures Decode(['\U{1B}', '[', 'B']) == Down
    ensures Decode(['\U{1B}', '[', 'C']) == Right
    ensures Decode(['\U{1B}', '[', 'D']) == Left
    ensures Decode("A") == 65
  {
  }
}
