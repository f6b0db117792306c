/** The expression codes and the glyph tables of script.js (`EyesIdx`,
    `MouthIdx`, `EYE_PATTERNS`, `MOUTH_PATTERNS`) and the assembly of the
    eight-byte frame that `sendData` performs before transforming it. */
module Patterns {

  // ----- EyesIdx -----
  const UPPER_LEFT: int := 0
  const UPPER_MID: int := 1
  const UPPER_RIGHT: int := 2
  const MID_LEFT: int := 3
  const MID_MID: int := 4
  const MID_RIGHT: int := 5
  const LOWER_LEFT: int := 6
  const LOWER_MID: int := 7
  const LOWER_RIGHT: int := 8
  const EYES_CLOSE: int := 9
  const CLOSE_TIGHTLY: int := 10
  const WINK_LEFT: int := 11
  const WINK_RIGHT: int := 12
  const EYES_OPEN: int := 13
  const TT_POSE: int := 14

  // ----- MouthIdx -----
  const SMILE: int := 0
  const SCOWL: int := 1
  const MOUTH_CLOSE: int := 2
  const MOUTH_OPEN: int := 3
  const KISS: int := 4

  /** Rows 0-4 of the frame for each eye code. The source writes them as
      binary literals; all of them are byte values, so they are `bv8` here
      and the `Uint8Array` built from them holds exactly these numbers. */
  const EYE_PATTERNS: seq<seq<bv8>> := [
    [0xE7, 0x00, 0x21, 0x00, 0x00],  // UPPER_LEFT
    [0xE7, 0x00, 0x42, 0x00, 0x00],  // UPPER_MID
    [0xE7, 0x00, 0x84, 0x00, 0x00],  // UPPER_RIGHT
    [0xE7, 0x00, 0x00, 0x21, 0x00],  // MID_LEFT
    [0xE7, 0x00, 0x00, 0x42, 0x00],  // MID_MID
    [0xE7, 0x00, 0x00, 0x84, 0x00],  // MID_RIGHT
    [0xE7, 0x00, 0x00, 0x00, 0x21],  // LOWER_LEFT
    [0xE7, 0x00, 0x00, 0x00, 0x42],  // LOWER_MID
    [0xE7, 0x00, 0x00, 0x00, 0x84],  // LOWER_RIGHT
    [0x00, 0x00, 0x00, 0xE7, 0x00],  // CLOSE
    [0x81, 0x42, 0x24, 0x42, 0x81],  // CLOSE_TIGHTLY
    [0x80, 0x40, 0x27, 0x40, 0x80],  // WINK_LEFT
    [0x01, 0x02, 0xE4, 0x02, 0x01],  // WINK_RIGHT
    [0x42, 0xA5, 0xA5, 0xA5, 0x42],  // OPEN
    [0x00, 0xE7, 0x42, 0x42, 0x42]   // TT_POSE
  ]

  /** Rows 5-7 of the frame for each mouth code. */
  const MOUTH_PATTERNS: seq<seq<bv8>> := [
    [0x00, 0x42, 0x3C],  // SMILE
    [0x00, 0x3C, 0x42],  // SCOWL
    [0x00, 0x7E, 0x00],  // CLOSE
    [0x3C, 0x24, 0x3C],  // OPEN
    [0x18, 0x18, 0x00]   // KISS
  ]

  /** Both tables cover every code, each eye glyph has five rows and each
      mouth glyph three, so together they fill exactly one 8x8 frame. */
  lemma TablesWellFormed()
    ensures |EYE_PATTERNS| == 15 && |MOUTH_PATTERNS| == 5
    ensures forall e :: 0 <= e < 15 ==> |EYE_PATTERNS[e]| == 5
    ensures forall m :: 0 <= m < 5 ==> |MOUTH_PATTERNS[m]| == 3
  {
  }

  /** The codes number the glyphs in table order: eye codes 0-14 and mouth
      codes 0-4, each code the index of its own glyph. */
  lemma CodesIndexTables()
    ensures [UPPER_LEFT, UPPER_MID, UPPER_RIGHT, MID_LEFT, MID_MID, MID_RIGHT,
             LOWER_LEFT, LOWER_MID, LOWER_RIGHT, EYES_CLOSE, CLOSE_TIGHTLY,
             WINK_LEFT, WINK_RIGHT, EYES_OPEN, TT_POSE] == seq(15, i => i)
    ensures [SMILE, SCOWL, MOUTH_CLOSE, MOUTH_OPEN, KISS] == seq(5, i => i)
  {
  }

  /** The nine gaze glyphs share the brow row 0xE7 and a blank row 1; the
      pupil pair sits in row 2 + (code / 3) and moves one bit left per
      column (code % 3), every other row blank. */
  lemma GazeGlyphLayout()
    ensures forall e :: 0 <= e < 9 ==>
      |EYE_PATTERNS[e]| == 5 && EYE_PATTERNS[e][0] == 0xE7 && EYE_PATTERNS[e][1] == 0x00
      && forall k :: 2 <= k < 5 ==>
           EYE_PATTERNS[e][k] == (if k == 2 + e / 3 then [0x21, 0x42, 0x84][e % 3] else 0x00)
  {
  }

  /** `EYE_PATTERNS[eyeIdx] || EYE_PATTERNS[MID_MID]`:an index outside the
      table falls back to the mid-gaze glyph. */
  function EyeRows(eyeIdx: int): (rows: seq<bv8>)
    ensures |rows| == 5
    ensures 0 <= eyeIdx < 15 ==> rows == EYE_PATTERNS[eyeIdx]
    ensures !(0 <= eyeIdx < 15) ==> rows == EYE_PATTERNS[MID_MID]
  {
    TablesWellFormed();
    if 0 <= eyeIdx < |EYE_PATTERNS| then EYE_PATTERNS[eyeIdx] else EYE_PATTERNS[MID_MID]
  }

  /** `MOUTH_PATTERNS[mouthIdx] || MOUTH_PATTERNS[CLOSE]`: an index outside
      the table falls back to the closed mouth. */
  function MouthRows(mouthIdx: int): (rows: seq<bv8>)
    ensures |rows| == 3
    ensures 0 <= mouthIdx < 5 ==> rows == MOUTH_PATTERNS[mouthIdx]
    ensures !(0 <= mouthIdx < 5) ==> rows == MOUTH_PATTERNS[MOUTH_CLOSE]
  {
    TablesWellFormed();
    if 0 <= mouthIdx < |MOUTH_PATTERNS| then MOUTH_PATTERNS[mouthIdx] else MOUTH_PATTERNS[MOUTH_CLOSE]
  }

  /** `new Uint8Array([...eyeBytes, ...mouthBytes])`: always eight bytes,
      the eye rows first and the mouth rows after them. */
  function AssembleFrame(eyeIdx: int, mouthIdx: int): (f: seq<bv8>)
    ensures |f| == 8
    ensures f[..5] == EyeRows(eyeIdx) && f[5..] == MouthRows(mouthIdx)
  {
    EyeRows(eyeIdx) + MouthRows(mouthIdx)
  }

}
