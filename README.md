# face_led: the frame pipeline of script.js in Dafny

script.js reads a face and hands from the webcam. It picks an eye expression
(one of 15 codes) and a mouth expression (one of 5). It draws them as an 8x8
LED bitmap and sends that bitmap over Web Serial as a line of hexadecimal
text. This project models the part of that pipeline that decides and encodes:

- `Classifier` holds the eye and mouth decision cascades of `processFace`.
  They work over already-computed features and the `Config` thresholds. It
  also holds the two-hand "TT pose" override, which can replace the eye code
  but never the mouth code.
- `Patterns` holds the `EyesIdx`/`MouthIdx` codes and the glyph tables. It
  also holds the fallback lookup and the assembly of the eight-byte frame.
- `Bits` and `Bitmap` hold `rotate8x8` and `mirror8x8`:
  - the frame's bit permutations are written as functions on `seq<bv8>`;
  - the source's nested loops are methods that fill a fresh `array<bv8>`,
    proved to compute those functions;
  - the lemmas cover pixel movement, the rotation group laws and the mirror
    involution.
- `Hex` holds the wire text. `toString(16)`, `toUpperCase` and `padStart`
  are modelled on the values they receive here: a byte value, the digits
  `[0-9a-f]` and the pad `'0'`. They are proved to give two
  digits per byte from the base16 alphabet of section 8 of RFC 4648. A
  decoder proves the encoding injective.
- `Transport` holds `sendData`, `onDisconnected` and the state change of a
  successful `connectSerial`:
  - a step function `Send` over `LinkState`, with lemmas about the throttle,
    the repeat filter and the write outcome;
  - a class `SerialLink` whose fields are the transport part of the global
    `state` record, and whose `SendData` runs the array methods and is
    proved to follow `Send`.

The clock reading (`performance.now()`) and the outcome of the serial write
are parameters, as are the rotation angle and the mirror flag.

Neither `onDisconnected` (script.js:302-304) nor `connectSerial`
(script.js:279-281) touches `lastSent` or `lastSentTime`. So a frame
identical to the last one written before a reconnect is still dropped as a
repeat (`ReconnectKeepsLastSent`).

## Model

| member | source | states |
|---|---|---|
| `Bits.ShiftIsMask` | script.js:121-122 | the one-bit byte `1 << k` used by the loops is the listed mask for every bit position 0-7 |
| `Bits.ShiftTest` | script.js:154 | `(b >> bit) & 1` is non-zero exactly when bit `bit` of `b` is set, i.e. the same test as `b & (1 << bit)` |
| `Bitmap.Rotate` | script.js:114-146 | the frame `rotate8x8` returns for an angle is always eight bytes long |
| `Bitmap.Mirrored` | script.js:148-161 | the frame `mirror8x8` returns has the input's length |
| `Bitmap.ReverseBits` | script.js:151-158 | bit k of the reversed byte is bit 7 - k of the input, for every k in 0..7 |
| `Bitmap.RotateZero` | script.js:115 | angle 0 returns the input unchanged |
| `Bitmap.Rotate90Pixel` | script.js:118-124 | a 90-degree turn moves the pixel at (row i, column j) to (row j, column 7 - i) |
| `Bitmap.Rotate180Pixel` | script.js:126-135 | a 180-degree turn moves pixel (i, j) to (7 - i, 7 - j) |
| `Bitmap.Rotate270Pixel` | script.js:136-144 | a 270-degree turn moves pixel (i, j) to (7 - j, i) |
| `Bitmap.RotateOther` | script.js:117-145 | any angle other than 0, 90, 180 and 270 returns eight zero bytes |
| `Bitmap.Rotate90At` | script.js:118-124 | pixel (r, c) of the quarter turn is pixel (7 - c, r) of the input, for all 64 pixels |
| `Bitmap.Rotate270At` | script.js:136-144 | pixel (r, c) of the 270-degree turn is pixel (c, 7 - r) of the input, for all 64 pixels |
| `Bitmap.FourQuarterTurns` | script.js:114-146 | four 90-degree rotations give back the original frame |
| `Bitmap.HalfTurnIsTwoQuarterTurns` | script.js:114-146 | the 180 branch equals the 90 branch applied twice |
| `Bitmap.ThreeQuarterTurnUndoesQuarterTurn` | script.js:114-146 | the 270 branch undoes the 90 branch |
| `Bitmap.QuarterTurnUndoesThreeQuarterTurn` | script.js:114-146 | the 90 branch undoes the 270 branch |
| `Bitmap.MirrorPixel` | script.js:148-161 | mirroring keeps each row in place and moves column j to column 7 - j |
| `Bitmap.ReverseBitsTwice` | script.js:151-158 | reversing the bits of a byte twice gives the byte back |
| `Bitmap.MirrorTwice` | script.js:148-161 | mirroring twice is the identity, for a buffer of any length |
| `Bitmap.Rotate8x8` | script.js:114-146 | angle 0 returns the very same buffer; any other angle returns a fresh eight-byte buffer; the contents equal `Rotate` of the input |
| `Bitmap.Turn90Step` | script.js:120-122 | one inner step of the 90 loop sets at most bit i of row j, and only when pixel (i, j) is lit |
| `Bitmap.Turn90Bit` | script.js:118-124 | part way through the 90 loop, bit b of buffer row r is set exactly when pixel (b, r) was visited and is lit |
| `Bitmap.Turn90DoneRow` | script.js:118-124 | after the 90 loop, each buffer row is the matching row of the quarter turn |
| `Bitmap.Turn90Done` | script.js:118-124 | after the 90 loop, the whole buffer is the quarter turn |
| `Bitmap.QuarterTurn` | script.js:118-124 | the 90-degree loops fill a fresh eight-byte buffer with `Rotate(src, 90)` |
| `Bitmap.PartialReverseBit` | script.js:129-133 | after `n` steps of a bit-reversal loop, bit k of the result is bit 7 - k of the input once that bit was visited, else 0 |
| `Bitmap.PartialReverseDone` | script.js:129-133 | a finished bit-reversal loop yields the reversed byte |
| `Bitmap.HalfTurn` | script.js:126-135 | the 180-degree loops fill a fresh eight-byte buffer with `Rotate(src, 180)` |
| `Bitmap.Turn270Step` | script.js:138-140 | one inner step of the 270 loop sets at most bit 7 - i of row 7 - j, and only when pixel (i, j) is lit |
| `Bitmap.Turn270Bit` | script.js:136-144 | part way through the 270 loop, bit b of buffer row r is set exactly when pixel (7 - b, 7 - r) was visited and is lit |
| `Bitmap.Turn270DoneRow` | script.js:136-144 | after the 270 loop, each buffer row is the matching row of the 270-degree turn |
| `Bitmap.Turn270Done` | script.js:136-144 | after the 270 loop, the whole buffer is the 270-degree turn |
| `Bitmap.ThreeQuarterTurn` | script.js:136-144 | the 270-degree loops fill a fresh eight-byte buffer with `Rotate(src, 270)` |
| `Bitmap.Mirror8x8` | script.js:148-161 | returns a fresh buffer whose byte i is the bit reversal of input byte i, with rows in order and length kept |
| `Patterns.EYE_PATTERNS` | script.js:35-66 | holds the 15 eye glyphs of the source in code order, five row bytes each, with the same values as the binary literals (for example `CLOSE_TIGHTLY` is `0x81, 0x42, 0x24, 0x42, 0x81`) |
| `Patterns.MOUTH_PATTERNS` | script.js:68-79 | holds the 5 mouth glyphs in code order, three row bytes each, with the same values as the binary literals |
| `Patterns.CodesIndexTables` | script.js:9-33 | the `EyesIdx` constants are 0-14 and the `MouthIdx` constants 0-4, in the order of the glyph tables, so each code indexes its own glyph |
| `Patterns.GazeGlyphLayout` | script.js:36-53 | the nine gaze glyphs have brow row `0xE7`, a blank second row, and the pupil pair `0x21`/`0x42`/`0x84` (by column) in row 2 + code / 3, every other row blank |
| `Patterns.TablesWellFormed` | script.js:35-79 | there are 15 eye glyphs of exactly 5 rows and 5 mouth glyphs of exactly 3 rows |
| `Patterns.EyeRows` | script.js:322 | an index inside the table picks its glyph; any other index falls back to `MID_MID` |
| `Patterns.MouthRows` | script.js:323 | an index inside the table picks its glyph; any other index falls back to `CLOSE` |
| `Patterns.AssembleFrame` | script.js:322-325 | the assembled frame is always 8 bytes: the 5 eye rows first, then the 3 mouth rows |
| `Hex.ToStringRadix16` | script.js:337 | `n.toString(16)`: the number's lower-case hexadecimal digits without leading zeros; no contract of its own, its value on byte values is stated by `Radix16Length` and `Radix16OfByte` |
| `Hex.UpperChar` | script.js:337 | upper-casing a lower-case hex digit gives the base16 digit of the same value |
| `Hex.ToUpperCase` | script.js:337 | upper-casing keeps the length |
| `Hex.PadStart` | script.js:337 | padding gives at least the requested width and ends with the original string |
| `Hex.UpperDigit` | script.js:337 | upper-casing the lower-case digit of value d gives the base16 digit of value d |
| `Hex.Radix16Length` | script.js:337 | `toString(16)` of a byte value has one or two digits |
| `Hex.HexByte` | script.js:337 | one byte becomes exactly two characters, a single digit being padded |
| `Hex.Radix16OfByte` | script.js:337 | `toString(16)` of a byte value has one digit below 16 and two digits from 16 on |
| `Hex.UpperDigits` | script.js:337 | upper-casing one or two lower-case hex digits gives the base16 digits of the same values |
| `Hex.PaddedDigits` | script.js:337 | every byte value becomes exactly two upper-case digits, high nibble first |
| `Hex.HexByteDigits` | script.js:337 | the two characters of a byte are the base16 digits of its high and low nibble |
| `Hex.Join` | script.js:337 | `join('')`: no contract of its own; `JoinPairs` states where each piece lands |
| `Hex.JoinPairs` | script.js:337 | joining two-character pieces gives two characters per piece, piece k in characters 2k and 2k + 1 |
| `Hex.HexPieces` | script.js:337 | `map` over the bytes gives one two-character piece per byte |
| `Hex.HexString` | script.js:337 | the joined hex string has two characters per byte |
| `Hex.WireLine` | script.js:337-338 | the line is the hex string and one newline, two characters per byte plus one, ending in `'\n'` |
| `Hex.HexStringAt` | script.js:337 | byte k occupies characters 2k and 2k + 1 of the hex string |
| `Hex.DigitsInAlphabet` | script.js:337 | a string laid out as two base16 digits per byte holds only base16 digits |
| `Hex.WireLineFormat` | script.js:337-338 | the line for an eight-byte frame has 17 characters: 16 upper-case hex digits, with byte k zero-padded into positions 2k and 2k + 1, then `'\n'` |
| `Hex.DigitValue` | script.js:337 | (inverse of the line written at 337, used to prove `WireLineInjective`; the source has no reader) reading a character as a base16 digit gives a value below 16 |
| `Hex.DigitRoundTrip` | script.js:337 | every base16 digit reads back as its own value |
| `Hex.DecodeDigits` | script.js:337 | the two digits of a byte value read back as that value |
| `Hex.DecodePair` | script.js:337 | (inverse of the line written at 337) the two nibble digits of a byte, held in any string, read back as that byte |
| `Hex.DecodeHexByte` | script.js:337 | the two characters of a byte read back as that byte |
| `Hex.DecodePairs` | script.js:337 | (inverse of the line written at 337, used to prove `WireLineInjective`) a string whose pair k reads as byte k, for every k, decodes to those bytes |
| `Hex.DecodeHexString` | script.js:337 | decoding the hex string gives back the bytes, for a byte sequence of any length |
| `Hex.WireLineInjective` | script.js:337-340 | two frames give the same line if and only if they are the same frame |
| `Classifier.DEFAULT_CONFIG` | script.js:82-94 | holds the eleven starting thresholds of `Config` in declaration order: 0.095, 0.53, 0.15, 0.15, 0.4, 0.6, 0.35, 0.65, 0.15, -0.02, 0.25 |
| `Classifier.Abs` | script.js:499 | `Math.abs` is non-negative and equals `x` or `-x` |
| `Classifier.AvgEAR` | script.js:466 | the average eye ratio lies between the two eye ratios |
| `Classifier.GazeColumn` | script.js:506-508 | the gaze column is 0, 1 or 2 |
| `Classifier.GazeRow` | script.js:510-512 | the gaze row is 0, 1 or 2 |
| `Classifier.ClassifyEyes` | script.js:495-515 | the eye code is always in 0..13, whatever the thresholds |
| `Classifier.EyePriority` | script.js:495-503 | first match wins, both ways: `CLOSE_TIGHTLY` iff both ratios are below the tight threshold; `CLOSE` iff not that and the average is below the open threshold; `WINK_RIGHT`/`WINK_LEFT` iff neither earlier rule fired and the difference exceeds the wink threshold, right when lEAR < rEAR; `OPEN` iff no earlier rule fired and the average exceeds the wide threshold |
| `Classifier.GazeCell` | script.js:504-515 | the code is a gaze cell (below 9) iff no eye-state rule fired, and then it is row * 3 + column |
| `Classifier.WinkSide` | script.js:499-501 | a wink is given to the side with the smaller ratio, by more than the wink threshold |
| `Classifier.InvertedGazeBounds` | script.js:506-508 | with `gazeHLeft > gazeHRight` the middle column is never chosen |
| `Classifier.ClassifyMouth` | script.js:518-528 | the mouth code is always in 0..4 |
| `Classifier.MouthPriority` | script.js:518-528 | first match wins, both ways: `KISS` iff the mouth is narrow, whatever the aspect ratio; `OPEN` iff not narrow and the aspect ratio is above the open threshold; `SMILE`, `SCOWL` and `CLOSE` only when both earlier tests fail, on the bands below the smile threshold, above twice its magnitude, and in between |
| `Classifier.SmileBandsDisjoint` | script.js:522-525 | the smile and scowl tests never both hold, for any sign of the threshold |
| `Classifier.ScreenLeftSign` | script.js:537-547 | the sign on the screen-left side (wrist left of the nose, index finger down, thumb tip right of its joint); a hand making it never makes the screen-right sign |
| `Classifier.ScreenRightSign` | script.js:537-550 | the sign on the screen-right side (wrist not left of the nose, index finger down, thumb tip left of its joint); no contract of its own, its exclusion with the left sign is stated on `ScreenLeftSign` |
| `Classifier.TTPose` | script.js:531-556 | the pose holds iff some hand makes the screen-left sign and some hand the screen-right sign; the `length >= 2` guard changes nothing |
| `Classifier.ApplyGesture` | script.js:531-557 | the loop over the hands returns `TT_POSE` exactly when there are at least two hands, one making the sign left of the nose and one right of it; otherwise it returns the eye code unchanged |
| `Classifier.TTPoseNeedsTwoHands` | script.js:536-555 | the pose holds iff two different hands make the left and the right sign |
| `Classifier.HandCountGuardImplied` | script.js:531-555 | whenever some hand makes the left sign and some hand the right sign, there are at least two hands |
| `Classifier.ClassifyFrame` | script.js:491-557 | the mouth code is the mouth cascade's and is never touched by the gesture; the eye code is `TT_POSE` on the pose, else the eye cascade's; the codes are in 0..14 and 0..4 |
| `Classifier.ExampleTightlyClosed` | script.js:82-94 | with the default thresholds, ratios of 0.05 read as tightly closed |
| `Classifier.ExampleWideOpen` | script.js:82-94 | with the default thresholds, an average ratio of 0.6 with a small left/right difference reads as wide open |
| `Classifier.ExampleGazeMidRight` | script.js:82-94 | with the default thresholds, a horizontal ratio of 0.3 and a middle vertical ratio give `MID_RIGHT` |
| `Classifier.ExampleKiss` | script.js:82-94 | with the default thresholds, a mouth-width ratio of 0.2 is a kiss whatever the other features |
| `Transport.THROTTLE_MS` | script.js:318-320 | holds the 50 ms minimum interval between written lines |
| `Transport.INITIAL` | script.js:101-104 | holds the serial fields of `state` at page load: no port, no writer, `lastSent` empty, `lastSentTime` 0 |
| `Transport.FrameLine` | script.js:322-338 | the line built for any pair of codes is 17 characters long and ends in `'\n'` |
| `Transport.Disconnect` | script.js:302-304 | `onDisconnected` clears writer and port and keeps `lastSent` and `lastSentTime` |
| `Transport.Connect` | script.js:279-281 | a successful connect sets writer and port and keeps `lastSent` and `lastSentTime` |
| `Transport.Send` | script.js:315-350 | one `sendData` call: it returns early exactly when there is no writer; `lastSent` and `lastSentTime` move only on a successful write, to the written line and now; writer and port are dropped only on a failed write |
| `Transport.TransformFrame` | script.js:327-335 | rotating (when the angle is not 0), then mirroring, keeps eight bytes |
| `Transport.FrameLineFormat` | script.js:322-338 | for any pair of codes, valid or not, the line is 16 upper-case hex digits and a newline, byte k of the transformed frame in characters 2k and 2k + 1 |
| `Transport.UntransformedFrame` | script.js:327-335 | with rotation 0 the frame is not rotated: it goes out as is, or only mirrored |
| `Transport.RotateThenMirror` | script.js:327-335 | rotation comes before the mirror: 90 then mirror transposes the frame, unlike mirror then 90 |
| `Transport.SendWithoutWriter` | script.js:316 | with no writer the call does nothing |
| `Transport.SendThrottled` | script.js:318-320 | within 50 ms of the last written line nothing is written and the state is unchanged, even for a new line |
| `Transport.SendWritesIff` | script.js:315-350 | a write is attempted iff there is a writer, 50 ms have passed and the line differs from `lastSent`; otherwise the state is unchanged |
| `Transport.SendSuccess` | script.js:342-346 | a successful write sets `lastSent` to the line and `lastSentTime` to now, and keeps writer and port |
| `Transport.SendFailure` | script.js:347-349 | a failed write clears writer and port and leaves `lastSent` and `lastSentTime` untouched |
| `Transport.WritesSpaced` | script.js:318-346 | a written line comes at least 50 ms after the previous written line |
| `Transport.DuplicateIffSameFrame` | script.js:340 | the repeat filter drops a frame iff it transforms to the frame last written |
| `Transport.RepeatWrittenOnce` | script.js:315-346 | the same codes are never written twice in a row: next time they are throttled or dropped as a repeat |
| `Transport.FailureStopsWrites` | script.js:302-304 | after a failed write nothing more is written until a reconnect |
| `Transport.ReconnectKeepsLastSent` | script.js:279-304 | disconnecting and reconnecting does not clear `lastSent`: the same line is still dropped |
| `Transport.EncodeFrame` | script.js:322-338 | copying the glyph rows into a `Uint8Array`, rotating and mirroring it in buffers and hex-encoding it gives exactly the line `FrameLine` specifies |
| `Transport.SerialLink.constructor` | script.js:97-110 | the initial state: no port, no writer, empty `lastSent`, `lastSentTime` 0 |
| `Transport.SerialLink.Connected` | script.js:279-281 | a successful connect attaches port and writer and changes nothing else |
| `Transport.SerialLink.OnDisconnected` | script.js:302-304 | clears writer and port and changes nothing else |
| `Transport.SerialLink.SendData` | script.js:315-350 | checks the writer and the throttle, encodes the frame with `EncodeFrame`, filters a repeat and writes; the outcome and the new fields are exactly those of `Send` |

## Left out

- Feature extraction is left out (script.js:357-387, 464-487): `dist`, `Math.sqrt`, the ratio divisions and the iris ratios. The classifier takes the features as exact reals, so the non-finite values those divisions can produce are not modelled. They behave differently:
  - NaN (a zero divided by zero) fails every comparison it enters. A frame whose features are all NaN therefore falls through both cascades to the defaults, `MID_MID` (column 1, row 1) and `CLOSE`.
  - ±Infinity (a non-zero length divided by a zero width) compares as an extreme value. A zero left eye width at script.js:464 gives `lEAR = +Infinity`; with a finite `rEAR` the wink test at script.js:499 then holds and script.js:500-501 return `WINK_LEFT`. An `avgH` of +Infinity passes `avgH > Config.gazeHRight` at script.js:508 and takes column 0.
- Classifier.ClassifyEyes: computes `lEAR - rEAR` (script.js:499) and `(lEAR + rEAR) / 2` (script.js:466) exactly over the reals, and the thresholds in `DEFAULT_CONFIG` are the exact decimals. The source rounds both results, and the thresholds, to doubles. The decision can therefore differ when a rounded value lands on a threshold. Example: with `lEAR = 0.19984414894068545`, `rEAR = 0.049844148940685444` and `eyeWinkDiff = 0.15`, the exact difference exceeds 0.15, so the model returns `WINK_LEFT`. In the source the subtraction rounds to exactly the double 0.15, the test `> Config.eyeWinkDiff` at script.js:499 fails, neither earlier rule fires (`lEAR >= 0.15`, average about 0.125), and the source falls through to a gaze cell (script.js:504-515). The average at script.js:466 can round onto `eyeOpenThreshold` or `eyeWideOpenThreshold` in the same way. A feature equal to the double nearest a threshold is a tie of the same kind. Away from values within rounding distance of a threshold the two agree.
- `getEAR`, `getMAR` and `getIrisRatio` are unused in the source and are not modelled.
- The MediaPipe imports and landmarker set-up are left out. They are foreign library calls that load models over the network.
- Webcam acquisition and the `requestAnimationFrame` loop are left out, because they are browser I/O and scheduling.
- Drawing, DOM status and debug text, the menu, the sliders and the reset button are left out, because they are UI. `Config`, the rotation angle and the mirror flag are plain inputs.
- Web Serial I/O is left out: `requestPort`, `open`, `getWriter`, `TextEncoder` and the awaited `write`. A successful `connectSerial` is `Connected`. The write is a boolean `writeOk` input, and a rejected write takes the catch branch.
- The overlap of concurrent `sendData` calls is left out. `lastSent` is only updated after the `await`, and the model runs each call to completion.
- `performance.now()` is the `now` parameter.
- The rotation angle is an integer, so a NaN angle is not modelled. Such an angle passes the `!== 0` test (script.js:328) and falls through every branch of `rotate8x8` to eight zero bytes (script.js:117, 145). That is the result `RotateOther` proves for every other angle.
- Table entries below 256 are not a separate lemma. The tables are typed `bv8`, so every entry is a byte value and the `Uint8Array` holds exactly the listed numbers.
- Classifier.ApplyGesture: requires every hand to carry the 21 landmarks of the hand landmarker. The source assumes this, and reading a missing landmark would throw.
- The loops test and set bits with `Bit(x, k)` and `SetBit(x, k)`, not with a literal shift. `Bits.ShiftIsMask` and `Bits.ShiftTest` prove these are the same bits as the source's `x & (1 << k)`, `x |= 1 << k` and `(b >> k) & 1`.
- Hex.ToUpperCase: maps only the ASCII letters `a`-`z`, where JavaScript applies full Unicode case mapping, which can change the length. `Hex.ToStringRadix16` takes only a `nat`, where JavaScript also formats negative and fractional numbers. `Hex.PadStart` takes a one-character pad, not a pad string. script.js:337 passes only byte values, the digits `[0-9a-f]` and the pad `'0'`, and on those inputs the three are exact.
