/** The frame encoder and serial transport of script.js: `sendData`, which
    assembles, transforms and hex-encodes the frame and writes it through a
    50 ms throttle and a repeat filter, and the state changes of
    `onDisconnected` and of a successful `connectSerial`.

    The transport state is specified by `LinkState` and the step function
    `Send`; `SerialLink` holds the same fields as mutable state (the
    source's global `state` record) and its methods are proved to follow
    those functions. The clock and the outcome of the serial write are
    parameters. */
module Transport {
  import opened Bitmap
  import opened Patterns
  import opened Hex

  /** Minimum time between two written lines, in milliseconds. */
  const THROTTLE_MS: real := 50.0

  /** `serialWriter`/`serialPort` presence, `lastSent`, `lastSentTime`. */
  datatype LinkState = LinkState(writerPresent: bool, portPresent: bool, lastSent: string, lastSentTime: real)

  /** What one `sendData` call did: returned early for lack of a writer,
      for the throttle or for a repeat, or handed `line` to the writer,
      which accepted or rejected it. */
  datatype Outcome = NoWriter | Throttled | Duplicate | Written(line: string) | WriteFailed(line: string)

  /** The state at page load. */
  const INITIAL: LinkState := LinkState(false, false, "", 0.0)

  /** Rotation first (skipped when it is 0), then the optional mirror. */
  function TransformFrame(frame: seq<bv8>, rotation: int, mirror: bool): (g: seq<bv8>)
    requires |frame| == 8
    ensures |g| == 8
  {
    var rotated := if rotation != 0 then Rotate(frame, rotation) else frame;
    if mirror then Mirrored(rotated) else rotated
  }

  /** The line `sendData` builds for a pair of codes. */
  function FrameLine(eyeIdx: int, mouthIdx: int, rotation: int, mirror: bool): (line: string)
    ensures |line| == 17 && line[16] == '\n'
  {
    WireLine(TransformFrame(AssembleFrame(eyeIdx, mouthIdx), rotation, mirror))
  }

  /** `onDisconnected`: writer and port are dropped; `lastSent` and
      `lastSentTime` are left as they were. */
  function Disconnect(s: LinkState): (r: LinkState)
    ensures !r.writerPresent && !r.portPresent
    ensures r.lastSent == s.lastSent && r.lastSentTime == s.lastSentTime
  {
    s.(writerPresent := false, portPresent := false)
  }

  /** A successful `connectSerial`: a port and a writer are attached;
      `lastSent` and `lastSentTime` are left as they were. */
  function Connect(s: LinkState): (r: LinkState)
    ensures r.writerPresent && r.portPresent
    ensures r.lastSent == s.lastSent && r.lastSentTime == s.lastSentTime
  {
    s.(writerPresent := true, portPresent := true)
  }

  /** One `sendData(eyeIdx, mouthIdx)` call at time `now`, the write
      succeeding exactly when `writeOk`. Whatever the outcome, only a
      successful write moves `lastSent` and `lastSentTime`, and only a
      failed one drops the writer and the port. */
  function Send(s: LinkState, eyeIdx: int, mouthIdx: int, now: real, rotation: int, mirror: bool, writeOk: bool)
    : (r: (LinkState, Outcome))
    ensures r.1.NoWriter? <==> !s.writerPresent
    ensures r.0.lastSent == if r.1.Written? then r.1.line else s.lastSent
    ensures r.0.lastSentTime == if r.1.Written? then now else s.lastSentTime
    ensures r.0.writerPresent == (s.writerPresent && !r.1.WriteFailed?)
    ensures r.0.portPresent == (s.portPresent && !r.1.WriteFailed?)
  {
    if !s.writerPresent then (s, NoWriter)
    else if now - s.lastSentTime < THROTTLE_MS then (s, Throttled)
    else
      var line := FrameLine(eyeIdx, mouthIdx, rotation, mirror);
      if s.lastSent == line then (s, Duplicate)
      else if writeOk then (s.(lastSent := line, lastSentTime := now), Written(line))
      else (Disconnect(s), WriteFailed(line))
  }

  // ----- Properties of the encoder -----

  /** The line for any pair of codes, valid or not, is 16 upper-case hex
      digits and a newline, byte `k` of the transformed frame in
      characters `2k` and `2k + 1`. */
  lemma FrameLineFormat(eyeIdx: int, mouthIdx: int, rotation: int, mirror: bool)
    ensures var line, g := FrameLine(eyeIdx, mouthIdx, rotation, mirror),
                           TransformFrame(AssembleFrame(eyeIdx, mouthIdx), rotation, mirror);
      && |line| == 17 && line[16] == '\n'
      && (forall i :: 0 <= i < 16 ==> line[i] in UPPER_DIGITS)
      && (forall k :: 0 <= k < 8 ==>
            line[2 * k] == UPPER_DIGITS[g[k] as nat / 16] && line[2 * k + 1] == UPPER_DIGITS[g[k] as nat % 16])
  {
    WireLineFormat(TransformFrame(AssembleFrame(eyeIdx, mouthIdx), rotation, mirror));
  }

  /** With no rotation and no mirror the assembled frame goes out as is. */
  lemma UntransformedFrame(frame: seq<bv8>)
    requires |frame| == 8
    ensures TransformFrame(frame, 0, false) == frame
    ensures TransformFrame(frame, 0, true) == Mirrored(frame)
  {
  }

  /** Rotation is applied before the mirror: a quarter turn followed by the
      mirror transposes the frame, pixel (i, j) going to (j, i), whereas
      mirroring first would send it to (7 - j, 7 - i). */
  lemma RotateThenMirror(frame: seq<bv8>, i: nat, j: nat)
    requires |frame| == 8 && i < 8 && j < 8
    ensures Bits.Pixel(TransformFrame(frame, 90, true), j, i) == Bits.Pixel(frame, i, j)
    ensures Bits.Pixel(Rotate(Mirrored(frame), 90), 7 - j, 7 - i) == Bits.Pixel(frame, i, j)
  {
    var rotated := Rotate(frame, 90);
    Rotate90Pixel(frame, i, j);
    MirrorPixel(rotated, j, 7 - i);
    Rotate90Pixel(Mirrored(frame), i, 7 - j);
    MirrorPixel(frame, i, j);
  }

  // ----- Properties of the transport step -----

  /** Without a writer nothing happens. */
  lemma SendWithoutWriter(s: LinkState, eyeIdx: int, mouthIdx: int, now: real, rotation: int, mirror: bool, writeOk: bool)
    requires !s.writerPresent
    ensures Send(s, eyeIdx, mouthIdx, now, rotation, mirror, writeOk) == (s, NoWriter)
  {
  }

  /** Within 50 ms of the last written line nothing is written and the state
      is unchanged, even when the new line differs from the last one: the
      throttle is checked before the repeat filter. */
  lemma SendThrottled(s: LinkState, eyeIdx: int, mouthIdx: int, now: real, rotation: int, mirror: bool, writeOk: bool)
    requires s.writerPresent && now - s.lastSentTime < THROTTLE_MS
    ensures Send(s, eyeIdx, mouthIdx, now, rotation, mirror, writeOk) == (s, Throttled)
  {
  }

  /** A write is attempted exactly when a writer is present, at least 50 ms
      have passed and the line differs from the last one written; the
      state changes only in that case. */
  lemma SendWritesIff(s: LinkState, eyeIdx: int, mouthIdx: int, now: real, rotation: int, mirror: bool, writeOk: bool)
    ensures var (s', out) := Send(s, eyeIdx, mouthIdx, now, rotation, mirror, writeOk);
      && ((out.Written? || out.WriteFailed?) <==>
            s.writerPresent && now - s.lastSentTime >= THROTTLE_MS
            && s.lastSent != FrameLine(eyeIdx, mouthIdx, rotation, mirror))
      && (!(out.Written? || out.WriteFailed?) ==> s' == s)
      && ((out.Written? || out.WriteFailed?) ==> out.line == FrameLine(eyeIdx, mouthIdx, rotation, mirror))
  {
    var line := FrameLine(eyeIdx, mouthIdx, rotation, mirror);
    if s.writerPresent && now - s.lastSentTime >= THROTTLE_MS && s.lastSent != line {
      assert Send(s, eyeIdx, mouthIdx, now, rotation, mirror, writeOk).1 == if writeOk then Written(line) else WriteFailed(line);
    }
  }

  /** A successful write records the line and the time and keeps the writer. */
  lemma SendSuccess(s: LinkState, eyeIdx: int, mouthIdx: int, now: real, rotation: int, mirror: bool)
    requires s.writerPresent && now - s.lastSentTime >= THROTTLE_MS
    requires s.lastSent != FrameLine(eyeIdx, mouthIdx, rotation, mirror)
    ensures var (s', out) := Send(s, eyeIdx, mouthIdx, now, rotation, mirror, true);
      && out == Written(FrameLine(eyeIdx, mouthIdx, rotation, mirror))
      && s' == LinkState(true, s.portPresent, FrameLine(eyeIdx, mouthIdx, rotation, mirror), now)
  {
  }

  /** A failed write drops writer and port but keeps `lastSent` and
      `lastSentTime`. */
  lemma SendFailure(s: LinkState, eyeIdx: int, mouthIdx: int, now: real, rotation: int, mirror: bool)
    requires s.writerPresent && now - s.lastSentTime >= THROTTLE_MS
    requires s.lastSent != FrameLine(eyeIdx, mouthIdx, rotation, mirror)
    ensures var (s', out) := Send(s, eyeIdx, mouthIdx, now, rotation, mirror, false);
      && out == WriteFailed(FrameLine(eyeIdx, mouthIdx, rotation, mirror))
      && s' == LinkState(false, false, s.lastSent, s.lastSentTime)
  {
  }

  /** Written lines are at least 50 ms apart: at most 20 lines a second. */
  lemma WritesSpaced(s: LinkState, eyeIdx: int, mouthIdx: int, now: real, rotation: int, mirror: bool, writeOk: bool)
    ensures var (s', out) := Send(s, eyeIdx, mouthIdx, now, rotation, mirror, writeOk);
      out.Written? ==> s'.lastSentTime >= s.lastSentTime + THROTTLE_MS
  {
  }

  /** The repeat filter drops exactly the repeats: when the last line was
      written for frame `g`, a new frame is dropped as a duplicate if and
      only if it transforms to `g` itself. */
  lemma DuplicateIffSameFrame(s: LinkState, g: seq<bv8>, eyeIdx: int, mouthIdx: int, now: real, rotation: int,
                              mirror: bool, writeOk: bool)
    requires s.writerPresent && now - s.lastSentTime >= THROTTLE_MS
    requires s.lastSent == WireLine(g)
    ensures Send(s, eyeIdx, mouthIdx, now, rotation, mirror, writeOk).1 == Duplicate <==>
      TransformFrame(AssembleFrame(eyeIdx, mouthIdx), rotation, mirror) == g
  {
    WireLineInjective(TransformFrame(AssembleFrame(eyeIdx, mouthIdx), rotation, mirror), g);
  }

  /** The same codes sent again after a successful write are never written
      a second time: within 50 ms they are throttled, later they are
      dropped as a repeat, whatever the write would do. */
  lemma RepeatWrittenOnce(s: LinkState, eyeIdx: int, mouthIdx: int, now: real, later: real, rotation: int,
                          mirror: bool, writeOk: bool)
    requires Send(s, eyeIdx, mouthIdx, now, rotation, mirror, true).1.Written?
    ensures var s1 := Send(s, eyeIdx, mouthIdx, now, rotation, mirror, true).0;
      && (later - now < THROTTLE_MS ==> Send(s1, eyeIdx, mouthIdx, later, rotation, mirror, writeOk) == (s1, Throttled))
      && (later - now >= THROTTLE_MS ==> Send(s1, eyeIdx, mouthIdx, later, rotation, mirror, writeOk) == (s1, Duplicate))
  {
  }

  /** After a failed write nothing more is written until a reconnect. */
  lemma FailureStopsWrites(s: LinkState, eyeIdx: int, mouthIdx: int, now: real, rotation: int, mirror: bool,
                           e2: int, m2: int, later: real, writeOk: bool)
    requires Send(s, eyeIdx, mouthIdx, now, rotation, mirror, false).1.WriteFailed?
    ensures var s1 := Send(s, eyeIdx, mouthIdx, now, rotation, mirror, false).0;
      Send(s1, e2, m2, later, rotation, mirror, writeOk) == (s1, NoWriter)
  {
  }

  /** Neither a disconnect nor a reconnect clears `lastSent`: after a
      reconnect the line last written before it is still filtered out. */
  lemma ReconnectKeepsLastSent(s: LinkState, eyeIdx: int, mouthIdx: int, now: real, rotation: int, mirror: bool,
                               writeOk: bool)
    requires s.lastSent == FrameLine(eyeIdx, mouthIdx, rotation, mirror)
    requires now - s.lastSentTime >= THROTTLE_MS
    ensures Send(Connect(Disconnect(s)), eyeIdx, mouthIdx, now, rotation, mirror, writeOk).1 == Duplicate
  {
  }

  // ----- The mutable transport state -----

  /** The encoding part of `sendData`: the glyph rows copied into a
      `Uint8Array`, rotated when the angle is not 0, then mirrored when
      asked, and written as hex digits and a newline. */
  method EncodeFrame(eyeIdx: int, mouthIdx: int, rotation: int, mirror: bool) returns (data: string)
    ensures data == FrameLine(eyeIdx, mouthIdx, rotation, mirror)
  {
    var frame := AssembleFrame(eyeIdx, mouthIdx);
    var allBytes := new bv8[8](i requires 0 <= i < 8 => frame[i]);
    assert allBytes[..] == frame;
    if rotation != 0 {
      allBytes := Rotate8x8(allBytes, rotation);
    }
    if mirror {
      allBytes := Mirror8x8(allBytes);
    }
    assert allBytes[..] == TransformFrame(frame, rotation, mirror);
    data := HexString(allBytes[..]) + "\n";
  }

  /** The transport fields of the source's global `state` record. */
  class SerialLink {
    var writerPresent: bool
    var portPresent: bool
    var lastSent: string
    var lastSentTime: real

    function State(): LinkState
      reads this
    {
      LinkState(writerPresent, portPresent, lastSent, lastSentTime)
    }

    /** The initial `state`: no port, no writer, nothing sent at time 0. */
    constructor ()
      ensures State() == INITIAL
    {
      writerPresent, portPresent := false, false;
      lastSent, lastSentTime := "", 0.0;
    }

    /** The state change of a successful `connectSerial`. */
    method Connected()
      modifies this
      ensures State() == Connect(old(State()))
    {
      portPresent := true;
      writerPresent := true;
    }

    /** `onDisconnected`. */
    method OnDisconnected()
      modifies this
      ensures State() == Disconnect(old(State()))
    {
      writerPresent := false;
      portPresent := false;
    }

    /** `sendData`, with the clock reading and the write's outcome as
        parameters; it returns what it did. */
    method SendData(eyeIdx: int, mouthIdx: int, now: real, rotation: int, mirror: bool, writeOk: bool)
      returns (outcome: Outcome)
      modifies this
      ensures (State(), outcome) == Send(old(State()), eyeIdx, mouthIdx, now, rotation, mirror, writeOk)
    {
      if !writerPresent {
        return NoWriter;
      }
      if now - lastSentTime < THROTTLE_MS {
        return Throttled;
      }
      var data := EncodeFrame(eyeIdx, mouthIdx, rotation, mirror);
      if lastSent == data {
        return Duplicate;
      }
      if writeOk {
        lastSent := data;
        lastSentTime := now;
        outcome := Written(data);
      } else {
        OnDisconnected();
        outcome := WriteFailed(data);
      }
    }
  }
}
