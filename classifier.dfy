/** The classification section of `processFace` in script.js: the eye and
    mouth decision cascades over already-extracted features and the tuning
    thresholds (`Config`), then the two-hand "TT pose" override, which may
    replace the eye code and never touches the mouth code. */
module Classifier {
  import opened Patterns

  /** The tuning thresholds (`Config`). The source never validates them. */
  datatype Config = Config(
    eyeOpenThreshold: real,
    eyeWideOpenThreshold: real,
    eyeTightThreshold: real,
    eyeWinkDiff: real,
    gazeHLeft: real,
    gazeHRight: real,
    gazeVUp: real,
    gazeVDown: real,
    mouthOpenThreshold: real,
    mouthSmileThreshold: real,
    mouthKissWidthRatio: real)

  /** The values `Config` starts with. */
  const DEFAULT_CONFIG: Config := Config(0.095, 0.53, 0.15, 0.15, 0.4, 0.6, 0.35, 0.65, 0.15, -0.02, 0.25)

  /** The scalar features `processFace` computes from the face landmarks:
      eye aspect ratios, averaged gaze ratios, mouth width over face width,
      mouth aspect ratio and the smile value. */
  datatype Features = Features(
    lEAR: real,
    rEAR: real,
    avgH: real,
    avgV: real,
    mouthWidthRatio: real,
    mar: real,
    smile: real)

  /** A landmark; the detector's z coordinate is not used. */
  datatype Point = Point(x: real, y: real)

  /** Landmarks of one detected hand, indexed as the hand landmarker numbers them. */
  type Hand = seq<Point>

  const HAND_LANDMARKS: nat := 21
  const WRIST: nat := 0
  const THUMB_IP: nat := 3
  const THUMB_TIP: nat := 4
  const INDEX_MCP: nat := 5
  const INDEX_TIP: nat := 8

  /** `Math.abs`. */
  function Abs(x: real): (a: real)
    ensures a >= 0.0 && (a == x || a == -x)
  {
    if x < 0.0 then -x else x
  }

  /** `avgEAR`: the mean of the two ratios, so it lies between them. */
  function AvgEAR(f: Features): (avg: real)
    ensures f.lEAR <= avg <= f.rEAR || f.rEAR <= avg <= f.lEAR
  {
    (f.lEAR + f.rEAR) / 2.0
  }

  // ----- Eyes -----

  /** Gaze column: 2 (screen left, the enum's RIGHT) below `gazeHLeft`,
      else 0 above `gazeHRight`, else 1. */
  function GazeColumn(avgH: real, cfg: Config): (col: int)
    ensures 0 <= col <= 2
  {
    if avgH < cfg.gazeHLeft then 2 else if avgH > cfg.gazeHRight then 0 else 1
  }

  /** Gaze row: 0 (up) below `gazeVUp`, else 2 (down) above `gazeVDown`, else 1. */
  function GazeRow(avgV: real, cfg: Config): (row: int)
    ensures 0 <= row <= 2
  {
    if avgV < cfg.gazeVUp then 0 else if avgV > cfg.gazeVDown then 2 else 1
  }

  /** The eye cascade of `processFace`, first match wins. Whatever the
      thresholds, even inverted ones, the code is one of the fourteen
      classifier codes 0-13 and never the gesture code. */
  function ClassifyEyes(f: Features, cfg: Config): (e: int)
    ensures 0 <= e <= 13
  {
    var avgEAR := AvgEAR(f);
    if f.lEAR < cfg.eyeTightThreshold && f.rEAR < cfg.eyeTightThreshold then CLOSE_TIGHTLY
    else if avgEAR < cfg.eyeOpenThreshold then EYES_CLOSE
    else if Abs(f.lEAR - f.rEAR) > cfg.eyeWinkDiff then
      (if f.lEAR < f.rEAR then WINK_RIGHT else WINK_LEFT)
    else if avgEAR > cfg.eyeWideOpenThreshold then EYES_OPEN
    else GazeRow(f.avgV, cfg) * 3 + GazeColumn(f.avgH, cfg)
  }

  /** The priority order of the eye rules: each code is produced exactly
      when its own test holds and every earlier test failed. */
  lemma EyePriority(f: Features, cfg: Config)
    ensures var e, t, avg := ClassifyEyes(f, cfg), cfg.eyeTightThreshold, AvgEAR(f);
      && (e == CLOSE_TIGHTLY <==> f.lEAR < t && f.rEAR < t)
      && (e == EYES_CLOSE <==> !(f.lEAR < t && f.rEAR < t) && avg < cfg.eyeOpenThreshold)
      && (e == WINK_RIGHT <==> !(f.lEAR < t && f.rEAR < t) && !(avg < cfg.eyeOpenThreshold)
                               && Abs(f.lEAR - f.rEAR) > cfg.eyeWinkDiff && f.lEAR < f.rEAR)
      && (e == WINK_LEFT <==> !(f.lEAR < t && f.rEAR < t) && !(avg < cfg.eyeOpenThreshold)
                              && Abs(f.lEAR - f.rEAR) > cfg.eyeWinkDiff && !(f.lEAR < f.rEAR))
      && (e == EYES_OPEN <==> !(f.lEAR < t && f.rEAR < t) && !(avg < cfg.eyeOpenThreshold)
                              && !(Abs(f.lEAR - f.rEAR) > cfg.eyeWinkDiff) && avg > cfg.eyeWideOpenThreshold)
  {
  }

  /** When no eye-state rule fires the code is a gaze cell whose row and
      column can be read back from it, and only then is it below 9. */
  lemma GazeCell(f: Features, cfg: Config)
    ensures var e := ClassifyEyes(f, cfg);
      e <= LOWER_RIGHT <==>
        !(f.lEAR < cfg.eyeTightThreshold && f.rEAR < cfg.eyeTightThreshold)
        && !(AvgEAR(f) < cfg.eyeOpenThreshold)
        && !(Abs(f.lEAR - f.rEAR) > cfg.eyeWinkDiff)
        && !(AvgEAR(f) > cfg.eyeWideOpenThreshold)
    ensures var e := ClassifyEyes(f, cfg);
      e <= LOWER_RIGHT ==> e / 3 == GazeRow(f.avgV, cfg) && e % 3 == GazeColumn(f.avgH, cfg)
  {
  }

  /** A wink is always attributed to the side with the smaller eye aspect
      ratio: `WINK_RIGHT` when the left ratio is the smaller one. */
  lemma WinkSide(f: Features, cfg: Config)
    ensures ClassifyEyes(f, cfg) == WINK_RIGHT ==> f.lEAR < f.rEAR && f.rEAR - f.lEAR > cfg.eyeWinkDiff
    ensures ClassifyEyes(f, cfg) == WINK_LEFT ==> f.lEAR >= f.rEAR && f.lEAR - f.rEAR > cfg.eyeWinkDiff
  {
  }

  /** With the horizontal gaze bounds inverted (`gazeHLeft > gazeHRight`)
      the middle column can never be chosen: the comparisons as written
      send every ratio to one of the two side columns. */
  lemma InvertedGazeBounds(avgH: real, cfg: Config)
    requires cfg.gazeHLeft > cfg.gazeHRight
    ensures GazeColumn(avgH, cfg) != 1
    ensures GazeColumn(avgH, cfg) == 2 <==> avgH < cfg.gazeHLeft
  {
  }

  // ----- Mouth -----

  /** The mouth cascade of `processFace`, first match wins; the code is
      always one of the five mouth codes. */
  function ClassifyMouth(f: Features, cfg: Config): (m: int)
    ensures 0 <= m <= 4
  {
    if f.mouthWidthRatio < cfg.mouthKissWidthRatio then KISS
    else if f.mar > cfg.mouthOpenThreshold then MOUTH_OPEN
    else if f.smile < cfg.mouthSmileThreshold then SMILE
    else if f.smile > Abs(cfg.mouthSmileThreshold * 2.0) then SCOWL
    else MOUTH_CLOSE
  }

  /** The priority order of the mouth rules: `KISS` whenever the mouth is
      narrow, whatever the aspect ratio; each later code only when every
      earlier test failed. */
  lemma MouthPriority(f: Features, cfg: Config)
    ensures var m, t := ClassifyMouth(f, cfg), cfg.mouthSmileThreshold;
      && (m == KISS <==> f.mouthWidthRatio < cfg.mouthKissWidthRatio)
      && (m == MOUTH_OPEN <==> !(f.mouthWidthRatio < cfg.mouthKissWidthRatio) && f.mar > cfg.mouthOpenThreshold)
      && (m == SMILE <==> !(f.mouthWidthRatio < cfg.mouthKissWidthRatio) && !(f.mar > cfg.mouthOpenThreshold)
                          && f.smile < t)
      && (m == SCOWL <==> !(f.mouthWidthRatio < cfg.mouthKissWidthRatio) && !(f.mar > cfg.mouthOpenThreshold)
                          && f.smile > Abs(t * 2.0))
      && (m == MOUTH_CLOSE <==> !(f.mouthWidthRatio < cfg.mouthKissWidthRatio) && !(f.mar > cfg.mouthOpenThreshold)
                                && t <= f.smile <= Abs(t * 2.0))
  {
    SmileBandsDisjoint(f.smile, cfg.mouthSmileThreshold);
  }

  /** The smile and scowl bands never overlap, for any threshold sign, so
      the order of those two tests does not matter; `CLOSE` is the band
      between them. */
  lemma SmileBandsDisjoint(smile: real, t: real)
    ensures !(smile < t && smile > Abs(t * 2.0))
  {
    if t >= 0.0 {
      assert Abs(t * 2.0) == t * 2.0 >= t;
    } else {
      assert Abs(t * 2.0) > 0.0 > t;
    }
  }

  // ----- Gesture override -----

  /** A hand left of the nose (the user's right hand) making the sign:
      index finger curled down and thumb tip right of its joint. */
  predicate ScreenLeftSign(hand: Hand, noseTip: Point): (sign: bool)
    requires |hand| == HAND_LANDMARKS
    ensures sign ==> !ScreenRightSign(hand, noseTip)
  {
    hand[WRIST].x < noseTip.x && hand[INDEX_TIP].y > hand[INDEX_MCP].y && hand[THUMB_TIP].x > hand[THUMB_IP].x
  }

  /** A hand at or right of the nose (the user's left hand) making the
      sign: index finger curled down and thumb tip left of its joint. */
  predicate ScreenRightSign(hand: Hand, noseTip: Point)
    requires |hand| == HAND_LANDMARKS
  {
    !(hand[WRIST].x < noseTip.x) && hand[INDEX_TIP].y > hand[INDEX_MCP].y && hand[THUMB_TIP].x < hand[THUMB_IP].x
  }

  predicate WellFormedHands(hands: seq<Hand>) {
    forall i :: 0 <= i < |hands| ==> |hands[i]| == HAND_LANDMARKS
  }

  /** The TT pose: at least two hands, one of them making the sign left of
      the nose and one making it right of the nose. The two signs alone
      decide it: the hand count guard is implied by them. */
  predicate TTPose(hands: seq<Hand>, noseTip: Point): (pose: bool)
    requires WellFormedHands(hands)
    ensures pose <==>
      (exists i :: 0 <= i < |hands| && ScreenLeftSign(hands[i], noseTip))
      && (exists j :: 0 <= j < |hands| && ScreenRightSign(hands[j], noseTip))
  {
    HandCountGuardImplied(hands, noseTip);
    |hands| >= 2
    && (exists i :: 0 <= i < |hands| && ScreenLeftSign(hands[i], noseTip))
    && (exists j :: 0 <= j < |hands| && ScreenRightSign(hands[j], noseTip))
  }

  /** The gesture block of `processFace`: with two or more hands, scan them
      all, raising `screenLeftHandValid` / `screenRightHandValid`, and force
      the eye code to `TT_POSE` when both are raised. */
  method ApplyGesture(eyes: int, hands: seq<Hand>, noseTip: Point) returns (finalEyes: int)
    requires WellFormedHands(hands)
    ensures finalEyes == if TTPose(hands, noseTip) then TT_POSE else eyes
  {
    finalEyes := eyes;
    if |hands| >= 2 {
      var screenLeftHandValid := false;
      var screenRightHandValid := false;
      for n := 0 to |hands|
        invariant screenLeftHandValid <==> exists i :: 0 <= i < n && ScreenLeftSign(hands[i], noseTip)
        invariant screenRightHandValid <==> exists i :: 0 <= i < n && ScreenRightSign(hands[i], noseTip)
      {
        var hand := hands[n];
        var wrist, thumbTip, thumbIP := hand[WRIST], hand[THUMB_TIP], hand[THUMB_IP];
        var indexTip, indexMCP := hand[INDEX_TIP], hand[INDEX_MCP];
        var isIndexDown := indexTip.y > indexMCP.y;
        if wrist.x < noseTip.x {
          var isThumbInward := thumbTip.x > thumbIP.x;
          if isIndexDown && isThumbInward {
            screenLeftHandValid := true;
          }
        } else {
          var isThumbInward := thumbTip.x < thumbIP.x;
          if isIndexDown && isThumbInward {
            screenRightHandValid := true;
          }
        }
      }
      if screenLeftHandValid && screenRightHandValid {
        finalEyes := TT_POSE;
      }
    }
  }

  /** The pose always comes from two different hands: no single hand can be
      both left and right of the nose. */
  lemma TTPoseNeedsTwoHands(hands: seq<Hand>, noseTip: Point)
    requires WellFormedHands(hands)
    ensures TTPose(hands, noseTip) <==>
      exists i, j :: 0 <= i < |hands| && 0 <= j < |hands| && i != j
        && ScreenLeftSign(hands[i], noseTip) && ScreenRightSign(hands[j], noseTip)
  {
    if TTPose(hands, noseTip) {
      var i :| 0 <= i < |hands| && ScreenLeftSign(hands[i], noseTip);
      var j :| 0 <= j < |hands| && ScreenRightSign(hands[j], noseTip);
      assert i != j;
    }
  }

  /** The `length >= 2` guard is implied by the two signs themselves. */
  lemma HandCountGuardImplied(hands: seq<Hand>, noseTip: Point)
    requires WellFormedHands(hands)
    ensures (exists i :: 0 <= i < |hands| && ScreenLeftSign(hands[i], noseTip))
      && (exists j :: 0 <= j < |hands| && ScreenRightSign(hands[j], noseTip))
      ==> |hands| >= 2
  {
    if (exists i :: 0 <= i < |hands| && ScreenLeftSign(hands[i], noseTip))
      && (exists j :: 0 <= j < |hands| && ScreenRightSign(hands[j], noseTip))
    {
      var i :| 0 <= i < |hands| && ScreenLeftSign(hands[i], noseTip);
      var j :| 0 <= j < |hands| && ScreenRightSign(hands[j], noseTip);
      assert i != j;
    }
  }

  /** The classification part of `processFace`: eye and mouth codes, then
      the gesture override, which replaces only the eye code. */
  method ClassifyFrame(f: Features, cfg: Config, hands: seq<Hand>, noseTip: Point)
    returns (finalEyes: int, finalMouth: int)
    requires WellFormedHands(hands)
    ensures finalMouth == ClassifyMouth(f, cfg)
    ensures finalEyes == if TTPose(hands, noseTip) then TT_POSE else ClassifyEyes(f, cfg)
    ensures 0 <= finalEyes <= 14 && 0 <= finalMouth <= 4
  {
    finalEyes := ClassifyEyes(f, cfg);
    finalMouth := ClassifyMouth(f, cfg);
    finalEyes := ApplyGesture(finalEyes, hands, noseTip);
  }

  // ----- Worked examples with the default thresholds -----

  /** Both eye aspect ratios at 0.05 read as tightly closed. */
  lemma ExampleTightlyClosed()
    ensures ClassifyEyes(Features(0.05, 0.05, 0.5, 0.5, 0.5, 0.0, 0.0), DEFAULT_CONFIG) == CLOSE_TIGHTLY
  {
  }

  /** An average aspect ratio of 0.6 with a small left/right difference reads as wide open. */
  lemma ExampleWideOpen(l: real, r: real)
    requires (l + r) / 2.0 == 0.6 && Abs(l - r) <= 0.15
    ensures ClassifyEyes(Features(l, r, 0.5, 0.5, 0.5, 0.0, 0.0), DEFAULT_CONFIG) == EYES_OPEN
  {
  }

  /** A horizontal gaze ratio of 0.3 with a middle vertical ratio is the `MID_RIGHT` cell. */
  lemma ExampleGazeMidRight()
    ensures ClassifyEyes(Features(0.3, 0.3, 0.3, 0.5, 0.5, 0.0, 0.0), DEFAULT_CONFIG) == MID_RIGHT
  {
  }

  /** A mouth-width ratio of 0.2 is a kiss whatever the mouth aspect ratio. */
  lemma ExampleKiss(mar: real, smile: real)
    ensures ClassifyMouth(Features(0.3, 0.3, 0.5, 0.5, 0.2, mar, smile), DEFAULT_CONFIG) == KISS
  {
  }
}
