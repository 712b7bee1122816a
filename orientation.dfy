/**
 * The orientation table inside `rotate`: which GD rotation, which horizontal
 * flip and whether the tracked sides swap, for each accepted code, and the
 * EXIF orientation convention it is meant to undo.
 *
 * A transform that maps the pixel grid onto itself up to quarter turns and
 * mirrors sends (x, y) to (+-x, +-y) or (+-y, +-x); it is represented by
 * whether it exchanges the axes and which output coordinates it negates.
 * Coordinates have x to the right and y upwards, so a positive `imagerotate`
 * angle turns anticlockwise.
 */
module Orientation {
  import opened Outcomes

  /**
   * What `rotate` does for one code: the angle passed to `imagerotate` (None
   * when no branch calls it and `$image` is never assigned), whether
   * `imageflip(IMG_FLIP_HORIZONTAL)` follows, and whether width and height swap.
   */
  datatype Plan = Plan(angle: Option<int>, flip: bool, swap: bool)

  /** The plan for a code; None for the codes `rotate` rejects. */
  function PlanFor(code: int): (p: Option<Plan>)
    ensures p.Some? <==> 0 <= code <= 8
  {
    if code < 0 || code > 8 then None
    else
      var angle := if code == 3 || code == 4 then Some(180)
                   else if code == 5 || code == 6 then Some(-90)
                   else if code == 7 || code == 8 then Some(90)
                   else None;
      Some(Plan(angle, code == 2 || code == 4 || code == 5 || code == 7, code >= 5))
  }

  /** The tracked (width, height) after a plan. */
  function RotatedSize(p: Plan, width: real, height: real): (real, real) {
    if p.swap then (height, width) else (width, height)
  }

  /** (x, y) |-> (x', y') with (x', y') the pair, exchanged if asked, then negated where asked. */
  datatype Transform = Transform(exchange: bool, negateX: bool, negateY: bool)

  function Apply(t: Transform, x: real, y: real): (real, real) {
    var (u, v) := if t.exchange then (y, x) else (x, y);
    (if t.negateX then -u else u, if t.negateY then -v else v)
  }

  /** t after u */
  function Compose(t: Transform, u: Transform): (r: Transform)
    ensures forall x: real, y: real {:trigger Apply(r, x, y)} ::
      var (x1, y1) := Apply(u, x, y); Apply(r, x, y) == Apply(t, x1, y1)
  {
    Transform(t.exchange != u.exchange,
              t.negateX != (if t.exchange then u.negateY else u.negateX),
              t.negateY != (if t.exchange then u.negateX else u.negateY))
  }

  const Identity := Transform(false, false, false)
  /** Left and right exchanged, as `IMG_FLIP_HORIZONTAL`. */
  const MirrorHorizontal := Transform(false, true, false)
  /** Top and bottom exchanged. */
  const MirrorVertical := Transform(false, false, true)

  /** Angles within one full turn that are whole quarter turns. */
  predicate QuarterTurn(degrees: int) {
    degrees == -270 || degrees == -180 || degrees == -90 || degrees == 0 ||
    degrees == 90 || degrees == 180 || degrees == 270
  }

  /** Anticlockwise rotation by a quarter-turn angle, as `imagerotate` turns. */
  function Rotation(degrees: int): (t: Transform)
    requires QuarterTurn(degrees)
    ensures degrees == 90 || degrees == -270 ==>
      forall x: real, y: real {:trigger Apply(t, x, y)} :: Apply(t, x, y) == (-y, x)
  {
    if degrees == 0 then Identity
    else if degrees == 90 || degrees == -270 then Transform(true, true, false)
    else if degrees == 180 || degrees == -180 then Transform(false, true, true)
    else Transform(true, false, true)
  }

  /** The pixel transform a plan applies: rotate, then mirror if asked. */
  function PlanTransform(p: Plan): Transform
    requires p.angle.Some? ==> QuarterTurn(p.angle.value)
  {
    var turned := if p.angle.Some? then Rotation(p.angle.value) else Identity;
    if p.flip then Compose(MirrorHorizontal, turned) else turned
  }

  /**
   * The transform that brings stored pixels upright for an EXIF orientation
   * value (tag 274). The EXIF 2.3 standard defines each value by where the
   * stored row 0 and column 0 appear in the upright picture; the transform is
   * the correction that placement implies, written as turns and mirrors (a
   * clockwise turn of d degrees is Rotation(-d)).
   */
  function ExifCorrection(code: int): Transform
    requires 1 <= code <= 8
  {
    match code
    case 1 => Identity                                      // row 0 top, column 0 left: as stored
    case 2 => MirrorHorizontal                              // row 0 top, column 0 right: mirror
    case 3 => Rotation(-180)                                // row 0 bottom, column 0 right: half turn
    case 4 => MirrorVertical                                // row 0 bottom, column 0 left: vertical mirror
    case 5 => Compose(Rotation(-270), MirrorHorizontal)     // row 0 left, column 0 top: mirror, then 270 clockwise
    case 6 => Rotation(-90)                                 // row 0 right, column 0 top: 90 clockwise
    case 7 => Compose(Rotation(-90), MirrorHorizontal)      // row 0 right, column 0 bottom: mirror, then 90 clockwise
    case 8 => Rotation(-270)                                // row 0 left, column 0 bottom: 270 clockwise
  }

  function Abs(x: real): real { if x < 0.0 then -x else x }

  // ---------------------------------------------------------------------------

  /** The table of `rotate`: 180 for codes 3 and 4, -90 for 5 and 6, 90 for 7 and 8, mirrored exactly for 2, 4, 5 and 7. */
  lemma PlanTable(code: int)
    requires 0 <= code <= 8
    ensures var p := PlanFor(code).value;
            (p.angle == Some(180) <==> code == 3 || code == 4) &&
            (p.angle == Some(-90) <==> code == 5 || code == 6) &&
            (p.angle == Some(90) <==> code == 7 || code == 8) &&
            (p.angle.None? <==> code <= 2) &&
            (p.flip <==> code == 2 || code == 4 || code == 5 || code == 7) &&
            (p.swap <==> 5 <= code)
  {
  }

  /** Every plan from 1 to 8 applies exactly the correction implied by the EXIF placement of row 0 and column 0 for the code. */
  lemma PlanUndoesExifOrientation(code: int)
    requires 1 <= code <= 8
    ensures var p := PlanFor(code).value;
            (p.angle.Some? ==> QuarterTurn(p.angle.value)) &&
            PlanTransform(p) == ExifCorrection(code)
  {
  }

  /** The tracked sides swap exactly when the plan's transform exchanges the axes. */
  lemma SwapIffAxesExchanged(code: int)
    requires 0 <= code <= 8
    ensures var p := PlanFor(code).value;
            (p.angle.Some? ==> QuarterTurn(p.angle.value)) &&
            (p.swap <==> PlanTransform(p).exchange)
  {
  }

  /**
   * The tracked size after a plan is the extent of the transformed picture:
   * the absolute values of the transformed (width, height) vector.
   */
  lemma RotatedSizeIsTransformedSize(code: int, width: real, height: real)
    requires 0 <= code <= 8 && width >= 0.0 && height >= 0.0
    ensures var p := PlanFor(code).value;
            (p.angle.Some? ==> QuarterTurn(p.angle.value)) &&
            var v := Apply(PlanTransform(p), width, height);
            RotatedSize(p, width, height) == (Abs(v.0), Abs(v.1))
  {
  }

  /** Two plans that both swap, or both do not, restore the tracked size. */
  lemma SwapTwiceRestoresSize(first: int, second: int, width: real, height: real)
    requires 0 <= first <= 8 && 0 <= second <= 8
    requires PlanFor(first).value.swap == PlanFor(second).value.swap
    ensures var (w1, h1) := RotatedSize(PlanFor(first).value, width, height);
            RotatedSize(PlanFor(second).value, w1, h1) == (width, height)
  {
  }

  /** Codes 2, 3, 4, 5 and 7 undo themselves; codes 6 and 8 undo each other. */
  lemma CorrectionsInvert(code: int)
    requires 2 <= code <= 8
    ensures var p := PlanFor(code).value;
            (p.angle.Some? ==> QuarterTurn(p.angle.value)) &&
            var inverse := if code == 6 then 8 else if code == 8 then 6 else code;
            var q := PlanFor(inverse).value;
            (q.angle.Some? ==> QuarterTurn(q.angle.value)) &&
            Compose(PlanTransform(q), PlanTransform(p)) == Identity
  {
  }
}
