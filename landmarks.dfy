/** The two geometric tests the face handler applies to the landmarks of a single face. */
module Landmarks {
  import opened Common

  /** A landmark in normalised frame coordinates. */
  datatype Point = Point(x: real, y: real)

  /** The landmark list of one detected face. */
  type Face = seq<Point>

  // Landmark indices of the face-mesh convention.
  const NoseTip := 1
  const LeftEye := 33
  const RightEye := 263

  // Thresholds of the two tests.
  const BandLow: real := 0.3
  const BandHigh: real := 0.7
  const EyeGap: real := 0.008

  /** `landmarks[i]`, which is `undefined` past the end of the list. */
  function Landmark(face: Face, i: nat): (r: Option<Point>)
    ensures r.Some? <==> i < |face|
    ensures r.Some? ==> r.value == face[i]
  {
    if i < |face| then Some(face[i]) else None
  }

  function Abs(v: real): (r: real)
    ensures r >= 0.0 && (r == v || r == -v)
  {
    if v < 0.0 then -v else v
  }

  /** Looking away: the nose tip exists and lies outside the central band [0.3, 0.7]. */
  predicate LooksAway(face: Face)
    ensures LooksAway(face) <==> NoseTip < |face| && !(BandLow <= face[NoseTip].x <= BandHigh)
  {
    var nose := Landmark(face, NoseTip);
    nose.Some? && (nose.value.x < BandLow || nose.value.x > BandHigh)
  }

  /** The drowsiness test is only made when both eye landmarks exist. */
  predicate EyesPresent(face: Face)
  {
    Landmark(face, LeftEye).Some? && Landmark(face, RightEye).Some?
  }

  /** Looks drowsy: the two eye landmarks are less than 0.008 apart vertically. */
  predicate LooksDrowsy(face: Face)
    requires EyesPresent(face)
    ensures LooksDrowsy(face) <==> -EyeGap < face[LeftEye].y - face[RightEye].y < EyeGap
  {
    Abs(face[LeftEye].y - face[RightEye].y) < EyeGap
  }
}
