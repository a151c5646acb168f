/** Posture heuristics over detection boxes, the zone filter and the per-tick verdict. */
module Posture {
  import opened Wrappers
  import opened Geometry
  import Settings

  /** One detector output: box in frame pixels, confidence and class label. */
  datatype Detection = Detection(x: real, y: real, w: real, h: real, score: real, cls: string)

  /** The text of a camera's state line: blank before the first frame, "Personne au sol",
      "Assis(e)", "OK" and "Mouvement détecté". */
  datatype Label = Blank | OnFloor | Seated | Clear | Movement

  /** JavaScript's `num / den > bound` for a finite bound. A zero denominator yields +Infinity
      (positive numerator), -Infinity (negative) or NaN (zero), and only +Infinity is greater. */
  predicate QuotientExceeds(num: real, den: real, bound: real) {
    if den == 0.0 then num > 0.0 else num / den > bound
  }

  /** Height of the frame's lowest quarter line: 0.75 x 480. */
  const FLOOR_LINE: real := 0.75 * (Settings.FRAME_HEIGHT as real)

  /** `isLyingDown`: a wide box, or one whose bottom edge is in the lowest quarter of the frame. */
  predicate IsLyingDown(d: Detection) {
    QuotientExceeds(d.w, d.h, 1.4) || d.y + d.h > FLOOR_LINE
  }

  /** `isSitting`: a tall box. */
  predicate IsSitting(d: Detection) {
    QuotientExceeds(d.h, d.w, 1.2)
  }

  /** `isInExcludedBedZone`: the bed-zone exclusion is a stub that excludes nothing. */
  predicate IsInExcludedBedZone(idx: nat, d: Detection) {
    false
  }

  function Centroid(d: Detection): Point {
    Point(d.x + d.w / 2.0, d.y + d.h / 2.0)
  }

  /** `polygonIntersectsBox`: only the box's centroid is tested against the zone. */
  predicate PolygonIntersectsBox(poly: Polygon, d: Detection) {
    Inside(Centroid(d).x, Centroid(d).y, poly)
  }

  predicate IsPerson(d: Detection, scoreMin: real) {
    d.cls == "person" && d.score >= scoreMin
  }

  /** `inZone`: with no zone set for the camera every detection passes. */
  predicate InZone(zone: Option<Polygon>, d: Detection) {
    zone.None? || PolygonIntersectsBox(zone.value, d)
  }

  predicate IsCandidate(d: Detection, zone: Option<Polygon>, scoreMin: real) {
    IsPerson(d, scoreMin) && InZone(zone, d)
  }

  /** `persons`: the detections of class "person" scoring at least `scoreMin`, in order. */
  function Persons(dets: seq<Detection>, scoreMin: real): (r: seq<Detection>)
    ensures |r| <= |dets|
    ensures forall d :: d in r <==> d in dets && IsPerson(d, scoreMin)
  {
    if dets == [] then []
    else (if IsPerson(dets[0], scoreMin) then [dets[0]] else []) + Persons(dets[1..], scoreMin)
  }

  /** The persons that pass the camera's zone test, in order. */
  function InZoneOnly(zone: Option<Polygon>, ds: seq<Detection>): (r: seq<Detection>)
    ensures |r| <= |ds|
    ensures forall d :: d in r <==> d in ds && InZone(zone, d)
  {
    if ds == [] then []
    else (if InZone(zone, ds[0]) then [ds[0]] else []) + InZoneOnly(zone, ds[1..])
  }

  function Candidates(dets: seq<Detection>, zone: Option<Polygon>, scoreMin: real): seq<Detection> {
    InZoneOnly(zone, Persons(dets, scoreMin))
  }

  /** The decision block of `inferAndDetect`: `OnFloor` selects the fall branch; otherwise the
      label the OK branch writes. The fall branch is taken exactly when some candidate lies
      down and none sits; the bed-zone term never matters. */
  function Decide(idx: nat, dets: seq<Detection>, zone: Option<Polygon>, scoreMin: real): (l: Label)
    ensures l == OnFloor <==>
      (exists d :: d in dets && IsCandidate(d, zone, scoreMin) && IsLyingDown(d)) &&
      !(exists d :: d in dets && IsCandidate(d, zone, scoreMin) && IsSitting(d))
    ensures l != OnFloor ==> l == Seated || l == Clear
    ensures l == Seated <==> exists d :: d in dets && IsCandidate(d, zone, scoreMin) && IsSitting(d)
  {
    var candidates := Candidates(dets, zone, scoreMin);
    var fallLike := exists d :: d in candidates && IsLyingDown(d);
    var sittingLike := exists d :: d in candidates && IsSitting(d);
    var inBedZone := exists d :: d in candidates && IsInExcludedBedZone(idx, d);
    if fallLike && !sittingLike && !inBedZone then OnFloor
    else if sittingLike then Seated
    else Clear
  }

  /** For a box of positive height, lying down means wider than 1.4 times its height or a bottom
      edge below 360 pixels. */
  lemma LyingDownWithoutDivision(d: Detection)
    requires d.h > 0.0
    ensures IsLyingDown(d) <==> d.w > 1.4 * d.h || d.y + d.h > 360.0
  {
    var r := d.w / d.h;
    assert r * d.h == d.w;
    assert r > 1.4 <==> d.w > 1.4 * d.h;
  }

  /** For a box of positive width, sitting means taller than 1.2 times its width. */
  lemma SittingWithoutDivision(d: Detection)
    requires d.w > 0.0
    ensures IsSitting(d) <==> d.h > 1.2 * d.w
  {
    var r := d.h / d.w;
    assert r * d.w == d.h;
    assert r > 1.2 <==> d.h > 1.2 * d.w;
  }

  /** The two aspect tests exclude each other, so a box of positive size that is both lying and
      sitting is lying only because its bottom edge is near the floor. */
  lemma BothPosturesOnlyNearFloor(d: Detection)
    requires d.w > 0.0 && d.h > 0.0
    requires IsLyingDown(d) && IsSitting(d)
    ensures d.y + d.h > 360.0
    ensures d.w <= 1.4 * d.h
  {
    LyingDownWithoutDivision(d);
    SittingWithoutDivision(d);
  }

  /** A tall box whose bottom edge is below 360 pixels is both lying and sitting; when it is a
      candidate the sitting veto wins and the OK branch writes "Assis(e)". */
  lemma TallBoxNearFloorReadsSeated(idx: nat, dets: seq<Detection>, zone: Option<Polygon>, scoreMin: real, d: Detection)
    requires d.w > 0.0 && d.h > 1.2 * d.w && d.y + d.h > 360.0
    requires d in dets && IsCandidate(d, zone, scoreMin)
    ensures IsLyingDown(d) && IsSitting(d)
    ensures Decide(idx, dets, zone, scoreMin) == Seated
  {
    LyingDownWithoutDivision(d);
    SittingWithoutDivision(d);
  }

  /** Without a zone for the camera the zone filter keeps every person. */
  lemma {:induction false} NoZoneKeepsEveryPerson(dets: seq<Detection>, scoreMin: real)
    ensures Candidates(dets, None, scoreMin) == Persons(dets, scoreMin)
  {
    NoZoneKeepsAll(Persons(dets, scoreMin));
  }

  lemma {:induction false} NoZoneKeepsAll(ds: seq<Detection>)
    ensures InZoneOnly(None, ds) == ds
  {
    if ds != [] {
      NoZoneKeepsAll(ds[1..]);
    }
  }

  /** The zone test sees only the centroid: boxes sharing a centroid pass or fail together. */
  lemma ZoneTestUsesCentroid(zone: Option<Polygon>, d: Detection, e: Detection)
    requires Centroid(d) == Centroid(e)
    ensures InZone(zone, d) == InZone(zone, e)
  {
  }

  /** A box whose centroid is right of every vertex of the camera's zone is filtered out. */
  lemma CentroidRightOfZoneIsExcluded(poly: Polygon, d: Detection)
    requires forall k :: 0 <= k < |poly| ==> poly[k].x <= d.x + d.w / 2.0
    ensures !InZone(Some(poly), d)
  {
    OutsideRightOfVertices(Centroid(d).x, Centroid(d).y, poly);
  }

  /** No detections at all: the OK branch, labelled "OK". */
  lemma NoDetectionsIsClear(idx: nat, zone: Option<Polygon>, scoreMin: real)
    ensures Decide(idx, [], zone, scoreMin) == Clear
  {
  }
}
