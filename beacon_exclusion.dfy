/** Beacon exclusion zone (src/bin/15.rs): each sensor reports its position
    and the closest beacon to it by taxicab distance, so no other beacon can
    lie within that distance of the sensor. Part one scans one row between
    bounds derived from every sensor's reach and counts the points some
    sensor rules out, leaving out the reported beacons themselves. */
module BeaconExclusion {
  import opened Wrappers
  import opened Parsing

  datatype Point = Point(x: int, y: int)

  datatype Report = Report(sensor: Point, closestBeacon: Point)

  /** The source's panics, as values. */
  datatype Error =
    | Unparsed(rest: string)   // input not fully consumed by the parser
    | NoSensors                // `min()`/`max()` of an empty list, then `expect`

  // ---------------------------------------------------------------------------
  // Distance

  function Abs(v: int): nat { if v < 0 then -v else v }

  /** `Point::dist`: the taxicab distance. */
  function Dist(p: Point, q: Point): (d: nat)
    ensures d == 0 <==> p == q
  {
    Abs(p.x - q.x) + Abs(p.y - q.y)
  }

  /** `Point::length`: the distance to the origin. */
  function Length(p: Point): (d: nat)
    ensures d == Abs(p.x) + Abs(p.y)
    ensures d == 0 <==> p == Point(0, 0)
  {
    Dist(p, Point(0, 0))
  }

  lemma DistSymmetric(p: Point, q: Point)
    ensures Dist(p, q) == Dist(q, p)
  {
  }

  lemma DistTriangle(p: Point, q: Point, r: Point)
    ensures Dist(p, r) <= Dist(p, q) + Dist(q, r)
  {
  }

  /** On one row, the distance grows by one per step sideways. */
  lemma DistOnRow(s: Point, x: int, row: int)
    ensures Dist(s, Point(x, row)) == Abs(s.x - x) + Abs(s.y - row)
  {
  }

  // ---------------------------------------------------------------------------
  // Parsing

  /** `parse_point`: `x=<i32>, y=<i32>`. */
  function ParsePoint(s: string): (r: Option<Parsed<Point>>)
    ensures r.Some? ==> |r.value.rest| < |s|
  {
    var afterX :- Tag("x=", s);
    var x :- I32(afterX);
    var afterY :- Tag(", y=", x.rest);
    var y :- I32(afterY);
    Some(Parsed(Point(x.value, y.value), y.rest))
  }

  /** `parse_single_input`: `Sensor at <point>: closest beacon is at <point>`. */
  function ParseReport(s: string): (r: Option<Parsed<Report>>)
    ensures r.Some? ==> |r.value.rest| < |s|
  {
    var afterSensor :- Tag("Sensor at ", s);
    var sensor :- ParsePoint(afterSensor);
    var afterBeacon :- Tag(": closest beacon is at ", sensor.rest);
    var beacon :- ParsePoint(afterBeacon);
    Some(Parsed(Report(sensor.value, beacon.value), beacon.rest))
  }

  lemma ParsersProgress()
    ensures NeverGrows(ParseReport) && SkipperConsumes(Newline)
  {
  }

  /** `parse_inputs`: `separated_list0(newline, parse_single_input)`. */
  function ParseReports(s: string): Parsed<seq<Report>> {
    ParsersProgress();
    SeparatedList0(ParseReport, Newline, s)
  }

  function FormatPoint(p: Point): string {
    "x=" + IntToString(p.x) + ", y=" + IntToString(p.y)
  }

  function FormatReport(r: Report): string {
    "Sensor at " + FormatPoint(r.sensor) + ": closest beacon is at " + FormatPoint(r.closestBeacon)
  }

  predicate FitsI32(p: Point) {
    I32_MIN <= p.x <= I32_MAX && I32_MIN <= p.y <= I32_MAX
  }

  lemma PointRoundTrip(p: Point, rest: string)
    requires FitsI32(p) && NoDigitAhead(rest)
    ensures ParsePoint(FormatPoint(p) + rest) == Some(Parsed(p, rest))
  {
    var xs, ys := IntToString(p.x), IntToString(p.y);
    var afterY := ys + rest;
    var afterComma := ", y=" + afterY;
    var afterX := xs + afterComma;
    FourPieces("x=", xs, ", y=", ys, rest);
    TagOfConcat("x=", afterX);
    I32RoundTrip(p.x, afterComma);
    TagOfConcat(", y=", afterY);
    I32RoundTrip(p.y, rest);
    PointSteps("x=" + afterX, afterX, p.x, afterComma, afterY, p.y, rest);
  }

  lemma FourPieces(a: string, b: string, c: string, d: string, rest: string)
    ensures a + b + c + d + rest == a + (b + (c + (d + rest)))
  {
  }

  /** `parse_point` from the results of its four steps. */
  lemma PointSteps(s: string, afterX: string, x: int, afterXValue: string, afterY: string, y: int, rest: string)
    requires Tag("x=", s) == Some(afterX)
    requires I32(afterX) == Some(Parsed(x, afterXValue))
    requires Tag(", y=", afterXValue) == Some(afterY)
    requires I32(afterY) == Some(Parsed(y, rest))
    ensures ParsePoint(s) == Some(Parsed(Point(x, y), rest))
  {
  }

  /** `parse_single_input` from the results of its four steps. */
  lemma ReportSteps(s: string, afterSensor: string, sensor: Point, afterSensorValue: string,
                    afterBeacon: string, beacon: Point, rest: string)
    requires Tag("Sensor at ", s) == Some(afterSensor)
    requires ParsePoint(afterSensor) == Some(Parsed(sensor, afterSensorValue))
    requires Tag(": closest beacon is at ", afterSensorValue) == Some(afterBeacon)
    requires ParsePoint(afterBeacon) == Some(Parsed(beacon, rest))
    ensures ParseReport(s) == Some(Parsed(Report(sensor, beacon), rest))
  {
  }

  /** Reading a report's line back gives the report. */
  lemma ReportRoundTrip(r: Report, rest: string)
    requires FitsI32(r.sensor) && FitsI32(r.closestBeacon) && NoDigitAhead(rest)
    ensures ParseReport(FormatReport(r) + rest) == Some(Parsed(r, rest))
  {
    var afterBeacon := FormatPoint(r.closestBeacon) + rest;
    var afterSensorValue := ": closest beacon is at " + afterBeacon;
    var afterSensor := FormatPoint(r.sensor) + afterSensorValue;
    FourPieces("Sensor at ", FormatPoint(r.sensor), ": closest beacon is at ", FormatPoint(r.closestBeacon), rest);
    TagOfConcat("Sensor at ", afterSensor);
    PointRoundTrip(r.sensor, afterSensorValue);
    TagOfConcat(": closest beacon is at ", afterBeacon);
    PointRoundTrip(r.closestBeacon, rest);
    ReportSteps("Sensor at " + afterSensor, afterSensor, r.sensor, afterSensorValue, afterBeacon, r.closestBeacon, rest);
  }

  // ---------------------------------------------------------------------------
  // What the sensors rule out

  /** How far a sensor's exclusion reaches: the distance to its beacon. */
  function Reach(r: Report): nat { Dist(r.sensor, r.closestBeacon) }

  /** `p` is at least as close to the sensor as the sensor's own beacon. */
  predicate InZone(r: Report, p: Point) { Dist(r.sensor, p) <= Reach(r) }

  /** Some report's zone holds `p` (the inner loop over reports). */
  predicate Covered(reports: seq<Report>, p: Point) {
    exists i :: 0 <= i < |reports| && InZone(reports[i], p)
  }

  /** The reported beacons. */
  function Beacons(reports: seq<Report>): (b: set<Point>)
    ensures forall p :: p in b <==> exists i :: 0 <= i < |reports| && reports[i].closestBeacon == p
  {
    if reports == [] then {}
    else
      var init := reports[..|reports| - 1];
      assert forall i :: 0 <= i < |init| ==> init[i] == reports[i];
      Beacons(init) + {reports[|reports| - 1].closestBeacon}
  }

  /** The covered points `(x, row)` with `lo <= x < hi` (the outer loop). */
  function CoveredOnRow(reports: seq<Report>, row: int, lo: int, hi: int): set<Point>
    decreases hi - lo
  {
    if hi <= lo then {}
    else
      var p := Point(hi - 1, row);
      CoveredOnRow(reports, row, lo, hi - 1) + (if Covered(reports, p) then {p} else {})
  }

  lemma {:induction false} CoveredOnRowMembers(reports: seq<Report>, row: int, lo: int, hi: int, p: Point)
    ensures p in CoveredOnRow(reports, row, lo, hi) <==> p.y == row && lo <= p.x < hi && Covered(reports, p)
    decreases hi - lo
  {
    if lo < hi {
      CoveredOnRowMembers(reports, row, lo, hi - 1, p);
    }
  }

  /** `y_row`: the row of the real puzzle when there are more than 15 reports,
      else the example's. */
  function Row(reports: seq<Report>): int {
    if |reports| > 15 then 2_000_000 else 10
  }

  function LeftEdge(r: Report): int { r.sensor.x - Reach(r) - 2 }
  function RightEdge(r: Report): int { r.sensor.x + Reach(r) + 1 }

  /** `min()` of the left edges. */
  function MinLeft(reports: seq<Report>): int
    requires reports != []
  {
    if |reports| == 1 then LeftEdge(reports[0])
    else
      var rest := MinLeft(reports[1..]);
      if LeftEdge(reports[0]) <= rest then LeftEdge(reports[0]) else rest
  }

  /** `max()` of the right edges. */
  function MaxRight(reports: seq<Report>): int
    requires reports != []
  {
    if |reports| == 1 then RightEdge(reports[0])
    else
      var rest := MaxRight(reports[1..]);
      if RightEdge(reports[0]) >= rest then RightEdge(reports[0]) else rest
  }

  lemma {:induction false} MinLeftIsMinimum(reports: seq<Report>)
    requires reports != []
    ensures forall i :: 0 <= i < |reports| ==> MinLeft(reports) <= LeftEdge(reports[i])
    ensures exists i :: 0 <= i < |reports| && MinLeft(reports) == LeftEdge(reports[i])
    decreases |reports|
  {
    if |reports| > 1 {
      MinLeftIsMinimum(reports[1..]);
      var j :| 0 <= j < |reports[1..]| && MinLeft(reports[1..]) == LeftEdge(reports[1..][j]);
      assert reports[1..][j] == reports[j + 1];
      var w := if LeftEdge(reports[0]) <= MinLeft(reports[1..]) then 0 else j + 1;
      assert MinLeft(reports) == LeftEdge(reports[w]);
      forall i | 1 <= i < |reports| ensures MinLeft(reports) <= LeftEdge(reports[i]) {
        assert reports[i] == reports[1..][i - 1];
      }
    } else {
      assert MinLeft(reports) == LeftEdge(reports[0]);
    }
  }

  lemma {:induction false} MaxRightIsMaximum(reports: seq<Report>)
    requires reports != []
    ensures forall i :: 0 <= i < |reports| ==> RightEdge(reports[i]) <= MaxRight(reports)
    ensures exists i :: 0 <= i < |reports| && MaxRight(reports) == RightEdge(reports[i])
    decreases |reports|
  {
    if |reports| > 1 {
      MaxRightIsMaximum(reports[1..]);
      var j :| 0 <= j < |reports[1..]| && MaxRight(reports[1..]) == RightEdge(reports[1..][j]);
      assert reports[1..][j] == reports[j + 1];
      var w := if RightEdge(reports[0]) >= MaxRight(reports[1..]) then 0 else j + 1;
      assert MaxRight(reports) == RightEdge(reports[w]);
      forall i | 1 <= i < |reports| ensures RightEdge(reports[i]) <= MaxRight(reports) {
        assert reports[i] == reports[1..][i - 1];
      }
    } else {
      assert MaxRight(reports) == RightEdge(reports[0]);
    }
  }

  /** The points of the scanned row that cannot hold a beacon. */
  function Excluded(reports: seq<Report>): set<Point>
    requires reports != []
  {
    CoveredOnRow(reports, Row(reports), MinLeft(reports), MaxRight(reports)) - Beacons(reports)
  }

  /** A point is counted exactly when it lies on the scanned row between the
      bounds, some sensor is at least as close to it as to its own beacon, and
      it is no reported beacon. */
  lemma ExcludedMembers(reports: seq<Report>, p: Point)
    requires reports != []
    ensures p in Excluded(reports) <==>
              && p.y == Row(reports)
              && MinLeft(reports) <= p.x < MaxRight(reports)
              && (exists i :: 0 <= i < |reports| && Dist(reports[i].sensor, p) <= Dist(reports[i].sensor, reports[i].closestBeacon))
              && !(exists i :: 0 <= i < |reports| && reports[i].closestBeacon == p)
  {
    CoveredOnRowMembers(reports, Row(reports), MinLeft(reports), MaxRight(reports), p);
  }

  /** The bounds lose nothing: every covered point of the row lies between
      them, so the count is that of the whole row. */
  lemma BoundsHoldEveryZone(reports: seq<Report>, p: Point)
    requires reports != [] && Covered(reports, p)
    ensures MinLeft(reports) <= p.x < MaxRight(reports)
  {
    var i :| 0 <= i < |reports| && InZone(reports[i], p);
    MinLeftIsMinimum(reports);
    MaxRightIsMaximum(reports);
  }

  // ---------------------------------------------------------------------------
  // Part one

  const TwoToThe32: int := 0x1_0000_0000

  /** `part_one`: input that does not parse completely, or holds no report,
      is a panic; otherwise the number of excluded points, cast `as u32`. */
  method PartOne(input: string) returns (r: Result<nat, Error>)
    ensures ParseReports(input).rest != [] ==> r == Err(Unparsed(ParseReports(input).rest))
    ensures ParseReports(input).rest == [] && ParseReports(input).value == [] ==> r == Err(NoSensors)
    ensures ParseReports(input).rest == [] && ParseReports(input).value != [] ==>
              r == Ok(|Excluded(ParseReports(input).value)| % TwoToThe32)
  {
    var parsed := ParseReports(input);
    if parsed.rest != [] {
      return Err(Unparsed(parsed.rest));
    }
    var packets := parsed.value;
    if packets == [] {
      return Err(NoSensors);
    }
    var yRow := Row(packets);
    var minX, maxX := MinLeft(packets), MaxRight(packets);
    var pointsThatCannotHaveBeacon := MarkCovered(packets, yRow, minX, maxX);
    pointsThatCannotHaveBeacon := RemoveBeacons(packets, pointsThatCannotHaveBeacon);
    return Ok(|pointsThatCannotHaveBeacon| % TwoToThe32);
  }

  /** The scan: for each `x` in `lo..hi`, insert `(x, row)` into the set when
      some report's zone holds it. */
  method MarkCovered(packets: seq<Report>, row: int, lo: int, hi: int) returns (marked: set<Point>)
    ensures marked == CoveredOnRow(packets, row, lo, if hi < lo then lo else hi)
  {
    marked := {};
    var x := lo;
    while x < hi
      invariant lo <= x && (x <= hi || x == lo)
      invariant marked == CoveredOnRow(packets, row, lo, x)
      decreases hi - x
    {
      var point := Point(x, row);
      ghost var before := marked;
      for k := 0 to |packets|
        invariant marked == before + (if exists i :: 0 <= i < k && InZone(packets[i], point) then {point} else {})
      {
        if Dist(packets[k].sensor, point) <= Dist(packets[k].sensor, packets[k].closestBeacon) {
          marked := marked + {point};
        }
      }
      x := x + 1;
    }
  }

  /** The final loop: every reported beacon is removed from the set. */
  method RemoveBeacons(packets: seq<Report>, marked: set<Point>) returns (left: set<Point>)
    ensures left == marked - Beacons(packets)
  {
    left := marked;
    for k := 0 to |packets|
      invariant left == marked - Beacons(packets[..k])
    {
      assert packets[..k + 1][..k] == packets[..k];
      left := left - {packets[k].closestBeacon};
    }
    assert packets[..|packets|] == packets;
  }

  // ---------------------------------------------------------------------------
  // The input text of a list of reports

  function FormatReports(rs: seq<Report>): (lines: seq<string>)
    ensures |lines| == |rs|
    ensures forall i :: 0 <= i < |rs| ==> lines[i] == FormatReport(rs[i])
  {
    if rs == [] then [] else [FormatReport(rs[0])] + FormatReports(rs[1..])
  }

  /** One report per line. */
  function ReportsText(rs: seq<Report>): string
    requires rs != []
  {
    Join(FormatReports(rs), '\n')
  }

  predicate AllFit(rs: seq<Report>) {
    forall i :: 0 <= i < |rs| ==> FitsI32(rs[i].sensor) && FitsI32(rs[i].closestBeacon)
  }

  /** Reading the text of some reports gives them back and consumes all of
      it; a final line break is left unparsed. */
  lemma ReportsRoundTrip(rs: seq<Report>, trailing: string)
    requires rs != [] && AllFit(rs) && (trailing == "" || trailing == "\n")
    ensures ParseReports(ReportsText(rs) + trailing) == Parsed(rs, trailing)
  {
    ParsersProgress();
    var lines := FormatReports(rs);
    forall i, more | 0 <= i < |lines| && LineEnd(more)
      ensures ParseReport(lines[i] + more) == Some(Parsed(rs[i], more))
    {
      ReportRoundTrip(rs[i], more);
    }
    SeparatedListOfLines(ParseReport, lines, rs, trailing);
  }

  /** The text of a report list, with nothing after it, is read back whole. */
  lemma ReportsRead(rs: seq<Report>)
    requires rs != [] && AllFit(rs)
    ensures ParseReports(ReportsText(rs)) == Parsed(rs, "")
  {
    ReportsRoundTrip(rs, "");
    assert ReportsText(rs) + "" == ReportsText(rs);
  }

  // ---------------------------------------------------------------------------
  // Counting a covered stretch of the row

  /** The points `(x, row)` with `a <= x < b`. */
  function Segment(row: int, a: int, b: int): set<Point>
    decreases b - a
  {
    if b <= a then {} else Segment(row, a, b - 1) + {Point(b - 1, row)}
  }

  lemma {:induction false} SegmentMembers(row: int, a: int, b: int, p: Point)
    ensures p in Segment(row, a, b) <==> p.y == row && a <= p.x < b
    decreases b - a
  {
    if a < b {
      SegmentMembers(row, a, b - 1, p);
    }
  }

  lemma {:induction false} SegmentSize(row: int, a: int, b: int)
    requires a <= b
    ensures |Segment(row, a, b)| == b - a
    decreases b - a
  {
    if a < b {
      SegmentSize(row, a, b - 1);
      SegmentMembers(row, a, b - 1, Point(b - 1, row));
    }
  }

  /** When the zones meet the scanned row in exactly `a <= x < b`, inside
      the bounds, the scan marks exactly that stretch. */
  lemma CoveredStretch(reports: seq<Report>, row: int, lo: int, hi: int, a: int, b: int)
    requires lo <= a <= b <= hi
    requires forall x :: Covered(reports, Point(x, row)) <==> a <= x < b
    ensures CoveredOnRow(reports, row, lo, hi) == Segment(row, a, b)
  {
    forall p ensures p in CoveredOnRow(reports, row, lo, hi) <==> p in Segment(row, a, b) {
      CoveredOnRowMembers(reports, row, lo, hi, p);
      SegmentMembers(row, a, b, p);
      if p.y == row {
        assert p == Point(p.x, row);
      }
    }
  }

  // ---------------------------------------------------------------------------
  // The example from the puzzle text

  function R(sx: int, sy: int, beaconX: int, beaconY: int): Report {
    Report(Point(sx, sy), Point(beaconX, beaconY))
  }

  function ExampleReports(): seq<Report> {
    [R(2, 18, -2, 15), R(9, 16, 10, 16), R(13, 2, 15, 3), R(12, 14, 10, 16),
     R(10, 20, 10, 16), R(14, 17, 10, 16), R(8, 7, 2, 10), R(2, 0, 2, 10),
     R(0, 11, 2, 10), R(20, 14, 25, 17), R(17, 20, 21, 22), R(16, 7, 15, 3),
     R(14, 3, 15, 3), R(20, 1, 15, 3)]
  }

  /** On row 10 the zones cover exactly `-2 <= x <= 24`. */
  lemma ExampleCoverage(x: int)
    ensures Covered(ExampleReports(), Point(x, 10)) <==> -2 <= x < 25
  {
    var ex, p := ExampleReports(), Point(x, 10);
    if -2 <= x <= 2 {
      assert InZone(ex[8], p);
    } else if 2 < x <= 14 {
      assert InZone(ex[6], p);
    } else if 14 < x <= 18 {
      assert InZone(ex[11], p);
    } else if 18 < x <= 24 {
      assert InZone(ex[9], p);
    }
    forall i | 0 <= i < |ex| && InZone(ex[i], p) ensures -2 <= x < 25 {
      ExampleZone(i, x);
    }
  }

  lemma ExampleZone(i: nat, x: int)
    requires i < 14 && InZone(ExampleReports()[i], Point(x, 10))
    ensures -2 <= x < 25
  {
    if i == 0 {} else if i == 1 {} else if i == 2 {} else if i == 3 {}
    else if i == 4 {} else if i == 5 {} else if i == 6 {} else if i == 7 {}
    else if i == 8 {} else if i == 9 {} else if i == 10 {} else if i == 11 {}
    else if i == 12 {} else {}
  }

  /** The only reported beacon on row 10 is `(2, 10)`. */
  lemma ExampleBeaconsOnRow(p: Point)
    requires p.y == 10
    ensures p in Beacons(ExampleReports()) <==> p == Point(2, 10)
  {
    var ex := ExampleReports();
    assert ex[6].closestBeacon == Point(2, 10);
    forall i | 0 <= i < |ex| && ex[i].closestBeacon == p ensures p == Point(2, 10) {
      ExampleBeacon(i);
    }
  }

  lemma ExampleBeacon(i: nat)
    requires i < 14 && ExampleReports()[i].closestBeacon.y == 10
    ensures ExampleReports()[i].closestBeacon == Point(2, 10)
  {
    if i == 0 {} else if i == 1 {} else if i == 2 {} else if i == 3 {}
    else if i == 4 {} else if i == 5 {} else if i == 6 {} else if i == 7 {}
    else if i == 8 {} else if i == 9 {} else if i == 10 {} else if i == 11 {}
    else if i == 12 {} else {}
  }

  /** The scan of the example runs over row 10, from at most -2 to at least 25. */
  lemma ExampleBounds()
    ensures Row(ExampleReports()) == 10
    ensures MinLeft(ExampleReports()) <= -2 && 25 <= MaxRight(ExampleReports())
  {
    var ex := ExampleReports();
    MinLeftIsMinimum(ex);
    MaxRightIsMaximum(ex);
    assert LeftEdge(ex[7]) == -10;
    assert RightEdge(ex[9]) == 29;
  }

  /** When the zones meet the scanned row in exactly `a <= x < b`, inside
      the bounds, and one reported beacon lies there, part one counts
      `b - a - 1` points. */
  lemma StretchCount(reports: seq<Report>, a: int, b: int, beacon: Point)
    requires reports != []
    requires MinLeft(reports) <= a < b <= MaxRight(reports)
    requires forall x :: Covered(reports, Point(x, Row(reports))) <==> a <= x < b
    requires beacon.y == Row(reports) && a <= beacon.x < b
    requires forall p: Point :: p.y == Row(reports) && a <= p.x < b ==> (p in Beacons(reports) <==> p == beacon)
    ensures |Excluded(reports)| == b - a - 1
  {
    var row := Row(reports);
    CoveredStretch(reports, row, MinLeft(reports), MaxRight(reports), a, b);
    var stretch := Segment(row, a, b);
    SegmentSize(row, a, b);
    SegmentMembers(row, a, b, beacon);
    assert beacon in Beacons(reports);
    forall p | p in stretch && p in Beacons(reports) ensures p == beacon {
      SegmentMembers(row, a, b, p);
    }
    RemoveOnePresent(stretch, Beacons(reports), beacon);
  }

  /** Taking away a set that meets `s` in one point only removes that point. */
  lemma RemoveOnePresent(s: set<Point>, bs: set<Point>, beacon: Point)
    requires beacon in s && beacon in bs
    requires forall p :: p in s && p in bs ==> p == beacon
    ensures |s - bs| == |s| - 1
  {
    assert s - bs == s - {beacon};
  }

  /** Every coordinate of the example fits in an `i32`. */
  lemma ExampleFits()
    ensures AllFit(ExampleReports())
  {
  }

  /** The example's reports, one per line, read back completely. */
  lemma ExampleParses()
    ensures ParseReports(ReportsText(ExampleReports())) == Parsed(ExampleReports(), "")
  {
    ExampleFits();
    ReportsRead(ExampleReports());
  }

  /** With a line break after the last report, that line break is left
      unparsed, and part one panics. */
  lemma ExampleTrailingNewline()
    ensures ParseReports(ReportsText(ExampleReports()) + "\n").rest == "\n"
  {
    ExampleFits();
    ReportsRoundTrip(ExampleReports(), "\n");
  }

  lemma ExampleRowCoverage()
    ensures forall x :: Covered(ExampleReports(), Point(x, Row(ExampleReports()))) <==> -2 <= x < 25
  {
    ExampleBounds();
    forall x ensures Covered(ExampleReports(), Point(x, 10)) <==> -2 <= x < 25 {
      ExampleCoverage(x);
    }
  }

  lemma ExampleRowBeacons()
    ensures forall p: Point :: p.y == Row(ExampleReports()) && -2 <= p.x < 25 ==>
      (p in Beacons(ExampleReports()) <==> p == Point(2, 10))
  {
    ExampleBounds();
    forall p: Point | p.y == 10 && -2 <= p.x < 25
      ensures p in Beacons(ExampleReports()) <==> p == Point(2, 10)
    {
      ExampleBeaconsOnRow(p);
    }
  }

  /** On the example, part one counts 26 points. */
  lemma ExampleAnswer()
    ensures |Excluded(ExampleReports())| % TwoToThe32 == 26
  {
    ExampleBounds();
    ExampleRowCoverage();
    ExampleRowBeacons();
    StretchCount(ExampleReports(), -2, 25, Point(2, 10));
    var n := |Excluded(ExampleReports())|;
    assert n == 26;
    assert n % TwoToThe32 == 26;
  }
}
