/**
 * The distance of each matched backstreet event to the center of mass of the
 * time-point it was assigned, for the real and for the random assignment.
 * The `distance` column is kept squared: the square root is monotone and zero
 * only at zero, so the squared column orders the rows the same way.
 */
module Distances {
  import opened Wrappers
  import opened Tables
  import opened Merge
  import opened Centers

  /** The square of a real number. */
  function Square(a: real): real
  {
    a * a
  }

  /** The squared Euclidean distance between two points. */
  function SqDistance(p: Point, q: Point): (d: real)
    ensures d >= 0.0
    ensures d == 0.0 <==> p == q
  {
    var dx, dy, dz := p.x - q.x, p.y - q.y, p.z - q.z;
    SquareSign(dx);
    SquareSign(dy);
    SquareSign(dz);
    Square(dx) + Square(dy) + Square(dz)
  }

  /** A square is never negative, and is positive unless its root is zero. */
  lemma SquareSign(a: real)
    ensures Square(a) >= 0.0
    ensures a != 0.0 ==> Square(a) > 0.0
  {
    if a > 0.0 {
      calc {
        Square(a);
      ==
        a * a;
      >
        0.0;
      }
    } else if a < 0.0 {
      calc {
        Square(a);
      ==
        (-a) * (-a);
      >
        0.0;
      }
    }
  }

  /** The squared distance between a row's position and its center; None (NaN) when either is missing. */
  function SqDistanceTo(pos: Option<Point>, center: Option<Center>): (d: Option<real>)
    ensures d.Some? <==> pos.Some? && center.Some?
    ensures d.Some? ==> d.value >= 0.0 && (d.value == 0.0 <==> pos.value == center.value.com)
  {
    if pos.Some? && center.Some? then Some(SqDistance(pos.value, center.value.com)) else None
  }

  /** A joined row with its `distance` column assigned. */
  function WithDistance(r: DistanceRow): DistanceRow
  {
    r.(sqDistance := SqDistanceTo(r.row.pos, r.center))
  }

  /** The frame of the left merge of the match rows on `matching_point_time_point` with the centers' `time-point`. */
  function Joined(rows: seq<MatchRow>, com: seq<Center>): (frame: seq<DistanceRow>)
    ensures |frame| >= |rows|
    ensures forall d :: d in frame ==>
              && d.row in rows
              && d.sqDistance.None?
              && (d.center.Some? ==> d.center.value in com && d.center.value.timePoint == d.row.matchedTimePoint)
              && (d.center.None? ==> forall c :: c in com ==> c.timePoint != d.row.matchedTimePoint)
    ensures forall r :: r in rows ==> exists d :: d in frame && d.row == r
  {
    var merged := LeftMerge(rows, com, MatchedTimePoint, CenterTimePoint);
    var frame := seq(|merged|, i requires 0 <= i < |merged| => DistanceRow(merged[i].0, merged[i].1, None));
    assert forall r :: r in rows ==> exists d :: d in frame && d.row == r by {
      LeftMergeCovers(rows, com, MatchedTimePoint, CenterTimePoint);
      forall r | r in rows ensures exists d :: d in frame && d.row == r {
        var i :| 0 <= i < |merged| && merged[i].0 == r;
        assert frame[i] in frame;
      }
    }
    frame
  }

  /** The distance table: the joined frame with its `distance` column assigned. */
  function DistanceTable(rows: seq<MatchRow>, com: seq<Center>): (table: seq<DistanceRow>)
    ensures |table| >= |rows|
    ensures forall d :: d in table ==>
              && d.row in rows
              && d.sqDistance == SqDistanceTo(d.row.pos, d.center)
              && (d.center.Some? ==> d.center.value in com && d.center.value.timePoint == d.row.matchedTimePoint)
              && (d.center.None? ==> forall c :: c in com ==> c.timePoint != d.row.matchedTimePoint)
    ensures forall r :: r in rows ==> exists d :: d in table && d.row == r
  {
    var frame := Joined(rows, com);
    var table := seq(|frame|, i requires 0 <= i < |frame| => WithDistance(frame[i]));
    assert forall r :: r in rows ==> exists d :: d in table && d.row == r by {
      forall r | r in rows ensures exists d :: d in table && d.row == r {
        var e :| e in frame && e.row == r;
        var i :| 0 <= i < |frame| && frame[i] == e;
        assert table[i] in table;
      }
    }
    table
  }

  /** Assigns the `distance` column of a joined frame in place, row by row. */
  method AssignDistances(frame: array<DistanceRow>)
    modifies frame
    ensures forall i :: 0 <= i < frame.Length ==> frame[i] == WithDistance(old(frame[i]))
  {
    for i := 0 to frame.Length
      invariant forall k :: 0 <= k < i ==> frame[k] == WithDistance(old(frame[k]))
      invariant forall k :: i <= k < frame.Length ==> frame[k] == old(frame[k])
    {
      frame[i] := WithDistance(frame[i]);
    }
  }

  /**
   * Against centers with unique time-points, the distance table has one row
   * per match row, in order; each is joined to the center of its
   * `matching_point_time_point`, or to nothing when there is none, and its
   * distance is missing exactly when its position or its center is.
   */
  lemma DistanceTableRows(rows: seq<MatchRow>, com: seq<Center>)
    requires UniqueKeys(com, CenterTimePoint)
    ensures |DistanceTable(rows, com)| == |rows|
    ensures forall i :: 0 <= i < |rows| ==>
              var d := DistanceTable(rows, com)[i];
              && d.row == rows[i]
              && d.center == Lookup(com, CenterTimePoint, rows[i].matchedTimePoint)
              && (d.center.None? <==> forall c :: c in com ==> c.timePoint != rows[i].matchedTimePoint)
              && (d.sqDistance.Some? <==> rows[i].pos.Some? && d.center.Some?)
              && (d.sqDistance.Some? ==> d.sqDistance.value == SqDistance(rows[i].pos.value, d.center.value.com))
  {
    LeftMergeUnique(rows, com, MatchedTimePoint, CenterTimePoint);
  }

  /**
   * Whatever the centers, every distance in the table is non-negative, and it
   * is zero exactly when the row's position is its center.
   */
  lemma DistanceNonNegative(rows: seq<MatchRow>, com: seq<Center>)
    ensures forall d :: d in DistanceTable(rows, com) && d.sqDistance.Some? ==>
              && d.sqDistance.value >= 0.0
              && (d.sqDistance.value == 0.0 <==> d.row.pos == Some(d.center.value.com))
  {
  }

  /**
   * `calculate_distances`: merges the match rows with the centers and assigns
   * the distance column of the merged frame in place.
   */
  method CalculateDistances(rows: seq<MatchRow>, com: seq<Center>) returns (table: seq<DistanceRow>)
    ensures table == DistanceTable(rows, com)
    ensures UniqueKeys(com, CenterTimePoint) ==> |table| == |rows|
  {
    var merged := Joined(rows, com);
    var frame := new DistanceRow[|merged|](i requires 0 <= i < |merged| => merged[i]);
    AssignDistances(frame);
    table := frame[..];
    if UniqueKeys(com, CenterTimePoint) {
      DistanceTableRows(rows, com);
    }
  }

  /** The random rows merged on `image-ID` with the trace, which gives them the trace's `x`, `y`, `z`. */
  function RandomWithCoordinates(randoms: seq<RandomMatchRow>, trace: seq<Observation>): (rows: seq<MatchRow>)
    ensures |rows| >= |randoms|
    ensures forall m :: m in rows ==>
              && RandomMatchRow(m.imageId, m.matchedTimePoint) in randoms
              && (m.pos.Some? ==> exists o :: o in trace && o.imageId == m.imageId && o.pos == m.pos.value)
              && (m.pos.None? ==> forall o :: o in trace ==> o.imageId != m.imageId)
    ensures forall r :: r in randoms ==>
              exists m :: m in rows && m.imageId == r.imageId && m.matchedTimePoint == r.matchedTimePoint
  {
    var merged := LeftMerge(randoms, trace, RandomImageId, ImageId);
    var rows := seq(|merged|, i requires 0 <= i < |merged| =>
      MatchRow(merged[i].0.imageId,
               if merged[i].1.Some? then Some(merged[i].1.value.pos) else None,
               merged[i].0.matchedTimePoint));
    assert forall r :: r in randoms ==>
             exists m :: m in rows && m.imageId == r.imageId && m.matchedTimePoint == r.matchedTimePoint by {
      LeftMergeCovers(randoms, trace, RandomImageId, ImageId);
      forall r | r in randoms
        ensures exists m :: m in rows && m.imageId == r.imageId && m.matchedTimePoint == r.matchedTimePoint
      {
        var i :| 0 <= i < |merged| && merged[i].0 == r;
        assert rows[i] in rows;
      }
    }
    rows
  }

  /**
   * With unique `image-ID`s in the trace, the re-joined random table has one
   * row per random row, in order, with the same identity and assigned
   * time-point, and the coordinates of the trace event with that identity
   * (missing when the trace has none).
   */
  lemma RandomWithCoordinatesRows(randoms: seq<RandomMatchRow>, trace: seq<Observation>)
    requires UniqueKeys(trace, ImageId)
    ensures |RandomWithCoordinates(randoms, trace)| == |randoms|
    ensures forall i :: 0 <= i < |randoms| ==>
              var m := RandomWithCoordinates(randoms, trace)[i];
              && m.imageId == randoms[i].imageId
              && m.matchedTimePoint == randoms[i].matchedTimePoint
              && (m.pos.None? <==> forall o :: o in trace ==> o.imageId != randoms[i].imageId)
              && (m.pos.Some? ==> exists o :: o in trace && o.imageId == randoms[i].imageId && o.pos == m.pos.value)
  {
    LeftMergeUnique(randoms, trace, RandomImageId, ImageId);
  }

  /** The centers table never holds two rows with the same time-point. */
  lemma CentersUniqueKeys(rows: seq<Observation>)
    ensures UniqueKeys(CentersOfMass(rows), CenterTimePoint)
  {
  }

  /**
   * `calc_distances`: the real and the random distance tables, both measured
   * against the centers of the full trace. The real table keeps its row
   * count; so does the random one when the trace's `image-ID`s are unique.
   */
  method CalcDistances(trace: seq<Observation>, matches: seq<MatchRow>, randoms: seq<RandomMatchRow>)
    returns (distances: seq<DistanceRow>, distancesRandom: seq<DistanceRow>)
    ensures distances == DistanceTable(matches, CentersOfMass(trace))
    ensures distancesRandom == DistanceTable(RandomWithCoordinates(randoms, trace), CentersOfMass(trace))
    ensures |distances| == |matches|
    ensures UniqueKeys(trace, ImageId) ==> |distancesRandom| == |randoms|
  {
    var com := CentersOfMass(trace);
    CentersUniqueKeys(trace);
    distances := CalculateDistances(matches, com);
    var randomMatches := RandomWithCoordinates(randoms, trace);
    if UniqueKeys(trace, ImageId) {
      RandomWithCoordinatesRows(randoms, trace);
    }
    com := CentersOfMass(trace);
    distancesRandom := CalculateDistances(randomMatches, com);
  }
}
