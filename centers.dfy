/**
 * The centers of mass of a trace: the rows grouped by `time-point`, one center
 * per group whose coordinates are the group's mean `x`, `y` and `z`. As with a
 * pandas group-by, the groups come out in ascending order of their key.
 */
module Centers {
  import opened Seqs
  import opened Tables

  /** `k` added to an ascending sequence of distinct keys, keeping it ascending and distinct. */
  function InsertKey(keys: seq<int>, k: int): (r: seq<int>)
    requires StrictlyIncreasing(keys)
    ensures StrictlyIncreasing(r)
    ensures forall t :: t in r <==> t in keys || t == k
    decreases |keys|
  {
    if keys == [] then [k]
    else if k < keys[0] then [k] + keys
    else if k == keys[0] then keys
    else
      var rest := InsertKey(keys[1..], k);
      PrependSmaller(keys[0], rest);
      [keys[0]] + rest
  }

  /** A key smaller than every key of an ascending sequence can be put in front of it. */
  lemma PrependSmaller(x: int, rest: seq<int>)
    requires StrictlyIncreasing(rest)
    requires forall y :: y in rest ==> x < y
    ensures StrictlyIncreasing([x] + rest)
  {
    var r := [x] + rest;
    forall i, j | 0 <= i < j < |r| ensures r[i] < r[j] {
      assert r[j] == rest[j - 1];
      if i > 0 {
        assert r[i] == rest[i - 1];
      } else {
        assert rest[j - 1] in rest;
      }
    }
  }

  /** The distinct time-points of the rows, in ascending order: the keys of the group-by. */
  function GroupKeys(rows: seq<Observation>): (keys: seq<int>)
    ensures StrictlyIncreasing(keys)
    decreases |rows|
  {
    if rows == [] then []
    else InsertKey(GroupKeys(rows[..|rows| - 1]), rows[|rows| - 1].timePoint)
  }

  /** The group keys are exactly the time-points that occur in the rows. */
  lemma {:induction false} GroupKeysMembers(rows: seq<Observation>)
    ensures forall t :: t in GroupKeys(rows) <==> exists i :: 0 <= i < |rows| && rows[i].timePoint == t
    decreases |rows|
  {
    if rows != [] {
      var init := rows[..|rows| - 1];
      GroupKeysMembers(init);
      assert forall i :: 0 <= i < |init| ==> init[i] == rows[i];
    }
  }

  /** The selector `o => o.timePoint == t` of one group. */
  function AtTimePoint(t: int): Observation -> bool
  {
    (o: Observation) => o.timePoint == t
  }

  /** The rows of the group with time-point `t`, in their order. */
  function Group(rows: seq<Observation>, t: int): (g: seq<Observation>)
    ensures |g| <= |rows|
    ensures forall o :: o in g ==> o in rows && o.timePoint == t
  {
    Filter(rows, AtTimePoint(t))
  }

  /**
   * A row is in a group exactly when it is one of the rows and has the group's
   * time-point, and the group holds it as often as the rows do.
   */
  lemma GroupMembers(rows: seq<Observation>, t: int)
    ensures forall o :: o in Group(rows, t) <==> o in rows && o.timePoint == t
    ensures forall o :: multiset(Group(rows, t))[o] == if o.timePoint == t then multiset(rows)[o] else 0
  {
    FilterMembershipAll(rows, AtTimePoint(t));
    FilterMultiplicity(rows, AtTimePoint(t));
  }

  /** One coordinate axis. */
  datatype Axis = X | Y | Z

  /** The coordinate of a point along an axis. */
  function Coord(p: Point, a: Axis): real
  {
    match a
    case X => p.x
    case Y => p.y
    case Z => p.z
  }

  /** The sum of one coordinate over some rows. */
  function Sum(g: seq<Observation>, a: Axis): real
    decreases |g|
  {
    if g == [] then 0.0 else Coord(g[0].pos, a) + Sum(g[1..], a)
  }

  /** The mean position of a non-empty group (`np.average` of each coordinate). */
  function Mean(g: seq<Observation>): (m: Point)
    requires |g| > 0
    ensures m.x * |g| as real == Sum(g, X)
    ensures m.y * |g| as real == Sum(g, Y)
    ensures m.z * |g| as real == Sum(g, Z)
  {
    Point(Sum(g, X) / |g| as real, Sum(g, Y) / |g| as real, Sum(g, Z) / |g| as real)
  }

  /** A time-point that occurs in the rows has a non-empty group. */
  lemma GroupNonEmpty(rows: seq<Observation>, t: int)
    requires t in GroupKeys(rows)
    ensures |Group(rows, t)| > 0
  {
    GroupKeysMembers(rows);
    var i :| 0 <= i < |rows| && rows[i].timePoint == t;
    GroupMembers(rows, t);
    assert rows[i] in Group(rows, t);
  }

  /** The centers of the groups with the given time-points, in that order. */
  function CentersAt(rows: seq<Observation>, keys: seq<int>): (com: seq<Center>)
    requires forall i :: 0 <= i < |keys| ==> |Group(rows, keys[i])| > 0
    ensures |com| == |keys|
    ensures forall i :: 0 <= i < |com| ==> com[i] == Center(keys[i], Mean(Group(rows, keys[i])))
    decreases |keys|
  {
    if keys == [] then []
    else [Center(keys[0], Mean(Group(rows, keys[0])))] + CentersAt(rows, keys[1..])
  }

  /** Every group key has a non-empty group. */
  lemma GroupKeysNonEmpty(rows: seq<Observation>)
    ensures forall i :: 0 <= i < |GroupKeys(rows)| ==> |Group(rows, GroupKeys(rows)[i])| > 0
  {
    var keys := GroupKeys(rows);
    forall i | 0 <= i < |keys| ensures |Group(rows, keys[i])| > 0 {
      GroupNonEmpty(rows, keys[i]);
    }
  }

  /** The centers of the group keys carry exactly the time-points of the rows, ascending. */
  lemma CentersAtGroupKeys(rows: seq<Observation>, com: seq<Center>)
    requires |com| == |GroupKeys(rows)|
    requires forall i :: 0 <= i < |com| ==> com[i].timePoint == GroupKeys(rows)[i]
    ensures forall i, j :: 0 <= i < j < |com| ==> com[i].timePoint < com[j].timePoint
    ensures forall i :: 0 <= i < |com| ==> exists j :: 0 <= j < |rows| && rows[j].timePoint == com[i].timePoint
    ensures forall j :: 0 <= j < |rows| ==> exists i :: 0 <= i < |com| && com[i].timePoint == rows[j].timePoint
  {
    var keys := GroupKeys(rows);
    GroupKeysMembers(rows);
    forall i | 0 <= i < |keys| ensures exists j :: 0 <= j < |rows| && rows[j].timePoint == keys[i] {
      assert keys[i] in keys;
    }
    forall j | 0 <= j < |rows| ensures exists i :: 0 <= i < |com| && com[i].timePoint == rows[j].timePoint {
      assert rows[j].timePoint in keys;
    }
  }

  /**
   * The centers table: one row per distinct time-point of the input, in
   * ascending order of time-point, so no key appears twice.
   */
  function CentersOfMass(rows: seq<Observation>): (com: seq<Center>)
    ensures forall i, j :: 0 <= i < j < |com| ==> com[i].timePoint < com[j].timePoint
    ensures forall i :: 0 <= i < |com| ==> exists j :: 0 <= j < |rows| && rows[j].timePoint == com[i].timePoint
    ensures forall j :: 0 <= j < |rows| ==> exists i :: 0 <= i < |com| && com[i].timePoint == rows[j].timePoint
  {
    GroupKeysNonEmpty(rows);
    var com := CentersAt(rows, GroupKeys(rows));
    CentersAtGroupKeys(rows, com);
    com
  }

  /** Each row of the centers table holds the mean position of the non-empty group of its time-point. */
  lemma CenterRow(rows: seq<Observation>, c: Center)
    requires c in CentersOfMass(rows)
    ensures |Group(rows, c.timePoint)| > 0
    ensures c.com == Mean(Group(rows, c.timePoint))
  {
    GroupKeysNonEmpty(rows);
    var i :| 0 <= i < |CentersOfMass(rows)| && CentersOfMass(rows)[i] == c;
  }

  /** The mean times the group size is the group's sum, along every axis. */
  lemma MeanTimesSize(g: seq<Observation>, a: Axis)
    requires |g| > 0
    ensures Coord(Mean(g), a) * |g| as real == Sum(g, a)
  {
    var n := |g| as real;
    assert Coord(Mean(g), a) == Sum(g, a) / n by {
      match a
      case X =>
      case Y =>
      case Z =>
    }
  }

  /** If every row of a group lies above `m` along an axis, the sum exceeds the size times `m`. */
  lemma {:induction false} SumAbove(g: seq<Observation>, a: Axis, m: real)
    requires forall o :: o in g ==> Coord(o.pos, a) > m
    ensures |g| > 0 ==> Sum(g, a) > m * |g| as real
    ensures |g| == 0 ==> Sum(g, a) == 0.0
    decreases |g|
  {
    if g != [] {
      assert g[0] in g;
      SumAbove(g[1..], a, m);
    }
  }

  /** If every row of a group lies below `m` along an axis, the sum falls short of the size times `m`. */
  lemma {:induction false} SumBelow(g: seq<Observation>, a: Axis, m: real)
    requires forall o :: o in g ==> Coord(o.pos, a) < m
    ensures |g| > 0 ==> Sum(g, a) < m * |g| as real
    ensures |g| == 0 ==> Sum(g, a) == 0.0
    decreases |g|
  {
    if g != [] {
      assert g[0] in g;
      SumBelow(g[1..], a, m);
    }
  }

  /** A value that times the group size gives the group's sum has a row of the group on either side of it. */
  lemma AverageWithinGroup(g: seq<Observation>, a: Axis, m: real)
    requires |g| > 0
    requires m * |g| as real == Sum(g, a)
    ensures exists o :: o in g && Coord(o.pos, a) <= m
    ensures exists o :: o in g && Coord(o.pos, a) >= m
  {
    if forall o :: o in g ==> Coord(o.pos, a) > m {
      SumAbove(g, a, m);
    }
    if forall o :: o in g ==> Coord(o.pos, a) < m {
      SumBelow(g, a, m);
    }
  }

  /** Along every axis the mean of a non-empty group lies between the group's smallest and largest coordinate. */
  lemma MeanWithinGroup(g: seq<Observation>, a: Axis)
    requires |g| > 0
    ensures exists o :: o in g && Coord(o.pos, a) <= Coord(Mean(g), a)
    ensures exists o :: o in g && Coord(o.pos, a) >= Coord(Mean(g), a)
  {
    MeanTimesSize(g, a);
    AverageWithinGroup(g, a, Coord(Mean(g), a));
  }

  /**
   * Along every axis each center lies between the smallest and the largest
   * coordinate of its group: some row with its time-point is at or below it
   * and some row with its time-point at or above it.
   */
  lemma CenterWithinGroup(rows: seq<Observation>, c: Center, a: Axis)
    requires c in CentersOfMass(rows)
    ensures exists o :: o in rows && o.timePoint == c.timePoint && Coord(o.pos, a) <= Coord(c.com, a)
    ensures exists o :: o in rows && o.timePoint == c.timePoint && Coord(o.pos, a) >= Coord(c.com, a)
  {
    var g := Group(rows, c.timePoint);
    CenterRow(rows, c);
    MeanWithinGroup(g, a);
    GroupMembers(rows, c.timePoint);
  }

  // A worked example: three events at one time-point, at (0,0,0), (3,0,0) and (0,3,0).

  /** The three rows of the example. */
  predicate IsTriangle(rows: seq<Observation>)
  {
    rows == [Observation(1, 0, Point(0.0, 0.0, 0.0)), Observation(2, 0, Point(3.0, 0.0, 0.0)), Observation(3, 0, Point(0.0, 3.0, 0.0))]
  }

  /** The example has one group. */
  lemma TriangleKeys(rows: seq<Observation>)
    requires IsTriangle(rows)
    ensures GroupKeys(rows) == [0]
  {
    assert GroupKeys(rows[..1]) == [0];
    assert GroupKeys(rows[..2]) == [0];
  }

  /** The group of the example holds all three rows. */
  lemma TriangleGroup(rows: seq<Observation>)
    requires IsTriangle(rows)
    ensures Group(rows, 0) == rows
  {
    assert rows[1..][1..] == rows[2..];
    assert rows[2..][1..] == [];
    assert Filter(rows[2..], AtTimePoint(0)) == rows[2..];
    assert Filter(rows[1..], AtTimePoint(0)) == rows[1..];
  }

  /** The mean of the three rows is (1,1,0). */
  lemma TriangleMean(rows: seq<Observation>)
    requires IsTriangle(rows)
    ensures Mean(rows) == Point(1.0, 1.0, 0.0)
  {
    assert rows[1..][1..] == rows[2..];
    assert rows[2..][1..] == [];
    assert Sum(rows[2..], X) == 0.0 && Sum(rows[2..], Y) == 3.0 && Sum(rows[2..], Z) == 0.0;
    assert Sum(rows[1..], X) == 3.0 && Sum(rows[1..], Y) == 3.0 && Sum(rows[1..], Z) == 0.0;
  }

  /** The centers table of the example is the single row (0; 1, 1, 0). */
  lemma TriangleCenter(rows: seq<Observation>)
    requires IsTriangle(rows)
    ensures CentersOfMass(rows) == [Center(0, Point(1.0, 1.0, 0.0))]
  {
    TriangleKeys(rows);
    TriangleGroup(rows);
    TriangleMean(rows);
    GroupKeysNonEmpty(rows);
    assert CentersAt(rows, [0]) == [Center(0, Mean(rows))];
  }
}
