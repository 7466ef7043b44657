/** The rows of the data frames the dashboard reads, one datatype per kind of table. */
module Tables {
  import opened Wrappers

  /** A position in space; coordinates are reals (the source's floats, without rounding). */
  datatype Point = Point(x: real, y: real, z: real)

  /** A row of a trace table: one blinking event with its `image-ID`, `time-point` and `x`, `y`, `z`. */
  datatype Observation = Observation(imageId: int, timePoint: int, pos: Point)

  /**
   * A row of a match table: a backstreet event, its own position and the
   * `matching_point_time_point` it was assigned. `pos` is None where the
   * coordinates are missing (NaN), as after a left merge that found nothing.
   */
  datatype MatchRow = MatchRow(imageId: int, pos: Option<Point>, matchedTimePoint: int)

  /** A row of a random-control match table, which carries no coordinates. */
  datatype RandomMatchRow = RandomMatchRow(imageId: int, matchedTimePoint: int)

  /** A row of the centers table: a `time-point` and its `com_x`, `com_y`, `com_z`. */
  datatype Center = Center(timePoint: int, com: Point)

  /**
   * A row of a distance table: a match row, the center its time-point joined
   * to (None when none did) and the squared `distance` (None while the column
   * is not yet assigned, or when the distance is NaN).
   */
  datatype DistanceRow = DistanceRow(row: MatchRow, center: Option<Center>, sqDistance: Option<real>)

  /** The join keys of the tables. */
  function ImageId(o: Observation): int { o.imageId }
  function MatchedTimePoint(m: MatchRow): int { m.matchedTimePoint }
  function RandomImageId(m: RandomMatchRow): int { m.imageId }
  function CenterTimePoint(c: Center): int { c.timePoint }
}
