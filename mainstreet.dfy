/**
 * The mainstreet rows of a trace: the boolean indexing
 * `trace[trace['time-point'] < BACKSTREET_TP_RANGE[0]]` that selects the
 * events shown under the backstreet assignments.
 */
module Mainstreet {
  import opened Seqs
  import opened Tables
  import opened DatasetConfig

  /** The row mask: the time-point lies before the first backstreet time-point. */
  function BeforeBackstreet(ranges: StreetRanges): Observation -> bool
  {
    (o: Observation) => o.timePoint < ranges.backstreet.first
  }

  /** The rows of the trace whose time-point is below the backstreet range, in trace order. */
  function MainstreetRows(trace: seq<Observation>, ranges: StreetRanges): (ms: seq<Observation>)
    ensures |ms| <= |trace|
    ensures forall o :: o in ms <==> o in trace && o.timePoint < ranges.backstreet.first
  {
    FilterMembershipAll(trace, BeforeBackstreet(ranges));
    Filter(trace, BeforeBackstreet(ranges))
  }

  /** Every selected row is kept as often as the trace holds it, and no other row appears. */
  lemma MainstreetMultiplicity(trace: seq<Observation>, ranges: StreetRanges)
    ensures forall o ::
              multiset(MainstreetRows(trace, ranges))[o] ==
              if o.timePoint < ranges.backstreet.first then multiset(trace)[o] else 0
  {
    FilterMultiplicity(trace, BeforeBackstreet(ranges));
  }

  /** The selection keeps the trace's order: selecting a concatenation concatenates the selections. */
  lemma MainstreetOrder(a: seq<Observation>, b: seq<Observation>, ranges: StreetRanges)
    ensures MainstreetRows(a + b, ranges) == MainstreetRows(a, ranges) + MainstreetRows(b, ranges)
  {
    FilterConcat(a, b, BeforeBackstreet(ranges));
  }

  /** Selecting the mainstreet rows of the mainstreet rows changes nothing. */
  lemma MainstreetIdempotent(trace: seq<Observation>, ranges: StreetRanges)
    ensures MainstreetRows(MainstreetRows(trace, ranges), ranges) == MainstreetRows(trace, ranges)
  {
    FilterIdempotent(trace, BeforeBackstreet(ranges));
  }

  /** With ordered, disjoint ranges every row inside the mainstreet range is kept and every backstreet row dropped. */
  lemma MainstreetSeparatesStreets(trace: seq<Observation>, ranges: StreetRanges, o: Observation)
    requires OrderedDisjoint(ranges)
    requires o in trace
    ensures ranges.mainstreet.first <= o.timePoint <= ranges.mainstreet.last ==> o in MainstreetRows(trace, ranges)
    ensures ranges.backstreet.first <= o.timePoint <= ranges.backstreet.last ==> o !in MainstreetRows(trace, ranges)
  {
  }

  /** For every configured dataset, the selection drops every row of its backstreet range and keeps every row of its mainstreet range. */
  lemma ConfiguredSelectionSeparatesStreets(exp: string, trace: seq<Observation>, o: Observation)
    requires SelectRanges(exp).Success?
    requires o in trace
    ensures var ranges := SelectRanges(exp).value;
      (ranges.mainstreet.first <= o.timePoint <= ranges.mainstreet.last ==> o in MainstreetRows(trace, ranges)) &&
      (ranges.backstreet.first <= o.timePoint <= ranges.backstreet.last ==> o !in MainstreetRows(trace, ranges))
  {
    MainstreetSeparatesStreets(trace, SelectRanges(exp).value, o);
  }

  /**
   * The mask looks only at the upper end: for the Chr9 location 2 ranges,
   * whose mainstreet starts at time-point 15, a row at time-point 0 is kept too.
   */
  lemma SelectionKeepsRowsBelowMainstreet(trace: seq<Observation>, o: Observation)
    requires o in trace && o.timePoint == 0
    ensures var ranges := RangesFor(PhChr(Chr9, Loc2));
      o.timePoint < ranges.mainstreet.first && o in MainstreetRows(trace, ranges)
  {
  }
}
