/**
 * The availability checker: whether a window lies inside a venue's weekly
 * opening hours, whether it is free of the venue's busy intervals, and the
 * selection of the first (or every) free venue of a catalogue.
 */
module Availability {
  import opened Types

  /** `venue.occupiedTimes.concat(venue.preallocatedTimes ?? [])` */
  function BusyTimes(v: Venue): (r: seq<TimeRange>)
    ensures forall t :: t in r <==> t in v.occupiedTimes || (v.preallocatedTimes.Some? && t in v.preallocatedTimes.value)
  {
    v.occupiedTimes + v.preallocatedTimes.GetOr([])
  }

  /**
   * A window fits an opening window when it opens no later than the window
   * starts and closes no earlier than it ends, comparing minutes of the day.
   * (Comparing minutes orders exactly as comparing `h + m / 60` hours.)
   */
  predicate Fits(range: OpenRange, start: Date, end: Date) {
    start.Date? && end.Date? && range.startAt <= start.minute && range.endAt >= end.minute
  }

  /**
   * `isTimeRangeValid`: some opening entry lists the START instant's weekday
   * and one of its windows covers the window's minutes of the day.
   */
  predicate TimeRangeValid(start: Date, end: Date, venue: Venue) {
    start.Date? &&
    exists i, j ::
      0 <= i < |venue.openTimeRanges| && start.day in venue.openTimeRanges[i].weekDays &&
      0 <= j < |venue.openTimeRanges[i].ranges| && Fits(venue.openTimeRanges[i].ranges[j], start, end)
  }

  /**
   * The boundary-only conflict rule: the window's start falls in
   * [busyStart, busyEnd) or its end falls in (busyStart, busyEnd].
   */
  predicate Conflicts(start: Date, end: Date, busyStart: Date, busyEnd: Date) {
    (AtOrBefore(busyStart, start) && Before(start, busyEnd)) ||
    (Before(busyStart, end) && AtOrBefore(end, busyEnd))
  }

  predicate ConflictsWith(parse: Parser, start: Date, end: Date, t: TimeRange) {
    Conflicts(start, end, parse(t.startAt), parse(t.endAt))
  }

  /** `_isVenueAvailable(venueId, startTime, endTime, venueSource)` */
  predicate VenueAvailable(parse: Parser, venueId: int, startTime: string, endTime: string, source: seq<Venue>) {
    match FindIndex(source, venueId)
    case None => false
    case Some(k) =>
      var start, end := parse(startTime), parse(endTime);
      var busy := BusyTimes(source[k]);
      TimeRangeValid(start, end, source[k]) &&
      !exists i :: 0 <= i < |busy| && ConflictsWith(parse, start, end, busy[i])
  }

  /**
   * `findAvailableVenue` from position `from` on: the position of the first
   * venue whose id is available against `source`.
   */
  function FirstAvailable(parse: Parser, startTime: string, endTime: string, source: seq<Venue>, from: nat): (r: Result<nat>)
    requires from <= |source|
    ensures r.Ok? ==> from <= r.value < |source| && VenueAvailable(parse, source[r.value].id, startTime, endTime, source)
    ensures r.Ok? ==> forall j :: from <= j < r.value ==> !VenueAvailable(parse, source[j].id, startTime, endTime, source)
    ensures r.Err? ==> r.error == NoVenueAvailable
    ensures r.Err? ==> forall j :: from <= j < |source| ==> !VenueAvailable(parse, source[j].id, startTime, endTime, source)
    decreases |source| - from
  {
    if from == |source| then Err(NoVenueAvailable)
    else if VenueAvailable(parse, source[from].id, startTime, endTime, source) then Ok(from)
    else FirstAvailable(parse, startTime, endTime, source, from + 1)
  }

  /**
   * `findAvailableVenuesAll` past its emptiness test: the venues of `venues`,
   * in order, whose ids are available against `source`.
   */
  function AvailableAmong(parse: Parser, startTime: string, endTime: string, venues: seq<Venue>, source: seq<Venue>): (r: seq<Venue>)
    ensures |r| <= |venues|
    ensures forall v :: v in r <==> v in venues && VenueAvailable(parse, v.id, startTime, endTime, source)
  {
    if venues == [] then []
    else
      var rest := AvailableAmong(parse, startTime, endTime, venues[1..], source);
      if VenueAvailable(parse, venues[0].id, startTime, endTime, source) then [venues[0]] + rest else rest
  }

  /**
   * The all-venues search is a filter: it distributes over concatenation,
   * so it keeps the available venues in list order, each as often as it
   * occurs in the list.
   */
  lemma {:induction false} AvailableAmongAppend(parse: Parser, startTime: string, endTime: string, a: seq<Venue>, b: seq<Venue>, source: seq<Venue>)
    ensures AvailableAmong(parse, startTime, endTime, a + b, source) ==
      AvailableAmong(parse, startTime, endTime, a, source) + AvailableAmong(parse, startTime, endTime, b, source)
    decreases |a|
  {
    if a == [] {
      assert a + b == b;
    } else {
      AppendTail(a, b);
      AvailableAmongAppend(parse, startTime, endTime, a[1..], b, source);
      var head := if VenueAvailable(parse, a[0].id, startTime, endTime, source) then [a[0]] else [];
      AppendAssoc(head, AvailableAmong(parse, startTime, endTime, a[1..], source), AvailableAmong(parse, startTime, endTime, b, source));
    }
  }

  lemma AppendTail<T>(a: seq<T>, b: seq<T>)
    requires a != []
    ensures (a + b)[0] == a[0] && (a + b)[1..] == a[1..] + b
  {
  }

  lemma AppendAssoc<T>(x: seq<T>, y: seq<T>, z: seq<T>)
    ensures (x + y) + z == x + (y + z)
  {
  }

  /** On one venue the search keeps it exactly when its id is available. */
  lemma AvailableAmongSingle(parse: Parser, startTime: string, endTime: string, v: Venue, source: seq<Venue>)
    ensures AvailableAmong(parse, startTime, endTime, [v], source) ==
      if VenueAvailable(parse, v.id, startTime, endTime, source) then [v] else []
  {
    assert [v][1..] == [];
  }

  /** The venue `findAvailableVenue` picks is always the first of the catalogue with its id. */
  lemma FirstAvailableIsFirstWithId(parse: Parser, startTime: string, endTime: string, source: seq<Venue>, k: nat)
    requires FirstAvailable(parse, startTime, endTime, source, 0) == Ok(k)
    ensures FindIndex(source, source[k].id) == Some(k)
  {
    var q := FindIndex(source, source[k].id).value;
    assert VenueAvailable(parse, source[q].id, startTime, endTime, source);
  }

  /**
   * Availability is the conjunction of the three tests of the source: a
   * venue with the id exists, the window is within its opening hours, and no
   * interval of its occupied or its preallocated list conflicts.
   */
  lemma AvailableIff(parse: Parser, venueId: int, startTime: string, endTime: string, source: seq<Venue>)
    ensures VenueAvailable(parse, venueId, startTime, endTime, source) <==>
      FindIndex(source, venueId).Some? &&
      var v := source[FindIndex(source, venueId).value];
      var start, end := parse(startTime), parse(endTime);
      TimeRangeValid(start, end, v) &&
      (forall t :: t in v.occupiedTimes ==> !ConflictsWith(parse, start, end, t)) &&
      (forall t :: t in v.preallocatedTimes.GetOr([]) ==> !ConflictsWith(parse, start, end, t))
  {
    if FindIndex(source, venueId).Some? {
      var v := source[FindIndex(source, venueId).value];
      var busy := BusyTimes(v);
      assert forall t :: t in busy <==> t in v.occupiedTimes || t in v.preallocatedTimes.GetOr([]);
      assert forall t :: t in busy <==> exists i :: 0 <= i < |busy| && busy[i] == t;
    }
  }

  /** A busy interval of the venue that a window's boundary falls into makes the venue unavailable. */
  lemma ConflictBlocks(parse: Parser, venueId: int, startTime: string, endTime: string, source: seq<Venue>, k: nat, t: TimeRange)
    requires FindIndex(source, venueId) == Some(k)
    requires t in BusyTimes(source[k])
    requires ConflictsWith(parse, parse(startTime), parse(endTime), t)
    ensures !VenueAvailable(parse, venueId, startTime, endTime, source)
  {
    var busy := BusyTimes(source[k]);
    var i :| 0 <= i < |busy| && busy[i] == t;
  }

  /**
   * The conflict rule looks only at the window's boundaries: a window that
   * starts before and ends after every busy interval of an open venue is
   * accepted, although it overlaps all of them.
   */
  lemma EnclosingWindowAccepted(parse: Parser, venueId: int, startTime: string, endTime: string, source: seq<Venue>, k: nat)
    requires FindIndex(source, venueId) == Some(k)
    requires TimeRangeValid(parse(startTime), parse(endTime), source[k])
    requires forall t :: t in BusyTimes(source[k]) ==>
      Before(parse(startTime), parse(t.startAt)) && Before(parse(t.endAt), parse(endTime))
    ensures VenueAvailable(parse, venueId, startTime, endTime, source)
  {
    var busy := BusyTimes(source[k]);
    forall i | 0 <= i < |busy|
      ensures !ConflictsWith(parse, parse(startTime), parse(endTime), busy[i])
    {
      assert busy[i] in busy;
    }
  }

  /** Only the start instant's weekday is consulted; the end instant contributes only its minute of the day. */
  lemma EndDayNotConsulted(start: Date, end: Date, end': Date, venue: Venue)
    requires end.Date? && end'.Date? && end.minute == end'.minute
    ensures TimeRangeValid(start, end, venue) == TimeRangeValid(start, end', venue)
  {
    if TimeRangeValid(start, end, venue) {
      var i, j :| 0 <= i < |venue.openTimeRanges| && start.day in venue.openTimeRanges[i].weekDays &&
        0 <= j < |venue.openTimeRanges[i].ranges| && Fits(venue.openTimeRanges[i].ranges[j], start, end);
      assert Fits(venue.openTimeRanges[i].ranges[j], start, end');
    }
    if TimeRangeValid(start, end', venue) {
      var i, j :| 0 <= i < |venue.openTimeRanges| && start.day in venue.openTimeRanges[i].weekDays &&
        0 <= j < |venue.openTimeRanges[i].ranges| && Fits(venue.openTimeRanges[i].ranges[j], start, end');
      assert Fits(venue.openTimeRanges[i].ranges[j], start, end);
    }
  }

  /** A window whose start falls on a weekday no opening entry lists is never valid. */
  lemma ClosedWeekdayInvalid(start: Date, end: Date, venue: Venue)
    requires start.Date?
    requires forall e :: e in venue.openTimeRanges ==> start.day !in e.weekDays
    ensures !TimeRangeValid(start, end, venue)
  {
    forall i | 0 <= i < |venue.openTimeRanges|
      ensures start.day !in venue.openTimeRanges[i].weekDays
    {
      assert venue.openTimeRanges[i] in venue.openTimeRanges;
    }
  }
  /**
   * With the catalogue as its own source, the all-venues search is empty
   * exactly when the first-venue search fails, and otherwise starts with the
   * venue that search picks.
   */
  lemma {:induction false} AllAgreesWithFirst(parse: Parser, startTime: string, endTime: string, source: seq<Venue>, from: nat)
    requires from <= |source|
    ensures var all := AvailableAmong(parse, startTime, endTime, source[from..], source);
      match FirstAvailable(parse, startTime, endTime, source, from)
      case Err(_) => all == []
      case Ok(k) => all != [] && all[0] == source[k]
    decreases |source| - from
  {
    if from < |source| {
      assert source[from..][1..] == source[from + 1..];
      AllAgreesWithFirst(parse, startTime, endTime, source, from + 1);
    }
  }
}
