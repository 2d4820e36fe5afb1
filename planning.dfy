/**
 * Order planning: the payload `generateOrder` builds for one request, and
 * the greedy batch allocation of `bulkGenerateOrder` over a private copy of
 * the catalogue in which every placed window is marked preallocated.
 */
module Planning {
  import opened Types
  import opened Strings
  import opened Availability

  /** The requested window as a time range. */
  function Window(input: NewOrderInput): TimeRange {
    TimeRange(input.startTime, input.endTime)
  }

  /**
   * The payload for a request placed in venue `venueId`: the date ranges are
   * the date parts of the two timestamps (the text before the first space)
   * and the window is the only time range.
   */
  function BuildOrder(venueId: int, input: NewOrderInput): (o: NewOrder)
    ensures o.venueId == venueId && o.capacity == input.capacity && o.description == input.description
    ensures |o.dateRanges.startAt| <= |input.startTime| && o.dateRanges.startAt == input.startTime[..|o.dateRanges.startAt|] && ' ' !in o.dateRanges.startAt
    ensures |o.dateRanges.startAt| < |input.startTime| ==> input.startTime[|o.dateRanges.startAt|] == ' '
    ensures |o.dateRanges.endAt| <= |input.endTime| && o.dateRanges.endAt == input.endTime[..|o.dateRanges.endAt|] && ' ' !in o.dateRanges.endAt
    ensures |o.dateRanges.endAt| < |input.endTime| ==> input.endTime[|o.dateRanges.endAt|] == ' '
    ensures o.timeRanges == [Window(input)]
  {
    NewOrder(
      venueId,
      input.capacity,
      input.description,
      DateRanges(FirstPiece(input.startTime, ' '), FirstPiece(input.endTime, ' ')),
      [Window(input)])
  }

  /** `generateOrder` against `catalog`: the first available venue, or 'No venue available'. */
  function PlanSingle(parse: Parser, catalog: seq<Venue>, input: NewOrderInput): (r: Result<NewOrder>)
  {
    match FirstAvailable(parse, input.startTime, input.endTime, catalog, 0)
    case Err(e) => Err(e)
    case Ok(k) => Ok(BuildOrder(catalog[k].id, input))
  }

  /** The busy list of the venue that a lookup by `id` finds (none if no venue has it). */
  function BusyOf(catalog: seq<Venue>, id: int): seq<TimeRange> {
    match FindIndex(catalog, id)
    case None => []
    case Some(k) => BusyTimes(catalog[k])
  }

  /** `venue.preallocatedTimes = [...(venue.preallocatedTimes ?? []), window]` on the venue at `k`. */
  function Preallocate(catalog: seq<Venue>, k: nat, w: TimeRange): (r: seq<Venue>)
    requires k < |catalog|
    ensures SameIds(catalog, r)
    ensures r[k] == catalog[k].(preallocatedTimes := Some(catalog[k].preallocatedTimes.GetOr([]) + [w]))
    ensures BusyTimes(r[k]) == BusyTimes(catalog[k]) + [w]
    ensures forall j :: 0 <= j < |catalog| && j != k ==> r[j] == catalog[j]
  {
    var v := catalog[k];
    catalog[k := v.(preallocatedTimes := Some(v.preallocatedTimes.GetOr([]) + [w]))]
  }

  /**
   * `bulkGenerateOrder`'s loop from some point on: `catalog` is the working
   * copy, `acc` the orders built so far.
   */
  function PlanFrom(parse: Parser, catalog: seq<Venue>, inputs: seq<NewOrderInput>, acc: seq<NewOrder>): Result<seq<NewOrder>>
    decreases |inputs|
  {
    if inputs == [] then Ok(acc)
    else
      var input := inputs[0];
      match FirstAvailable(parse, input.startTime, input.endTime, catalog, 0)
      case Err(e) => Err(e)
      case Ok(k) =>
        PlanFrom(parse, Preallocate(catalog, k, Window(input)), inputs[1..], acc + [BuildOrder(catalog[k].id, input)])
  }

  /** `bulkGenerateOrder` over a copy of `catalog`. */
  function BulkPlan(parse: Parser, catalog: seq<Venue>, inputs: seq<NewOrderInput>): Result<seq<NewOrder>> {
    PlanFrom(parse, catalog, inputs, [])
  }

  function Ids(catalog: seq<Venue>): set<int> {
    set v | v in catalog :: v.id
  }

  /** One order per request, in request order, each built from its request. */
  predicate BuiltFrom(inputs: seq<NewOrderInput>, orders: seq<NewOrder>) {
    |orders| == |inputs| &&
    forall i :: 0 <= i < |orders| ==> orders[i] == BuildOrder(orders[i].venueId, inputs[i])
  }

  /**
   * No double booking: when a later request's start or end falls inside an
   * earlier request's window (the busy test's own rule), the two are in
   * different venues.
   */
  predicate NoDoubleBooking(parse: Parser, inputs: seq<NewOrderInput>, orders: seq<NewOrder>)
    requires |orders| == |inputs|
  {
    forall i, j ::
      0 <= i < j < |orders| &&
      ConflictsWith(parse, parse(inputs[j].startTime), parse(inputs[j].endTime), Window(inputs[i]))
      ==> orders[i].venueId != orders[j].venueId
  }

  /** An available venue does not conflict with any interval of its own busy list. */
  lemma AvailableAvoidsBusy(parse: Parser, id: int, startTime: string, endTime: string, catalog: seq<Venue>)
    requires VenueAvailable(parse, id, startTime, endTime, catalog)
    ensures forall t :: t in BusyOf(catalog, id) ==> !ConflictsWith(parse, parse(startTime), parse(endTime), t)
  {
    var k := FindIndex(catalog, id).value;
    var busy := BusyTimes(catalog[k]);
    forall t | t in busy
      ensures !ConflictsWith(parse, parse(startTime), parse(endTime), t)
    {
      var i :| 0 <= i < |busy| && busy[i] == t;
    }
  }

  /** Preallocating at `k` adds the window to the busy list found by `k`'s id, and to no other. */
  lemma PreallocateBusyOf(catalog: seq<Venue>, k: nat, w: TimeRange, id: int)
    requires k < |catalog|
    ensures BusyOf(Preallocate(catalog, k, w), id) ==
      BusyOf(catalog, id) + (if FindIndex(catalog, id) == Some(k) then [w] else [])
  {
    FindIndexSameIds(catalog, Preallocate(catalog, k, w), id);
  }

  predicate PlacedIn(catalog: seq<Venue>, done: seq<NewOrderInput>, acc: seq<NewOrder>)
    requires |done| == |acc|
  {
    forall p :: 0 <= p < |acc| ==> Window(done[p]) in BusyOf(catalog, acc[p].venueId) && acc[p].venueId in Ids(catalog)
  }

  /** Preallocation changes no id. */
  lemma PreallocateIds(catalog: seq<Venue>, k: nat, w: TimeRange)
    requires k < |catalog|
    ensures Ids(Preallocate(catalog, k, w)) == Ids(catalog)
  {
    var catalog' := Preallocate(catalog, k, w);
    forall x | x in Ids(catalog) ensures x in Ids(catalog') {
      var v :| v in catalog && v.id == x;
      var q :| 0 <= q < |catalog| && catalog[q] == v;
      assert catalog'[q].id == x;
    }
    forall x | x in Ids(catalog') ensures x in Ids(catalog) {
      var v :| v in catalog' && v.id == x;
      var q :| 0 <= q < |catalog'| && catalog'[q] == v;
      assert catalog[q].id == x;
    }
  }

  /** Placing a request at `k`, the first venue with its id, keeps every window marked where its order went. */
  lemma PlacedInStep(catalog: seq<Venue>, done: seq<NewOrderInput>, acc: seq<NewOrder>, input: NewOrderInput, k: nat)
    requires |done| == |acc| && PlacedIn(catalog, done, acc)
    requires k < |catalog| && FindIndex(catalog, catalog[k].id) == Some(k)
    ensures PlacedIn(Preallocate(catalog, k, Window(input)), done + [input], acc + [BuildOrder(catalog[k].id, input)])
  {
    var acc', done' := acc + [BuildOrder(catalog[k].id, input)], done + [input];
    var catalog' := Preallocate(catalog, k, Window(input));
    PreallocateIds(catalog, k, Window(input));
    assert catalog[k].id in Ids(catalog) by {
      assert catalog[k] in catalog;
    }
    forall p | 0 <= p < |acc'|
      ensures Window(done'[p]) in BusyOf(catalog', acc'[p].venueId) && acc'[p].venueId in Ids(catalog')
    {
      PreallocateBusyOf(catalog, k, Window(input), acc'[p].venueId);
    }
  }

  /** Placing a request in a venue that is available for it books no venue twice. */
  lemma NoDoubleBookingStep(parse: Parser, catalog: seq<Venue>, done: seq<NewOrderInput>, acc: seq<NewOrder>, input: NewOrderInput, k: nat)
    requires |done| == |acc| && PlacedIn(catalog, done, acc)
    requires NoDoubleBooking(parse, done, acc)
    requires k < |catalog| && VenueAvailable(parse, catalog[k].id, input.startTime, input.endTime, catalog)
    ensures NoDoubleBooking(parse, done + [input], acc + [BuildOrder(catalog[k].id, input)])
  {
    var acc', done' := acc + [BuildOrder(catalog[k].id, input)], done + [input];
    AvailableAvoidsBusy(parse, catalog[k].id, input.startTime, input.endTime, catalog);
    forall i, j |
      0 <= i < j < |acc'| &&
      ConflictsWith(parse, parse(done'[j].startTime), parse(done'[j].endTime), Window(done'[i]))
      ensures acc'[i].venueId != acc'[j].venueId
    {
      if j == |acc| {
        assert Window(done[i]) in BusyOf(catalog, acc[i].venueId);
      }
    }
  }

  /** One step of the loop keeps every earlier window marked in the copy, and marks the new one. */
  lemma PlaceStep(parse: Parser, catalog: seq<Venue>, done: seq<NewOrderInput>, acc: seq<NewOrder>, input: NewOrderInput, k: nat)
    requires |done| == |acc| && PlacedIn(catalog, done, acc)
    requires NoDoubleBooking(parse, done, acc)
    requires FirstAvailable(parse, input.startTime, input.endTime, catalog, 0) == Ok(k)
    ensures var acc' := acc + [BuildOrder(catalog[k].id, input)];
      var catalog' := Preallocate(catalog, k, Window(input));
      PlacedIn(catalog', done + [input], acc') && NoDoubleBooking(parse, done + [input], acc') &&
      Ids(catalog') == Ids(catalog)
  {
    FirstAvailableIsFirstWithId(parse, input.startTime, input.endTime, catalog, k);
    PreallocateIds(catalog, k, Window(input));
    PlacedInStep(catalog, done, acc, input, k);
    NoDoubleBookingStep(parse, catalog, done, acc, input, k);
  }

  /**
   * The batch loop from any point on: every request that is placed gets the
   * order built from it, and placements never double-book.
   */
  lemma {:induction false} PlanFromPlaces(parse: Parser, catalog: seq<Venue>, inputs: seq<NewOrderInput>, done: seq<NewOrderInput>, acc: seq<NewOrder>)
    requires BuiltFrom(done, acc) && PlacedIn(catalog, done, acc) && NoDoubleBooking(parse, done, acc)
    ensures match PlanFrom(parse, catalog, inputs, acc)
      case Err(e) => e == NoVenueAvailable
      case Ok(r) =>
        BuiltFrom(done + inputs, r) && r[..|acc|] == acc && NoDoubleBooking(parse, done + inputs, r) &&
        forall i :: 0 <= i < |r| ==> r[i].venueId in Ids(catalog)
    decreases |inputs|
  {
    if inputs == [] {
      assert done + inputs == done;
    } else {
      var input := inputs[0];
      assert done + inputs == (done + [input]) + inputs[1..];
      match FirstAvailable(parse, input.startTime, input.endTime, catalog, 0)
      case Err(e) =>
      case Ok(k) =>
        var acc' := acc + [BuildOrder(catalog[k].id, input)];
        var catalog' := Preallocate(catalog, k, Window(input));
        PlaceStep(parse, catalog, done, acc, input, k);
        PlanFromPlaces(parse, catalog', inputs[1..], done + [input], acc');
        match PlanFrom(parse, catalog', inputs[1..], acc')
        case Err(_) =>
        case Ok(r) =>
          assert r[..|acc|] == r[..|acc'|][..|acc|];
    }
  }

  /**
   * `bulkGenerateOrder`: on success, one order per request in request order,
   * each built from its request, in a venue of the catalogue, and no two
   * requests whose windows conflict share a venue; the only failure is
   * 'No venue available'.
   */
  lemma BulkPlanSpec(parse: Parser, catalog: seq<Venue>, inputs: seq<NewOrderInput>)
    ensures match BulkPlan(parse, catalog, inputs)
      case Err(e) => e == NoVenueAvailable
      case Ok(r) =>
        BuiltFrom(inputs, r) && NoDoubleBooking(parse, inputs, r) &&
        forall i :: 0 <= i < |r| ==> r[i].venueId in Ids(catalog)
  {
    assert [] + inputs == inputs;
    PlanFromPlaces(parse, catalog, inputs, [], []);
  }

  // ---------------------------------------------------------------------------
  // Which venue each request gets

  /**
   * The working copy once the windows of `done` are marked as preallocated,
   * each in the first venue that carries its order's venue id.
   */
  function MarkAll(catalog: seq<Venue>, done: seq<NewOrderInput>, orders: seq<NewOrder>): (r: seq<Venue>)
    requires |done| == |orders|
    ensures |r| == |catalog|
    decreases |done|
  {
    if done == [] then catalog
    else
      var prev := MarkAll(catalog, done[..|done| - 1], orders[..|orders| - 1]);
      match FindIndex(prev, orders[|orders| - 1].venueId)
      case None => prev
      case Some(k) => Preallocate(prev, k, Window(done[|done| - 1]))
  }

  /**
   * Request `i` went to the venue that the first-venue search picks in the
   * catalogue with the windows of the requests before it marked.
   */
  predicate PickedAt(parse: Parser, catalog: seq<Venue>, done: seq<NewOrderInput>, orders: seq<NewOrder>, i: nat)
    requires |done| == |orders| && i < |orders|
  {
    var copy := MarkAll(catalog, done[..i], orders[..i]);
    match FirstAvailable(parse, done[i].startTime, done[i].endTime, copy, 0)
    case Err(_) => false
    case Ok(k) => copy[k].id == orders[i].venueId
  }

  /** Every request went to the venue the greedy search picks at its turn. */
  predicate Selected(parse: Parser, catalog: seq<Venue>, done: seq<NewOrderInput>, orders: seq<NewOrder>)
    requires |done| == |orders|
  {
    forall i :: 0 <= i < |orders| ==> PickedAt(parse, catalog, done, orders, i)
  }

  /** Every order's venue is available for its window in the catalogue itself. */
  predicate AvailableIn(parse: Parser, catalog: seq<Venue>, done: seq<NewOrderInput>, orders: seq<NewOrder>)
    requires |done| == |orders|
  {
    forall i :: 0 <= i < |orders| ==> VenueAvailable(parse, orders[i].venueId, done[i].startTime, done[i].endTime, catalog)
  }

  /**
   * The batch gets stuck at request `i`: the requests before it are placed
   * greedily as `placed`, and no venue of the resulting copy is available
   * for request `i`.
   */
  predicate StuckAt(parse: Parser, catalog: seq<Venue>, inputs: seq<NewOrderInput>, i: int, placed: seq<NewOrder>) {
    0 <= i < |inputs| && |placed| == i &&
    BuiltFrom(inputs[..i], placed) && Selected(parse, catalog, inputs[..i], placed) &&
    FirstAvailable(parse, inputs[i].startTime, inputs[i].endTime, MarkAll(catalog, inputs[..i], placed), 0).Err?
  }

  /**
   * `copy` is `catalog` with busy intervals added: same ids and opening
   * hours, and every busy interval of the catalogue still busy.
   */
  predicate Extends(catalog: seq<Venue>, copy: seq<Venue>) {
    |copy| == |catalog| &&
    forall j :: 0 <= j < |catalog| ==>
      copy[j].id == catalog[j].id && copy[j].openTimeRanges == catalog[j].openTimeRanges &&
      forall t :: t in BusyTimes(catalog[j]) ==> t in BusyTimes(copy[j])
  }

  lemma ExtendsPreallocate(catalog: seq<Venue>, copy: seq<Venue>, k: nat, w: TimeRange)
    requires Extends(catalog, copy) && k < |copy|
    ensures Extends(catalog, Preallocate(copy, k, w))
  {
    var copy' := Preallocate(copy, k, w);
    forall j | 0 <= j < |catalog|
      ensures copy'[j].id == catalog[j].id && copy'[j].openTimeRanges == catalog[j].openTimeRanges &&
        forall t :: t in BusyTimes(catalog[j]) ==> t in BusyTimes(copy'[j])
    {
      if j == k {
        assert BusyTimes(copy'[k]) == BusyTimes(copy[k]) + [w];
      }
    }
  }

  /** Adding busy intervals can only make a venue unavailable, never available. */
  lemma AvailableInExtension(parse: Parser, id: int, startTime: string, endTime: string, catalog: seq<Venue>, copy: seq<Venue>)
    requires Extends(catalog, copy)
    requires VenueAvailable(parse, id, startTime, endTime, copy)
    ensures VenueAvailable(parse, id, startTime, endTime, catalog)
  {
    FindIndexSameIds(catalog, copy, id);
    var k := FindIndex(catalog, id).value;
    var start, end := parse(startTime), parse(endTime);
    var busy, busy' := BusyTimes(catalog[k]), BusyTimes(copy[k]);
    assert TimeRangeValid(start, end, copy[k]);
    assert TimeRangeValid(start, end, catalog[k]) by {
      var i, j :| 0 <= i < |copy[k].openTimeRanges| && start.day in copy[k].openTimeRanges[i].weekDays &&
        0 <= j < |copy[k].openTimeRanges[i].ranges| && Fits(copy[k].openTimeRanges[i].ranges[j], start, end);
      assert catalog[k].openTimeRanges[i] == copy[k].openTimeRanges[i];
    }
    forall i | 0 <= i < |busy|
      ensures !ConflictsWith(parse, start, end, busy[i])
    {
      assert busy[i] in busy;
      var q :| 0 <= q < |busy'| && busy'[q] == busy[i];
    }
  }

  lemma PrefixOfSnoc<T>(s: seq<T>, x: T, i: nat)
    requires i <= |s|
    ensures (s + [x])[..i] == s[..i]
  {
  }

  /** Marking one more placement extends the copy by exactly that preallocation. */
  lemma MarkAllStep(parse: Parser, catalog: seq<Venue>, done: seq<NewOrderInput>, acc: seq<NewOrder>, input: NewOrderInput, k: nat)
    requires |done| == |acc|
    requires FirstAvailable(parse, input.startTime, input.endTime, MarkAll(catalog, done, acc), 0) == Ok(k)
    ensures var copy := MarkAll(catalog, done, acc);
      MarkAll(catalog, done + [input], acc + [BuildOrder(copy[k].id, input)]) == Preallocate(copy, k, Window(input))
  {
    var copy := MarkAll(catalog, done, acc);
    FirstAvailableIsFirstWithId(parse, input.startTime, input.endTime, copy, k);
    PrefixOfSnoc(done, input, |done|);
    PrefixOfSnoc(acc, BuildOrder(copy[k].id, input), |acc|);
  }

  /** The greedy choice of the earlier requests does not depend on later ones. */
  lemma SelectedStep(parse: Parser, catalog: seq<Venue>, done: seq<NewOrderInput>, acc: seq<NewOrder>, input: NewOrderInput, k: nat)
    requires |done| == |acc| && Selected(parse, catalog, done, acc)
    requires FirstAvailable(parse, input.startTime, input.endTime, MarkAll(catalog, done, acc), 0) == Ok(k)
    ensures Selected(parse, catalog, done + [input], acc + [BuildOrder(MarkAll(catalog, done, acc)[k].id, input)])
  {
    var copy := MarkAll(catalog, done, acc);
    var done', acc' := done + [input], acc + [BuildOrder(copy[k].id, input)];
    forall i | 0 <= i < |acc'|
      ensures PickedAt(parse, catalog, done', acc', i)
    {
      PrefixOfSnoc(done, input, i);
      PrefixOfSnoc(acc, BuildOrder(copy[k].id, input), i);
      if i < |acc| {
        assert PickedAt(parse, catalog, done, acc, i);
      }
    }
  }

  /** One more placement keeps every order's venue available in the catalogue. */
  lemma AvailableInStep(parse: Parser, catalog: seq<Venue>, done: seq<NewOrderInput>, acc: seq<NewOrder>, input: NewOrderInput, k: nat)
    requires |done| == |acc| && AvailableIn(parse, catalog, done, acc)
    requires Extends(catalog, MarkAll(catalog, done, acc))
    requires FirstAvailable(parse, input.startTime, input.endTime, MarkAll(catalog, done, acc), 0) == Ok(k)
    ensures AvailableIn(parse, catalog, done + [input], acc + [BuildOrder(MarkAll(catalog, done, acc)[k].id, input)])
  {
    var copy := MarkAll(catalog, done, acc);
    AvailableInExtension(parse, copy[k].id, input.startTime, input.endTime, catalog, copy);
  }

  /** The state of the batch loop: the copy is the catalogue with the placed windows marked, and every placement so far is greedy. */
  predicate GreedySoFar(parse: Parser, catalog: seq<Venue>, copy: seq<Venue>, done: seq<NewOrderInput>, acc: seq<NewOrder>) {
    BuiltFrom(done, acc) && copy == MarkAll(catalog, done, acc) && Extends(catalog, copy) &&
    Selected(parse, catalog, done, acc) && AvailableIn(parse, catalog, done, acc)
  }

  /** One placement of the loop keeps its state greedy. */
  lemma GreedyStep(parse: Parser, catalog: seq<Venue>, copy: seq<Venue>, done: seq<NewOrderInput>, acc: seq<NewOrder>, input: NewOrderInput, k: nat)
    requires GreedySoFar(parse, catalog, copy, done, acc)
    requires FirstAvailable(parse, input.startTime, input.endTime, copy, 0) == Ok(k)
    ensures GreedySoFar(parse, catalog, Preallocate(copy, k, Window(input)), done + [input], acc + [BuildOrder(copy[k].id, input)])
  {
    MarkAllStep(parse, catalog, done, acc, input, k);
    ExtendsPreallocate(catalog, copy, k, Window(input));
    SelectedStep(parse, catalog, done, acc, input, k);
    AvailableInStep(parse, catalog, done, acc, input, k);
  }

  /** A request that finds no venue in the copy is where the batch gets stuck. */
  lemma GreedyStuck(parse: Parser, catalog: seq<Venue>, copy: seq<Venue>, done: seq<NewOrderInput>, acc: seq<NewOrder>, inputs: seq<NewOrderInput>)
    requires GreedySoFar(parse, catalog, copy, done, acc) && inputs != []
    requires FirstAvailable(parse, inputs[0].startTime, inputs[0].endTime, copy, 0).Err?
    ensures StuckAt(parse, catalog, done + inputs, |done|, acc)
  {
    assert (done + inputs)[..|done|] == done;
  }

  /**
   * The batch loop from any point on: every request goes to the venue the
   * greedy search picks at its turn, which is available for it in the
   * catalogue itself; a failure is a request for which no venue of the copy
   * at its turn is available.
   */
  lemma {:induction false} PlanFromSelects(parse: Parser, catalog: seq<Venue>, copy: seq<Venue>, inputs: seq<NewOrderInput>, done: seq<NewOrderInput>, acc: seq<NewOrder>)
    requires GreedySoFar(parse, catalog, copy, done, acc)
    ensures match PlanFrom(parse, copy, inputs, acc)
      case Err(_) => exists i, placed :: StuckAt(parse, catalog, done + inputs, i, placed)
      case Ok(r) =>
        |r| == |done + inputs| && Selected(parse, catalog, done + inputs, r) && AvailableIn(parse, catalog, done + inputs, r)
    decreases |inputs|
  {
    if inputs == [] {
      assert done + inputs == done;
    } else {
      var input := inputs[0];
      assert done + inputs == (done + [input]) + inputs[1..];
      match FirstAvailable(parse, input.startTime, input.endTime, copy, 0)
      case Err(e) =>
        GreedyStuck(parse, catalog, copy, done, acc, inputs);
      case Ok(k) =>
        GreedyStep(parse, catalog, copy, done, acc, input, k);
        PlanFromSelects(parse, catalog, Preallocate(copy, k, Window(input)), inputs[1..], done + [input], acc + [BuildOrder(copy[k].id, input)]);
    }
  }

  /**
   * `bulkGenerateOrder` is greedy: on success, request `i` goes to the venue
   * the first-venue search picks in the catalogue with the windows of
   * requests `0..i-1` marked, and that venue is available for request `i` in
   * the catalogue itself; on failure, some request is the first for which no
   * venue of that copy is available.
   */
  lemma BulkPlanGreedy(parse: Parser, catalog: seq<Venue>, inputs: seq<NewOrderInput>)
    ensures match BulkPlan(parse, catalog, inputs)
      case Err(_) => exists i, placed :: StuckAt(parse, catalog, inputs, i, placed)
      case Ok(r) =>
        |r| == |inputs| && Selected(parse, catalog, inputs, r) &&
        forall i :: 0 <= i < |r| ==> VenueAvailable(parse, r[i].venueId, inputs[i].startTime, inputs[i].endTime, catalog)
  {
    assert [] + inputs == inputs;
    assert GreedySoFar(parse, catalog, catalog, [], []);
    PlanFromSelects(parse, catalog, catalog, inputs, [], []);
  }

  /** The loop only appends: the orders built so far stay at the front, one more per request. */
  lemma {:induction false} PlanFromExtends(parse: Parser, catalog: seq<Venue>, inputs: seq<NewOrderInput>, acc: seq<NewOrder>)
    requires PlanFrom(parse, catalog, inputs, acc).Ok?
    ensures var r := PlanFrom(parse, catalog, inputs, acc).value;
      |r| == |acc| + |inputs| && r[..|acc|] == acc
    decreases |inputs|
  {
    if inputs != [] {
      var input := inputs[0];
      var k := FirstAvailable(parse, input.startTime, input.endTime, catalog, 0).value;
      var acc' := acc + [BuildOrder(catalog[k].id, input)];
      PlanFromExtends(parse, Preallocate(catalog, k, Window(input)), inputs[1..], acc');
      var r := PlanFrom(parse, catalog, inputs, acc).value;
      assert r[..|acc|] == r[..|acc'|][..|acc|];
    }
  }

  /** The batch places its first request exactly where `generateOrder` would. */
  lemma BulkStartsLikeSingle(parse: Parser, catalog: seq<Venue>, inputs: seq<NewOrderInput>)
    requires inputs != [] && BulkPlan(parse, catalog, inputs).Ok?
    ensures |BulkPlan(parse, catalog, inputs).value| == |inputs|
    ensures PlanSingle(parse, catalog, inputs[0]) == Ok(BulkPlan(parse, catalog, inputs).value[0])
  {
    var input := inputs[0];
    var k := FirstAvailable(parse, input.startTime, input.endTime, catalog, 0).value;
    var acc' := [BuildOrder(catalog[k].id, input)];
    var catalog' := Preallocate(catalog, k, Window(input));
    assert [] + acc' == acc';
    assert BulkPlan(parse, catalog, inputs) == PlanFrom(parse, catalog', inputs[1..], acc');
    PlanFromExtends(parse, catalog', inputs[1..], acc');
    var r := BulkPlan(parse, catalog, inputs).value;
    assert r[0] == r[..|acc'|][0];
  }

  /**
   * With a single venue, a second request whose start or end falls inside
   * the first request's window cannot be placed: the batch fails.
   */
  lemma SingleVenueConflictFails(parse: Parser, catalog: seq<Venue>, inputs: seq<NewOrderInput>)
    requires |catalog| == 1 && |inputs| == 2
    requires ConflictsWith(parse, parse(inputs[1].startTime), parse(inputs[1].endTime), Window(inputs[0]))
    ensures BulkPlan(parse, catalog, inputs) == Err(NoVenueAvailable)
  {
    BulkPlanSpec(parse, catalog, inputs);
    assert Ids(catalog) == {catalog[0].id};
  }

  /**
   * The other side of the boundary-only rule: with a single venue that is
   * open and free for both requests, a second request whose window strictly
   * encloses the first one's is placed in the same venue.
   */
  lemma EnclosingRequestSharesVenue(parse: Parser, v: Venue, first: NewOrderInput, second: NewOrderInput)
    requires VenueAvailable(parse, v.id, first.startTime, first.endTime, [v])
    requires VenueAvailable(parse, v.id, second.startTime, second.endTime, [v])
    requires Before(parse(second.startTime), parse(first.startTime)) && Before(parse(first.endTime), parse(second.endTime))
    ensures BulkPlan(parse, [v], [first, second]) == Ok([BuildOrder(v.id, first), BuildOrder(v.id, second)])
  {
    var copy := Preallocate([v], 0, Window(first));
    var start, end := parse(second.startTime), parse(second.endTime);
    assert FirstAvailable(parse, first.startTime, first.endTime, [v], 0) == Ok(0);
    assert FindIndex(copy, v.id) == Some(0);
    var busy, busy0 := BusyTimes(copy[0]), BusyTimes(v);
    assert busy == busy0 + [Window(first)];
    forall i | 0 <= i < |busy|
      ensures !ConflictsWith(parse, start, end, busy[i])
    {
      if i < |busy0| {
        assert busy[i] == busy0[i];
      }
    }
    assert copy[0].openTimeRanges == v.openTimeRanges;
    assert TimeRangeValid(start, end, copy[0]);
    assert VenueAvailable(parse, v.id, second.startTime, second.endTime, copy);
    assert FirstAvailable(parse, second.startTime, second.endTime, copy, 0) == Ok(0);
    var o1, o2 := BuildOrder(v.id, first), BuildOrder(v.id, second);
    assert [first, second][1..] == [second] && [second][1..] == [];
    assert [] + [o1] == [o1] && [o1] + [o2] == [o1, o2];
    assert BulkPlan(parse, [v], [first, second]) == PlanFrom(parse, copy, [second], [o1]);
    assert PlanFrom(parse, copy, [second], [o1]) == PlanFrom(parse, Preallocate(copy, 0, Window(second)), [], [o1, o2]);
  }
}
