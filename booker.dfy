/**
 * The allocation engine: a `Booker` holds the venue catalogue, ranked once
 * at construction, and answers availability, selection, planning and
 * submission requests against it without ever changing it.
 */
module Booking {
  import opened Types
  import opened Availability
  import opened Ranking
  import opened Planning
  import opened Submission

  class Booker {
    /** The catalogue, in ranked order. */
    var venues: seq<Venue>

    /** Ranks the given catalogue with the default options. */
    constructor (venues: seq<Venue>)
      requires AllSortable(venues, DefaultSortOptions)
      ensures this.venues == SortVenues(venues, DefaultSortOptions)
      ensures multiset(this.venues) == multiset(venues) && Sorted(this.venues, DefaultSortOptions)
    {
      this.venues := SortVenues(venues, DefaultSortOptions);
    }

    /** `isTimeRangeValid`: scans the opening entries of the start's weekday for a covering window. */
    method IsTimeRangeValid(startTime: Date, endTime: Date, venue: Venue) returns (r: bool)
      ensures r == TimeRangeValid(startTime, endTime, venue)
    {
      var openTimeRanges := venue.openTimeRanges;
      var i := 0;
      while i < |openTimeRanges|
        invariant 0 <= i <= |openTimeRanges|
        invariant forall i', j' ::
          (0 <= i' < i && startTime.Date? && startTime.day in openTimeRanges[i'].weekDays &&
           0 <= j' < |openTimeRanges[i'].ranges|) ==> !Fits(openTimeRanges[i'].ranges[j'], startTime, endTime)
      {
        var openTimeRange := openTimeRanges[i];
        if startTime.Date? && startTime.day in openTimeRange.weekDays {
          var j := 0;
          while j < |openTimeRange.ranges|
            invariant 0 <= j <= |openTimeRange.ranges|
            invariant forall j' :: 0 <= j' < j ==> !Fits(openTimeRange.ranges[j'], startTime, endTime)
          {
            var range := openTimeRange.ranges[j];
            if startTime.Date? && endTime.Date? && range.startAt <= startTime.minute && range.endAt >= endTime.minute {
              assert Fits(openTimeRanges[i].ranges[j], startTime, endTime);
              return true;
            }
            j := j + 1;
          }
        }
        i := i + 1;
      }
      return false;
    }

    /** `_isVenueAvailable`: look the id up, test the opening hours, then every busy interval. */
    method IsVenueAvailable(parse: Parser, venueId: int, startTime: string, endTime: string, venueSource: seq<Venue>)
      returns (r: bool)
      ensures r == VenueAvailable(parse, venueId, startTime, endTime, venueSource)
      ensures r ==> FindIndex(venueSource, venueId).Some?
    {
      var found := FindIndex(venueSource, venueId);
      if found.None? {
        return false;
      }
      var venue := venueSource[found.value];
      var start, end := parse(startTime), parse(endTime);
      var valid := IsTimeRangeValid(start, end, venue);
      if !valid {
        return false;
      }
      var unavailableTimes := BusyTimes(venue);
      if exists i :: 0 <= i < |unavailableTimes| && ConflictsWith(parse, start, end, unavailableTimes[i]) {
        return false;
      }
      return true;
    }

    /**
     * `findAvailableVenue`: the position in `venueSource` of the first venue
     * that is available, or 'No venue available'.
     */
    method FindAvailableVenue(parse: Parser, startTime: string, endTime: string, venueSource: seq<Venue>)
      returns (r: Result<nat>)
      ensures r == FirstAvailable(parse, startTime, endTime, venueSource, 0)
      ensures r.Ok? ==> r.value < |venueSource| && VenueAvailable(parse, venueSource[r.value].id, startTime, endTime, venueSource)
      ensures r.Ok? ==> forall j :: 0 <= j < r.value ==> !VenueAvailable(parse, venueSource[j].id, startTime, endTime, venueSource)
      ensures r.Err? ==> r.error == NoVenueAvailable
      ensures r.Err? ==> forall j :: 0 <= j < |venueSource| ==> !VenueAvailable(parse, venueSource[j].id, startTime, endTime, venueSource)
    {
      var k := 0;
      while k < |venueSource|
        invariant 0 <= k <= |venueSource|
        invariant FirstAvailable(parse, startTime, endTime, venueSource, k) == FirstAvailable(parse, startTime, endTime, venueSource, 0)
      {
        var available := IsVenueAvailable(parse, venueSource[k].id, startTime, endTime, venueSource);
        if available {
          return Ok(k);
        }
        k := k + 1;
      }
      return Err(NoVenueAvailable);
    }

    /**
     * `findAvailableVenuesAll`: every venue of the catalogue (not of
     * `venueSource`), in catalogue order, that is available against
     * `venueSource`; fails only on an empty catalogue.
     */
    function FindAvailableVenuesAll(parse: Parser, startTime: string, endTime: string, venueSource: seq<Venue>)
      : (r: Result<seq<Venue>>)
      reads this
      ensures r.Err? <==> venues == []
      ensures r.Err? ==> r.error == NoVenueAvailable
      ensures r.Ok? ==> forall v :: v in r.value <==> v in venues && VenueAvailable(parse, v.id, startTime, endTime, venueSource)
      ensures r.Ok? ==> r.value == AvailableAmong(parse, startTime, endTime, venues, venueSource)
    {
      if |venues| == 0 then Err(NoVenueAvailable)
      else Ok(AvailableAmong(parse, startTime, endTime, venues, venueSource))
    }

    /** `generateOrder`: the order for one request, in the first available venue of the catalogue. */
    method GenerateOrder(parse: Parser, orderInput: NewOrderInput) returns (r: Result<NewOrder>)
      ensures r == PlanSingle(parse, venues, orderInput)
      ensures r.Ok? ==> r.value == BuildOrder(r.value.venueId, orderInput)
      ensures r.Ok? <==> exists k :: 0 <= k < |venues| && VenueAvailable(parse, venues[k].id, orderInput.startTime, orderInput.endTime, venues)
      ensures r.Err? ==> r.error == NoVenueAvailable
    {
      var found := FindAvailableVenue(parse, orderInput.startTime, orderInput.endTime, venues);
      if found.Err? {
        return Err(found.error);
      }
      var venue := venues[found.value];
      r := Ok(BuildOrder(venue.id, orderInput));
    }

    /**
     * `bulkGenerateOrder`: places the requests one by one in a copy of the
     * catalogue, marking each placed window as preallocated in the chosen
     * venue of the copy; fails on the first request that cannot be placed.
     */
    method BulkGenerateOrder(parse: Parser, orderInput: seq<NewOrderInput>) returns (r: Result<seq<NewOrder>>)
      ensures r == BulkPlan(parse, venues, orderInput)
      ensures r.Ok? ==> BuiltFrom(orderInput, r.value) && NoDoubleBooking(parse, orderInput, r.value)
      ensures r.Ok? ==> forall i :: 0 <= i < |r.value| ==> r.value[i].venueId in Ids(venues)
      ensures r.Ok? ==> Selected(parse, venues, orderInput, r.value)
      ensures r.Ok? ==> forall i :: 0 <= i < |r.value| ==>
        VenueAvailable(parse, r.value[i].venueId, orderInput[i].startTime, orderInput[i].endTime, venues)
      ensures r.Err? ==> r.error == NoVenueAvailable
      ensures r.Err? ==> exists i, placed :: StuckAt(parse, venues, orderInput, i, placed)
    {
      var copy := venues;
      var newOrders: seq<NewOrder> := [];
      var i := 0;
      while i < |orderInput|
        invariant 0 <= i <= |orderInput|
        invariant PlanFrom(parse, copy, orderInput[i..], newOrders) == BulkPlan(parse, venues, orderInput)
      {
        var order := orderInput[i];
        assert orderInput[i..][1..] == orderInput[i + 1..];
        var found := FindAvailableVenue(parse, order.startTime, order.endTime, copy);
        if found.Err? {
          r := Err(found.error);
          break;
        }
        var venue := copy[found.value];
        newOrders := newOrders + [BuildOrder(venue.id, order)];
        copy := copy[found.value := venue.(preallocatedTimes := Some(venue.preallocatedTimes.GetOr([]) + [Window(order)]))];
        i := i + 1;
      }
      if i == |orderInput| {
        r := Ok(newOrders);
      }
      BulkPlanSpec(parse, venues, orderInput);
      BulkPlanGreedy(parse, venues, orderInput);
    }

    /**
     * `sendOrder`: no input fails with 'No order input'; a single order is
     * sent and its outcome reported; an array is sent in consecutive chunks of
     * `max(1, concurrency)` orders, one chunk after the other, and yields one
     * result per order, in input order, carrying the created order or, on
     * failure, the original payload.
     */
    method SendOrder(orderInput: OrderInput, concurrency: int, createOrder: CreateOrder) returns (r: Result<SendOutcome>)
      ensures orderInput.NoInput? ==> r == Err(NoOrderInput)
      ensures orderInput.SingleOrder? ==>
        r == Ok(SingleResult(ResultItem(createOrder(0, orderInput.order), orderInput.order)))
      ensures orderInput.OrderList? ==>
        r.Ok? && r.value.ListResult? && ResultsFor(orderInput.orders, createOrder, r.value.items)
    {
      match orderInput
      case NoInput =>
        return Err(NoOrderInput);
      case SingleOrder(order) =>
        return Ok(SingleResult(ResultItem(createOrder(0, order), order)));
      case OrderList(orders) =>
        var size := ChunkSize(concurrency);
        var chunks := ChunkOrders(orders, size);
        var runResult := RunChunks(orders, chunks, createOrder);
        var items := seq(|runResult|, index requires 0 <= index < |runResult| => ResultItem(runResult[index], orders[index]));
        return Ok(ListResult(items));
    }
  }
}
