/**
 * The shapes shared by the allocation engine and the venue-list
 * normalisation: venues, time ranges, order payloads, send results, and the
 * error and option wrappers that stand for the source's exceptions and
 * `undefined` values.
 *
 * Two fields that the TypeScript declarations lack but the code sets are
 * included: `Venue.preallocatedTimes` and `NewOrder.venueId`.
 */
module Types {

  datatype Option<T> = None | Some(value: T) {
    /** `x ?? fallback` */
    function GetOr(fallback: T): T {
      match this
      case Some(v) => v
      case None => fallback
    }
  }

  /** The exceptions the engine throws. */
  datatype Error =
    | NoVenueAvailable          // 'No venue available'
    | NoOrderInput              // 'No order input'
    | VenueNotFound(venueId: int)  // a non-null assertion on a failed `find`

  datatype Result<T> = Ok(value: T) | Err(error: Error)

  /**
   * What `new Date(text)` yields, seen through the local-time getters the
   * engine uses: the absolute instant (`getTime`), the weekday (`getDay`,
   * Sunday = 0) and the minute of the day (`getHours() * 60 + getMinutes()`).
   * `InvalidDate` is a date whose value is NaN: every comparison with it is
   * false.
   */
  datatype Date = Date(time: int, day: int, minute: int) | InvalidDate

  /** `new Date(text)`: how timestamp strings are read is not part of the model. */
  type Parser = string -> Date

  /** `a <= b` on two dates. */
  predicate AtOrBefore(a: Date, b: Date) {
    a.Date? && b.Date? && a.time <= b.time
  }

  /** `a < b` on two dates. */
  predicate Before(a: Date, b: Date) {
    a.Date? && b.Date? && a.time < b.time
  }

  /** A concrete interval of two timestamp strings (`TTimeRangeItem`). */
  datatype TimeRange = TimeRange(startAt: string, endAt: string)

  /** One opening window of a day, its "HH:MM" bounds held as minutes of the day. */
  datatype OpenRange = OpenRange(startAt: int, endAt: int)

  /** A recurring weekly opening: the windows apply on each listed weekday. */
  datatype OpenTimeRange = OpenTimeRange(ranges: seq<OpenRange>, weekDays: seq<int>)

  datatype Venue = Venue(
    id: int,
    name: string,
    building: Option<char>,
    floor: Option<string>,
    openTimeRanges: seq<OpenTimeRange>,
    occupiedTimes: seq<TimeRange>,
    preallocatedTimes: Option<seq<TimeRange>>)

  /** A booking request (`TNewOrderInput`). */
  datatype NewOrderInput = NewOrderInput(
    startTime: string,
    endTime: string,
    capacity: int,
    description: string)

  datatype DateRanges = DateRanges(startAt: string, endAt: string)

  /** An order payload ready for submission (`TNewOrder`). */
  datatype NewOrder = NewOrder(
    venueId: int,
    capacity: int,
    description: string,
    dateRanges: DateRanges,
    timeRanges: seq<TimeRange>)

  /** An order as the remote system returns it once created (`TOrder`). */
  datatype Order = Order(
    capacity: int,
    description: string,
    timeRanges: seq<TimeRange>,
    venueId: int,
    isCandlelit: bool)

  /**
   * One item of a send result: a created order, or the original payload of
   * an order whose creation failed, so that the caller can retry it.
   */
  datatype SendOrderResultItem =
    | Created(message: string, order: Order)
    | Failed(message: string, input: NewOrder)
  {
    predicate Success() { Created? }
  }

  /** "创建成功" */
  const SuccessMessage: string := "\U{521B}\U{5EFA}\U{6210}\U{529F}"
  /** "创建失败" */
  const FailureMessage: string := "\U{521B}\U{5EFA}\U{5931}\U{8D25}"

  /** The position of the first element of `source` whose id is `id` (`find`). */
  function FindIndex(source: seq<Venue>, id: int): (r: Option<nat>)
    ensures r.Some? ==> r.value < |source| && source[r.value].id == id
    ensures r.Some? ==> forall j :: 0 <= j < r.value ==> source[j].id != id
    ensures r.None? ==> forall j :: 0 <= j < |source| ==> source[j].id != id
  {
    if |source| == 0 then None
    else if source[0].id == id then Some(0)
    else match FindIndex(source[1..], id)
      case None => None
      case Some(k) => Some(k + 1)
  }

  /** Two catalogues that hold the same ids at the same positions. */
  predicate SameIds(a: seq<Venue>, b: seq<Venue>) {
    |a| == |b| && forall k :: 0 <= k < |a| ==> a[k].id == b[k].id
  }

  lemma {:induction false} FindIndexSameIds(a: seq<Venue>, b: seq<Venue>, id: int)
    requires SameIds(a, b)
    ensures FindIndex(a, id) == FindIndex(b, id)
  {
    if |a| > 0 && a[0].id != id {
      FindIndexSameIds(a[1..], b[1..], id);
    }
  }
}
