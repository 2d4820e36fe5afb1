/**
 * The two value-level parts of the scheduling-API client: the Set-Cookie
 * name/value split of `cookiesParser`, and the normalisation of the venue
 * response with the merge of calendar events and order times into each
 * venue's occupied times (`getVenueList`, past its three fetches).
 */
module Seiue {
  import opened Types
  import opened Strings

  // ---------------------------------------------------------------------------
  // cookiesParser

  /** The cookie's name: the text before the first `=` of the text before the first `;`. */
  function CookieName(cookie: string): string {
    FirstPiece(FirstPiece(cookie, ';'), '=')
  }

  /**
   * The cookie's value: the text between the first and the second `=` of
   * the text before the first `;`; absent when that text has no `=`.
   */
  function CookieValue(cookie: string): Option<string> {
    SecondPiece(FirstPiece(cookie, ';'), '=')
  }

  /** No cookie after `i` and before `n` has the same name as cookie `i`. */
  predicate LastWithNameBefore(cookies: seq<string>, i: int, n: int)
    requires 0 <= i < n <= |cookies|
  {
    forall j :: i < j < n ==> CookieName(cookies[j]) != CookieName(cookies[i])
  }

  /** No later cookie of the list has the same name as cookie `i`. */
  predicate LastWithName(cookies: seq<string>, i: int)
    requires 0 <= i < |cookies|
  {
    LastWithNameBefore(cookies, i, |cookies|)
  }

  /**
   * `cookiesParser`: one entry per cookie name, holding the value of the
   * last cookie with that name.
   */
  method CookiesParser(cookies: seq<string>) returns (parsedCookies: map<string, Option<string>>)
    ensures forall i :: 0 <= i < |cookies| ==> CookieName(cookies[i]) in parsedCookies
    ensures forall name :: name in parsedCookies ==> exists i :: 0 <= i < |cookies| && CookieName(cookies[i]) == name
    ensures forall i :: 0 <= i < |cookies| && LastWithName(cookies, i) ==>
      parsedCookies[CookieName(cookies[i])] == CookieValue(cookies[i])
  {
    parsedCookies := map[];
    for n := 0 to |cookies|
      invariant forall i :: 0 <= i < n ==> CookieName(cookies[i]) in parsedCookies
      invariant forall name :: name in parsedCookies ==> exists i :: 0 <= i < n && CookieName(cookies[i]) == name
      invariant forall i :: 0 <= i < n && LastWithNameBefore(cookies, i, n) ==>
        parsedCookies[CookieName(cookies[i])] == CookieValue(cookies[i])
    {
      var cookie := cookies[n];
      var content := FirstPiece(cookie, ';');
      var name := FirstPiece(content, '=');
      var value := SecondPiece(content, '=');
      parsedCookies := parsedCookies[name := value];
    }
  }

  /** Everything from the first `;` on (the cookie's attributes) is ignored. */
  lemma CookieIgnoresAttributes(content: string, attributes: string)
    requires ';' !in content
    ensures CookieName(content + [';'] + attributes) == CookieName(content)
    ensures CookieValue(content + [';'] + attributes) == CookieValue(content)
  {
    FirstPieceOf(content, ';', attributes);
    FirstPieceWhole(content, ';');
  }

  /**
   * `name=value=rest` yields the name and the value cut at the second `=`:
   * `a=b=c` gives `b`.
   */
  lemma CookieValueCutAtSecondEquals(name: string, value: string, rest: string)
    requires ';' !in name + value + rest && '=' !in name && '=' !in value
    ensures CookieName(name + ['='] + value + ['='] + rest) == name
    ensures CookieValue(name + ['='] + value + ['='] + rest) == Some(value)
  {
    var cookie := name + ['='] + value + ['='] + rest;
    assert cookie == name + ['='] + (value + ['='] + rest);
    assert forall c :: c in cookie ==> c in name + value + rest || c == '=';
    FirstPieceWhole(cookie, ';');
    FirstPieceOf(name, '=', value + ['='] + rest);
    assert AfterFirst(cookie, '=') == value + ['='] + rest;
    FirstPieceOf(value, '=', rest);
  }

  /** The usual `name=value` cookie yields exactly its name and its value. */
  lemma CookieNameAndValue(name: string, value: string)
    requires ';' !in name + value && '=' !in name && '=' !in value
    ensures CookieName(name + ['='] + value) == name
    ensures CookieValue(name + ['='] + value) == Some(value)
  {
    var cookie := name + ['='] + value;
    assert forall c :: c in cookie ==> c in name + value || c == '=';
    FirstPieceWhole(cookie, ';');
    FirstPieceOf(name, '=', value);
    assert AfterFirst(cookie, '=') == value;
    FirstPieceWhole(value, '=');
  }

  /** A cookie without `=` has the whole text before `;` as its name and no value. */
  lemma CookieWithoutEquals(cookie: string)
    requires '=' !in FirstPiece(cookie, ';')
    ensures CookieName(cookie) == FirstPiece(cookie, ';')
    ensures CookieValue(cookie) == None
  {
    FirstPieceWhole(FirstPiece(cookie, ';'), '=');
  }

  // ---------------------------------------------------------------------------
  // getVenueList: the responses, and their normalisation

  /** A "HH:MM" bound of the venue response, held as minutes of the day. */
  datatype ResponseTimeRange = ResponseTimeRange(start_at: int, end_at: int)

  datatype ResponseOpenTimeRange = ResponseOpenTimeRange(ranges: seq<ResponseTimeRange>, week_days: seq<int>)

  datatype VenueResponseItem = VenueResponseItem(id: int, name: string, open_time_ranges: seq<ResponseOpenTimeRange>)

  datatype CalendarEventItem = CalendarEventItem(start_time: string, end_time: string)

  /** The calendar events of one venue. */
  datatype CalendarEvents = CalendarEvents(venue_id: int, events: seq<CalendarEventItem>)

  datatype OrderTimesItem = OrderTimesItem(start_at: string, end_at: string, venue_id: int)

  predicate IsUpper(c: char) { 'A' <= c <= 'Z' }

  predicate IsDigit(c: char) { '0' <= c <= '9' }

  /** `/([A-Z])(\d)/` matches at position `p`. */
  predicate MatchesAt(name: string, p: int) {
    0 <= p && p + 1 < |name| && IsUpper(name[p]) && IsDigit(name[p + 1])
  }

  /** The leftmost match of `/([A-Z])(\d)/` at or after `from`. */
  function FirstMatchFrom(name: string, from: nat): (r: Option<nat>)
    ensures r.Some? ==> from <= r.value && MatchesAt(name, r.value)
    ensures r.Some? ==> forall q :: from <= q < r.value ==> !MatchesAt(name, q)
    ensures r.None? ==> forall q :: from <= q ==> !MatchesAt(name, q)
    decreases |name| - from
  {
    if from + 1 >= |name| then None
    else if MatchesAt(name, from) then Some(from)
    else FirstMatchFrom(name, from + 1)
  }

  function NormalizeOpenTimeRange(r: ResponseOpenTimeRange): OpenTimeRange {
    OpenTimeRange(seq(|r.ranges|, i requires 0 <= i < |r.ranges| => OpenRange(r.ranges[i].start_at, r.ranges[i].end_at)), r.week_days)
  }

  /**
   * One venue of the response in the engine's shape: building and floor from
   * the leftmost uppercase-letter-then-digit match in the name (absent when
   * there is none), the opening ranges renamed field by field, and no
   * occupied times yet.
   */
  function NormalizeVenue(item: VenueResponseItem): (v: Venue)
    ensures v.id == item.id && v.name == item.name
    ensures v.building.Some? <==> exists p :: MatchesAt(item.name, p)
    ensures v.floor.Some? <==> v.building.Some?
    ensures forall p :: MatchesAt(item.name, p) && (forall q :: 0 <= q < p ==> !MatchesAt(item.name, q)) ==>
      v.building == Some(item.name[p]) && v.floor == Some([item.name[p + 1]])
    ensures |v.openTimeRanges| == |item.open_time_ranges|
    ensures forall i :: 0 <= i < |v.openTimeRanges| ==>
      v.openTimeRanges[i].weekDays == item.open_time_ranges[i].week_days &&
      |v.openTimeRanges[i].ranges| == |item.open_time_ranges[i].ranges| &&
      forall j :: 0 <= j < |v.openTimeRanges[i].ranges| ==>
        v.openTimeRanges[i].ranges[j].startAt == item.open_time_ranges[i].ranges[j].start_at &&
        v.openTimeRanges[i].ranges[j].endAt == item.open_time_ranges[i].ranges[j].end_at
    ensures v.occupiedTimes == [] && v.preallocatedTimes == None
  {
    var m := FirstMatchFrom(item.name, 0);
    Venue(
      item.id,
      item.name,
      if m.Some? then Some(item.name[m.value]) else None,
      if m.Some? then Some([item.name[m.value + 1]]) else None,
      seq(|item.open_time_ranges|, i requires 0 <= i < |item.open_time_ranges| => NormalizeOpenTimeRange(item.open_time_ranges[i])),
      [],
      None)
  }

  function NormalizeVenues(venueRes: seq<VenueResponseItem>): (venues: seq<Venue>)
    ensures |venues| == |venueRes|
    ensures forall k :: 0 <= k < |venues| ==> venues[k] == NormalizeVenue(venueRes[k])
  {
    seq(|venueRes|, k requires 0 <= k < |venueRes| => NormalizeVenue(venueRes[k]))
  }

  // ---------------------------------------------------------------------------
  // getVenueList: the merge of busy times

  /** `events.map(...)` into time ranges. */
  function EventRanges(events: seq<CalendarEventItem>): (r: seq<TimeRange>)
    ensures |r| == |events|
    ensures forall i :: 0 <= i < |r| ==> r[i] == TimeRange(events[i].start_time, events[i].end_time)
  {
    seq(|events|, i requires 0 <= i < |events| => TimeRange(events[i].start_time, events[i].end_time))
  }

  /** The events of every calendar entry for `id`, entry after entry. */
  function EventTimesFor(calendarEvents: seq<CalendarEvents>, id: int): seq<TimeRange> {
    if calendarEvents == [] then []
    else
      var last := calendarEvents[|calendarEvents| - 1];
      EventTimesFor(calendarEvents[..|calendarEvents| - 1], id) + (if last.venue_id == id then EventRanges(last.events) else [])
  }

  /** The order times for `id`, in order. */
  function OrderTimesFor(orderTimes: seq<OrderTimesItem>, id: int): seq<TimeRange> {
    if orderTimes == [] then []
    else
      var last := orderTimes[|orderTimes| - 1];
      OrderTimesFor(orderTimes[..|orderTimes| - 1], id) + (if last.venue_id == id then [TimeRange(last.start_at, last.end_at)] else [])
  }

  /** Every venue id the calendar events and order times name is in the list. */
  predicate AllFound(venues: seq<Venue>, calendarEvents: seq<CalendarEvents>, orderTimes: seq<OrderTimesItem>) {
    (forall e :: e in calendarEvents ==> FindIndex(venues, e.venue_id).Some?) &&
    (forall o :: o in orderTimes ==> FindIndex(venues, o.venue_id).Some?)
  }

  /** The busy times merged into the venue at position `k`: only the first venue with an id receives them. */
  function MergedTimes(venues: seq<Venue>, k: nat, calendarEvents: seq<CalendarEvents>, orderTimes: seq<OrderTimesItem>): seq<TimeRange>
    requires k < |venues|
  {
    if FindIndex(venues, venues[k].id) == Some(k)
    then EventTimesFor(calendarEvents, venues[k].id) + OrderTimesFor(orderTimes, venues[k].id)
    else []
  }

  /** `venues` is `base` with the given calendar events and order times merged in. */
  predicate MergedState(base: seq<Venue>, venues: seq<Venue>, calendarEvents: seq<CalendarEvents>, orderTimes: seq<OrderTimesItem>) {
    |venues| == |base| &&
    forall k {:trigger venues[k]} :: 0 <= k < |base| ==> venues[k] == base[k].(occupiedTimes := MergedTimes(base, k, calendarEvents, orderTimes))
  }

  /**
   * `getVenueList` past its three fetches: the normalised venues, each
   * venue's occupied times being its calendar events, in order, then its
   * order times, in order; a venue id absent from the list fails.
   */
  method GetVenueList(venueRes: seq<VenueResponseItem>, calendarEvents: seq<CalendarEvents>, orderTimes: seq<OrderTimesItem>)
    returns (r: Result<seq<Venue>>)
    ensures r.Ok? <==> AllFound(NormalizeVenues(venueRes), calendarEvents, orderTimes)
    ensures r.Err? ==> r.error.VenueNotFound? && FindIndex(NormalizeVenues(venueRes), r.error.venueId).None?
    ensures r.Ok? ==> |r.value| == |venueRes|
    ensures r.Ok? ==> forall k :: 0 <= k < |venueRes| ==>
      r.value[k] == NormalizeVenue(venueRes[k]).(occupiedTimes := MergedTimes(NormalizeVenues(venueRes), k, calendarEvents, orderTimes))
  {
    var base := NormalizeVenues(venueRes);
    var withEvents := MergeCalendarEvents(base, calendarEvents);
    if withEvents.Err? {
      return withEvents;
    }
    r := MergeOrderTimes(base, withEvents.value, calendarEvents, orderTimes);
  }

  /** The first loop of the merge: each calendar entry's events go to the first venue with its id. */
  method MergeCalendarEvents(base: seq<Venue>, calendarEvents: seq<CalendarEvents>) returns (r: Result<seq<Venue>>)
    requires forall k :: 0 <= k < |base| ==> base[k].occupiedTimes == []
    ensures r.Ok? <==> forall e :: e in calendarEvents ==> FindIndex(base, e.venue_id).Some?
    ensures r.Err? ==> r.error.VenueNotFound? && FindIndex(base, r.error.venueId).None?
    ensures r.Ok? ==> SameIds(base, r.value) && MergedState(base, r.value, calendarEvents, [])
  {
    var venues := base;
    assert calendarEvents[..0] == [];
    for e := 0 to |calendarEvents|
      invariant SameIds(base, venues)
      invariant EventsFound(base, calendarEvents, e)
      invariant MergedState(base, venues, calendarEvents[..e], [])
    {
      var entry := calendarEvents[e];
      FindIndexSameIds(base, venues, entry.venue_id);
      var found := FindIndex(venues, entry.venue_id);
      if found.None? {
        return Err(VenueNotFound(entry.venue_id));
      }
      assert EventsFound(base, calendarEvents, e + 1);
      var venue := venues[found.value];
      var next := venues[found.value := venue.(occupiedTimes := venue.occupiedTimes + EventRanges(entry.events))];
      EventsMergeStep(base, venues, next, calendarEvents, e, found.value);
      venues := next;
    }
    assert calendarEvents[..|calendarEvents|] == calendarEvents;
    return Ok(venues);
  }

  /** The first `n` calendar entries name venues of `base`. */
  predicate EventsFound(base: seq<Venue>, calendarEvents: seq<CalendarEvents>, n: nat)
    requires n <= |calendarEvents|
  {
    forall q :: 0 <= q < n ==> FindIndex(base, calendarEvents[q].venue_id).Some?
  }

  /** The first `n` order times name venues of `base`. */
  predicate OrderTimesFound(base: seq<Venue>, orderTimes: seq<OrderTimesItem>, n: nat)
    requires n <= |orderTimes|
  {
    forall q :: 0 <= q < n ==> FindIndex(base, orderTimes[q].venue_id).Some?
  }

  /** The second loop of the merge: each order time goes to the first venue with its id. */
  method MergeOrderTimes(base: seq<Venue>, withEvents: seq<Venue>, calendarEvents: seq<CalendarEvents>, orderTimes: seq<OrderTimesItem>)
    returns (r: Result<seq<Venue>>)
    requires SameIds(base, withEvents)
    requires MergedState(base, withEvents, calendarEvents, [])
    ensures r.Ok? <==> forall o :: o in orderTimes ==> FindIndex(base, o.venue_id).Some?
    ensures r.Err? ==> r.error.VenueNotFound? && FindIndex(base, r.error.venueId).None?
    ensures r.Ok? ==> MergedState(base, r.value, calendarEvents, orderTimes)
  {
    var venues := withEvents;
    assert orderTimes[..0] == [];
    for o := 0 to |orderTimes|
      invariant SameIds(base, venues)
      invariant OrderTimesFound(base, orderTimes, o)
      invariant MergedState(base, venues, calendarEvents, orderTimes[..o])
    {
      var item := orderTimes[o];
      FindIndexSameIds(base, venues, item.venue_id);
      var found := FindIndex(venues, item.venue_id);
      if found.None? {
        assert item in orderTimes;
        return Err(VenueNotFound(item.venue_id));
      }
      assert OrderTimesFound(base, orderTimes, o + 1);
      var venue := venues[found.value];
      var next := venues[found.value := venue.(occupiedTimes := venue.occupiedTimes + [TimeRange(item.start_at, item.end_at)])];
      OrderTimesMergeStep(base, venues, next, calendarEvents, orderTimes, o, found.value);
      venues := next;
    }
    assert orderTimes[..|orderTimes|] == orderTimes;
    return Ok(venues);
  }

  lemma EventTimesForSnoc(calendarEvents: seq<CalendarEvents>, e: nat, id: int)
    requires e < |calendarEvents|
    ensures EventTimesFor(calendarEvents[..e + 1], id) ==
      EventTimesFor(calendarEvents[..e], id) + (if calendarEvents[e].venue_id == id then EventRanges(calendarEvents[e].events) else [])
  {
    assert calendarEvents[..e + 1][..e] == calendarEvents[..e];
  }

  lemma OrderTimesForSnoc(orderTimes: seq<OrderTimesItem>, o: nat, id: int)
    requires o < |orderTimes|
    ensures OrderTimesFor(orderTimes[..o + 1], id) ==
      OrderTimesFor(orderTimes[..o], id) + (if orderTimes[o].venue_id == id then [TimeRange(orderTimes[o].start_at, orderTimes[o].end_at)] else [])
  {
    assert orderTimes[..o + 1][..o] == orderTimes[..o];
  }

  /** Merging the events of entry `e` into the first venue with its id keeps the merge invariant. */
  lemma EventsMergeStep(base: seq<Venue>, venues: seq<Venue>, next: seq<Venue>, calendarEvents: seq<CalendarEvents>, e: nat, k0: nat)
    requires e < |calendarEvents|
    requires FindIndex(base, calendarEvents[e].venue_id) == Some(k0)
    requires MergedState(base, venues, calendarEvents[..e], [])
    requires next == venues[k0 := venues[k0].(occupiedTimes := venues[k0].occupiedTimes + EventRanges(calendarEvents[e].events))]
    ensures MergedState(base, next, calendarEvents[..e + 1], [])
  {
    var id := calendarEvents[e].venue_id;
    forall k | 0 <= k < |next|
      ensures next[k] == base[k].(occupiedTimes := MergedTimes(base, k, calendarEvents[..e + 1], []))
    {
      EventTimesForSnoc(calendarEvents, e, base[k].id);
      if k == k0 {
        assert base[k].id == id;
      } else if FindIndex(base, base[k].id) == Some(k) {
        assert base[k].id != id;
      }
    }
  }

  /** Merging order time `o` into the first venue with its id keeps the merge invariant. */
  lemma OrderTimesMergeStep(base: seq<Venue>, venues: seq<Venue>, next: seq<Venue>, calendarEvents: seq<CalendarEvents>,
                            orderTimes: seq<OrderTimesItem>, o: nat, k0: nat)
    requires o < |orderTimes|
    requires FindIndex(base, orderTimes[o].venue_id) == Some(k0)
    requires MergedState(base, venues, calendarEvents, orderTimes[..o])
    requires next == venues[k0 := venues[k0].(occupiedTimes := venues[k0].occupiedTimes + [TimeRange(orderTimes[o].start_at, orderTimes[o].end_at)])]
    ensures MergedState(base, next, calendarEvents, orderTimes[..o + 1])
  {
    forall k | 0 <= k < |next|
      ensures next[k] == base[k].(occupiedTimes := MergedTimes(base, k, calendarEvents, orderTimes[..o + 1]))
    {
      OrderTimeMergedAt(base, venues[k], next[k], calendarEvents, orderTimes, o, k0, k);
    }
  }

  /** The venue at position `k` after merging order time `o`. */
  lemma OrderTimeMergedAt(base: seq<Venue>, before: Venue, after: Venue, calendarEvents: seq<CalendarEvents>,
                          orderTimes: seq<OrderTimesItem>, o: nat, k0: nat, k: nat)
    requires o < |orderTimes| && k < |base|
    requires FindIndex(base, orderTimes[o].venue_id) == Some(k0)
    requires before == base[k].(occupiedTimes := MergedTimes(base, k, calendarEvents, orderTimes[..o]))
    requires after == if k == k0 then before.(occupiedTimes := before.occupiedTimes + [TimeRange(orderTimes[o].start_at, orderTimes[o].end_at)]) else before
    ensures after == base[k].(occupiedTimes := MergedTimes(base, k, calendarEvents, orderTimes[..o + 1]))
  {
    var id := orderTimes[o].venue_id;
    OrderTimesForSnoc(orderTimes, o, base[k].id);
    if k == k0 {
      assert base[k].id == id;
    } else if FindIndex(base, base[k].id) == Some(k) {
      assert base[k].id != id;
    }
  }
}
