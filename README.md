# Venue booking engine — a Dafny model

This project models the allocation engine of a school venue-booking tool and
the two value-level parts of its scheduling-API client.

The engine is a `Booker` that holds a catalogue of venues. Each venue has
weekly opening hours, occupied intervals and preallocated intervals. The
`Booker` ranks the catalogue once, when it is built (lowest floor first, then
the buildings in the order B, C, A, D). After that it answers these requests
against the ranked catalogue without ever changing it:

- whether a window falls inside a venue's opening hours;
- whether a venue is free for a window;
- which venue is the first free one, and which venues are all free;
- building an order for one booking request;
- planning a batch of requests one by one, marking each placed window as
  preallocated in a private copy of the catalogue so that later requests
  cannot take the same slot;
- sending orders to the remote system in chunks, and reporting one result per
  order.

From the API client the model takes two parts:

- the Set-Cookie name/value split;
- the normalisation of the venue response into the engine's shape (building
  and floor read from the venue name) and the merge of calendar events and
  existing order times into each venue's occupied times.

Modules:

- `Types`: the shared data model and the `find`-by-id lookup.
- `Strings`: the two pieces of `split` that the code reads.
- `Availability`: the opening-hours test, the conflict rule, and first or all
  free venues.
- `Ranking`: the comparator and the sort. The sort is proved to be a sorted
  permutation that is stable and idempotent.
- `Planning`: single and bulk order planning. Bulk planning is proved greedy:
  each request goes to the first venue available once the earlier windows are
  marked. A later request whose start or end falls inside an earlier request's
  window never gets that venue. A window that encloses an earlier one is not
  caught, as in the source, and can be placed in the same venue.
- `Submission`: chunking, and mapping each outcome to a result.
- `Booking`: the `Booker` class. Its methods are proved against the functions
  of the modules above.
- `Seiue`: `cookiesParser` and the normalisation and merge of `getVenueList`.

How each input to the model stands for the source:

- Timestamps stay strings, as in the source. Reading one (`new Date(text)`) is a
  parameter of type `string -> Date`. A `Date` gives the instant, the local
  weekday and the minute of the day. `InvalidDate` stands for NaN: every
  comparison with it is false.
- An opening bound "HH:MM" is held as minutes of the day. Comparing minutes
  orders windows exactly as comparing the source's `h + m / 60` hours does.
- The remote `createOrder` is a parameter. It takes the position of the order
  in the batch and the order. It returns the created order, or `None` when the
  call is rejected.
- Thrown errors become `Err` values of a `Result`.
- `undefined` becomes `None`.

## Model

| member | source | states |
|---|---|---|
| Booking.Booker.constructor | lib/booker.ts:13-16 | the catalogue is the input ranked with the default options (floor, then B, C, A, D): a sorted permutation of it |
| Booking.Booker.IsTimeRangeValid | lib/booker.ts:23-41 | the nested scan returns true exactly when some opening entry lists the start's weekday and one of its windows opens no later than the start's minute and closes no earlier than the end's minute |
| Booking.Booker.IsVenueAvailable | lib/booker.ts:43-67 | the result is the availability predicate; true only when a venue with the id exists in the source list |
| Booking.Booker.FindAvailableVenue | lib/booker.ts:69-77 | returns the first position whose venue is available, every earlier one being unavailable, or 'No venue available' when none is |
| Booking.Booker.FindAvailableVenuesAll | lib/booker.ts:79-86 | fails exactly when the catalogue is empty; otherwise it is the all-venues filter of the catalogue: exactly the catalogue venues available against the given source, in catalogue order, one entry per catalogue entry |
| Booking.Booker.GenerateOrder | lib/booker.ts:182-195 | succeeds exactly when some catalogue venue is available, and then the order is built from the request for the venue picked; otherwise 'No venue available' |
| Booking.Booker.BulkGenerateOrder | lib/booker.ts:198-225 | the loop computes the bulk plan. A successful plan has one order per request, built from it. Each order goes to the venue the first-venue search picks once the earlier windows are marked, and that venue is available for it in the catalogue. No later request whose boundary falls inside an earlier window shares its venue. A failure is 'No venue available', at the first request that no venue of the marked copy can take |
| Booking.Booker.SendOrder | lib/booker.ts:131-180 | no input fails with 'No order input'; a single order gets the result of its own creation; an array gets one result per order, in input order, carrying the created order or the failed payload |
| Availability.BusyTimes | lib/booker.ts:54 | an interval is busy exactly when it is occupied or preallocated |
| Availability.FirstAvailable | lib/booker.ts:69-77 | from a position on: the first available position with all earlier ones unavailable, or 'No venue available' with every one unavailable |
| Availability.VenueAvailable | lib/booker.ts:43-67 | defines availability: the first venue with the id exists, the window is within its opening hours, and no busy interval conflicts |
| Availability.TimeRangeValid | lib/booker.ts:23-41 | defines opening-hours validity: an entry listing the start's weekday has a window covering the start and end minutes |
| Availability.Conflicts | lib/booker.ts:60-62 | defines the conflict rule: the start falls in [busy start, busy end) or the end falls in (busy start, busy end] |
| Availability.ConflictsWith | lib/booker.ts:57-62 | the conflict rule against a busy interval whose two timestamps are parsed |
| Availability.AvailableAmong | lib/booker.ts:80-85 | a venue is kept exactly when it is in the list and its id is available; never longer than the list |
| Availability.AvailableAmongAppend | lib/booker.ts:80-85 | the all-venues search distributes over concatenation, so it keeps the available venues in list order and with their multiplicity |
| Availability.AvailableAmongSingle | lib/booker.ts:81 | a single venue is kept exactly when its id is available |
| Availability.FirstAvailableIsFirstWithId | lib/booker.ts:44 | the venue picked is always the first of the list with its id, so the id lookup lands on the same venue |
| Availability.AvailableIff | lib/booker.ts:43-67 | availability holds exactly when the id is found, the window is within opening hours, and no occupied and no preallocated interval conflicts |
| Availability.ConflictBlocks | lib/booker.ts:56-64 | any busy interval into which the window's start or end falls makes the venue unavailable |
| Availability.EnclosingWindowAccepted | lib/booker.ts:60-62 | the conflict rule tests only the window's boundaries: a window starting before and ending after every busy interval of an open venue is accepted |
| Availability.EndDayNotConsulted | lib/booker.ts:24-28 | validity depends on the end instant only through its minute of the day, not its weekday |
| Availability.ClosedWeekdayInvalid | lib/booker.ts:27-28 | a window starting on a weekday no opening entry lists is never valid |
| Availability.AllAgreesWithFirst | lib/booker.ts:69-86 | with the catalogue as its own source, the all-venues search is empty exactly when the first-venue search fails, and otherwise starts with the venue it picks |
| Ranking.StrLessIrreflexive | lib/booker.ts:97-100 | the string order used for floors is irreflexive |
| Ranking.StrLessAsymmetric | lib/booker.ts:97-100 | the string order used for floors is asymmetric |
| Ranking.StrLessTotal | lib/booker.ts:97-100 | any two distinct floors are ordered one way or the other |
| Ranking.StrLessTransitive | lib/booker.ts:97-100 | the string order used for floors is transitive |
| Ranking.StrLess | lib/booker.ts:97-100 | defines JavaScript's `<` on strings: lexicographic by character, a proper prefix first |
| Ranking.Compare | lib/booker.ts:94-119 | defines the comparator: floor first (or building first), then the other key, as negative, zero or positive |
| Ranking.CompareMeaning | lib/booker.ts:94-119 | the comparator is non-positive exactly when the first venue's key is at most the second's, zero exactly on equal keys, and antisymmetric in sign |
| Ranking.CompareTransitive | lib/booker.ts:94-119 | the comparator's order is transitive, so it is a consistent comparator on sortable venues |
| Ranking.Insert | lib/booker.ts:94 | inserting one venue adds exactly that venue to the multiset of the list |
| Ranking.InsertSorted | lib/booker.ts:94 | inserting into a sorted list keeps it sorted |
| Ranking.SortVenues | lib/booker.ts:88-120 | the result is a permutation of the input, sorted by the comparator |
| Ranking.InsertStable | lib/booker.ts:117-118 | inserting a venue places it after every venue with the same key |
| Ranking.SortStable | lib/booker.ts:117-118 | for every key, the venues with that key keep their input order (the sort is stable) |
| Ranking.SortSortedIsIdentity | lib/booker.ts:94 | sorting a list that is already sorted returns it unchanged |
| Ranking.SortIdempotent | lib/booker.ts:88-120 | ranking a ranked catalogue again changes nothing |
| Planning.BuildOrder | lib/booker.ts:184-193 | the order carries the venue id, the capacity and the description; its dates are the texts before the first space of the start and end; its one time range is the request's window |
| Planning.PlanSingle | lib/booker.ts:182-195 | defines `generateOrder` against a catalogue: the order for the first available venue, or 'No venue available' |
| Planning.PlanFrom | lib/booker.ts:206-223 | defines the batch loop from a point on: the first available venue of the working copy for each request, the window preallocated there, stopping at the first failure |
| Planning.BulkPlan | lib/booker.ts:198-225 | defines `bulkGenerateOrder`: the batch loop from the start over a copy of the catalogue |
| Planning.MarkAll | lib/booker.ts:219-222 | defines the working copy independently of the loop: the catalogue with each placed window preallocated in the first venue carrying its order's id |
| Planning.Preallocate | lib/booker.ts:219-222 | only the chosen venue's `preallocatedTimes` changes, gaining the window at the end (a missing list counts as empty); so its busy intervals gain exactly the window; every other venue and every id are unchanged |
| Planning.PreallocateIds | lib/booker.ts:219-222 | preallocating keeps the set of venue ids |
| Planning.AvailableAvoidsBusy | lib/booker.ts:54-64 | no busy interval of an available venue conflicts with the window |
| Planning.PlacedInStep | lib/booker.ts:218-222 | after a request is placed, every window placed so far is among its venue's busy intervals in the copy |
| Planning.NoDoubleBookingStep | lib/booker.ts:207-222 | placing a request in an available venue keeps the plan free of conflicting windows within one venue |
| Planning.PlaceStep | lib/booker.ts:207-222 | one iteration of the bulk loop keeps the plan built from its requests, placed in the copy and free of double bookings |
| Planning.PlanFromPlaces | lib/booker.ts:206-223 | the rest of the loop either fails with 'No venue available' or ends with a plan built from all requests, each in a catalogue venue, with no double booking |
| Planning.BulkPlanSpec | lib/booker.ts:198-225 | a successful bulk plan has one order per request, built from it, in a catalogue venue, with no two conflicting windows in one venue; a failure is 'No venue available' |
| Planning.ExtendsPreallocate | lib/booker.ts:219-222 | a preallocation keeps ids and opening hours and only adds busy intervals |
| Planning.AvailableInExtension | lib/booker.ts:200-222 | a venue available in the working copy is available in the catalogue itself, because the copy only adds busy intervals |
| Planning.GreedyStep | lib/booker.ts:207-222 | one iteration keeps the copy equal to the marked catalogue and every placement greedy and available in the catalogue |
| Planning.PlanFromSelects | lib/booker.ts:206-223 | from any point on, each request goes to the first venue available in the marked copy at its turn, which is available in the catalogue; a failure is a request no venue of that copy can take |
| Planning.BulkPlanGreedy | lib/booker.ts:198-225 | on success, request i goes to the first venue available in the catalogue with the windows of requests 0..i-1 marked, and that venue is available for it in the catalogue; on failure, some request finds no venue in that copy |
| Planning.PlanFromExtends | lib/booker.ts:218 | the loop only appends: the orders already made stay as they were |
| Planning.BulkStartsLikeSingle | lib/booker.ts:207 | the first order of a successful bulk plan is the order a single request would get |
| Planning.SingleVenueConflictFails | lib/booker.ts:219-222 | with one venue, a second request conflicting with the first one's window cannot be placed |
| Planning.EnclosingRequestSharesVenue | lib/booker.ts:60-62 | with one venue open and free for both, a second request whose window strictly encloses the first one's is placed in the same venue: the boundary-only rule does not catch it |
| Submission.ChunkSize | lib/booker.ts:154 | the chunk size is at least one, and equals the concurrency when that is positive |
| Submission.ChunkOrders | lib/booker.ts:156-158 | the chunks concatenate to the input; each holds one to `size` orders, and all but the last hold exactly `size` |
| Submission.RunChunks | lib/booker.ts:160-163 | sending the chunks one after the other yields one outcome per order, at the order's position |
| Submission.ResultItem | lib/booker.ts:165-179 | success exactly when the creation succeeded; the created order with the success message, else the original payload with the failure message |
| Strings.FirstPiece | lib/booker.ts:189-190 | the first piece is the longest prefix without the separator, followed by the separator or the end |
| Strings.AfterFirst | lib/seiue.ts:22 | the string is the first piece, the separator, then this rest |
| Strings.SecondPiece | lib/seiue.ts:22 | the second piece is absent exactly when the separator does not occur; otherwise it is the separator-free text that follows the first separator, up to the next separator or the end |
| Strings.FirstPieceOf | lib/seiue.ts:21 | the first piece is the text before the first separator, whatever follows it |
| Types.FindIndex | lib/booker.ts:44 | the position of the first venue with the id, or none exactly when no venue has it |
| Types.FindIndexSameIds | lib/booker.ts:200 | two lists with the same ids at every position give the same lookups, so the copy resolves ids as the catalogue does |
| Seiue.CookieName | lib/seiue.ts:21-22 | defines a cookie's name: the text before the first '=' of the text before the first ';' |
| Seiue.CookieValue | lib/seiue.ts:21-22 | defines a cookie's value: the second '='-piece of the text before the first ';', absent without '=' |
| Seiue.CookiesParser | lib/seiue.ts:18-26 | the keys are exactly the cookie names, and each name maps to the value of the last cookie with that name |
| Seiue.CookieIgnoresAttributes | lib/seiue.ts:21 | the attributes after the first ';' do not affect the name or the value |
| Seiue.CookieValueCutAtSecondEquals | lib/seiue.ts:22 | a value containing '=' is cut at it: the name is the text before the first '=' and the value the text up to the second |
| Seiue.CookieNameAndValue | lib/seiue.ts:21-23 | a plain `name=value` cookie yields exactly its name and its value |
| Seiue.CookieWithoutEquals | lib/seiue.ts:22 | a cookie without '=' is named by its whole content and has no value |
| Seiue.FirstMatchFrom | lib/seiue.ts:210 | the leftmost position from which an uppercase letter is followed by a digit, or none when no such position exists |
| Seiue.NormalizeVenue | lib/seiue.ts:209-222 | id and name are kept; building and floor are present exactly when the name has a letter-digit match and are that leftmost match; opening ranges are renamed field by field; no occupied times |
| Seiue.NormalizeVenues | lib/seiue.ts:209 | one normalised venue per response item, in order |
| Seiue.EventRanges | lib/seiue.ts:228 | one time range per event, with its start and end, in order |
| Seiue.EventTimesFor | lib/seiue.ts:226-229 | defines the events merged for an id: those of every calendar entry for it, entry after entry |
| Seiue.OrderTimesFor | lib/seiue.ts:230-233 | defines the order times merged for an id, in order |
| Seiue.MergedTimes | lib/seiue.ts:226-233 | defines a venue's merged occupied times: its events then its order times when it is the first venue with its id, none otherwise |
| Seiue.GetVenueList | lib/seiue.ts:209-234 | fails exactly when some event or order time names an id absent from the list, reporting that id; otherwise each venue is its normalised self with its calendar events then its order times as occupied times |
| Seiue.MergeCalendarEvents | lib/seiue.ts:226-229 | fails exactly on an unknown id; otherwise every venue first with its id has exactly the events for it appended, entry after entry |
| Seiue.MergeOrderTimes | lib/seiue.ts:230-233 | fails exactly on an unknown id; otherwise every venue first with its id has exactly its order times appended after its events |
| Seiue.EventsMergeStep | lib/seiue.ts:227-228 | appending one entry's events to the venue found keeps the merged state for one more entry |
| Seiue.OrderTimesMergeStep | lib/seiue.ts:231-232 | appending one order time to the venue found keeps the merged state for one more item |

## Left out

- Fetching: logging in, the HTTP fetches, and the calendar-event and order-time queries with their date windows are not modelled. `getVenueList` is modelled from the three responses on; `createOrder` is a parameter.
- `static init` only fetches the venue list and builds a `Booker`. It is not modelled apart from the constructor.
- Rejection reasons: `createOrder`'s rejection reason is dropped by the engine itself and is not modelled.
- Concurrency: `Promise.all` and `Promise.allSettled` are taken in order. The orders of a chunk are created one after the other, and the outcomes are what the oracle gives per position. Interleavings with the remote system are not modelled.
- Date parsing: `new Date(text)`, time zones and the local getters are abstracted into the `Parser` parameter and the `Date` datatype.
- Opening bounds: parsing "HH:MM" bounds with `split(':').map(Number)` is not modelled. The bounds arrive as integer minutes, including in the venue response type. Malformed bounds, which give NaN in the source, are therefore not represented.
- `Booking.Booker.constructor`: requires every venue to have a floor and a building listed in the building order. Otherwise the source's comparator returns NaN or inconsistent answers, and the order `toSorted` produces is implementation-defined.
- `Ranking.SortVenues`: requires sortable venues, for the same reason.
- `Ranking.StrLess`: compares strings by code point. JavaScript compares UTF-16 code units, which differs only for characters outside the Basic Multilingual Plane (floors are digits).
- `Booking.Booker.FindAvailableVenuesAll`: is a function, because the source's mapping has no state to update. The placeholder `{}` objects and their removal by `filter` are folded into keeping only the available venues.
- `Booking.Booker.SendOrder`: a non-integer or NaN concurrency is not modelled. The concurrency is an integer.
- `Booking.Booker.SendOrder`: the source's default concurrency of 2 is not modelled. Callers pass the concurrency explicitly.
- Deep copy: the JSON deep copy in `bulkGenerateOrder` is a value copy of the catalogue. Mutating the chosen venue of the copy is modelled as replacing it at its position.
- Merging orders: the intended merging of orders in the same venue (a TODO in the source) does not exist in the code and is not modelled.
- `Seiue.CookiesParser`: a name such as `__proto__` has special assignment behaviour on a plain JavaScript object and is not modelled. The map treats every name alike; an absent value (`undefined`) is `None`.
- `Seiue.GetVenueList`: the non-null assertion on a failed `find` makes the source throw a `TypeError` at the first push. The model reports that as `VenueNotFound` with the id. The message of the `TypeError` is not modelled.
