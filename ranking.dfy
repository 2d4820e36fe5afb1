/**
 * Venue ranking (`sortVenues`): a stable sort of the catalogue by floor
 * string and building rank, floor first or building first.
 */
module Ranking {
  import opened Types

  datatype SortBy = Floor | Building

  /** `TSortOptions`: which key comes first, and the rank of each building code. */
  datatype SortOptions = SortOptions(firstSortBy: SortBy, buildingOrder: map<char, int>)

  /** The constructor's ranking: floor first, then buildings B, C, A, D. */
  const DefaultSortOptions: SortOptions := SortOptions(Floor, map['B' := 0, 'C' := 1, 'A' := 2, 'D' := 3])

  /** JavaScript's `a < b` on strings: lexicographic, a proper prefix first. */
  predicate StrLess(a: string, b: string)
    decreases |a|
  {
    if |a| == 0 then |b| > 0
    else if |b| == 0 then false
    else if a[0] != b[0] then a[0] < b[0]
    else StrLess(a[1..], b[1..])
  }

  lemma {:induction false} StrLessIrreflexive(a: string)
    ensures !StrLess(a, a)
    decreases |a|
  {
    if |a| > 0 {
      StrLessIrreflexive(a[1..]);
    }
  }

  lemma {:induction false} StrLessAsymmetric(a: string, b: string)
    ensures !(StrLess(a, b) && StrLess(b, a))
    decreases |a|
  {
    if |a| > 0 && |b| > 0 && a[0] == b[0] {
      StrLessAsymmetric(a[1..], b[1..]);
    }
  }

  lemma {:induction false} StrLessTotal(a: string, b: string)
    ensures a == b || StrLess(a, b) || StrLess(b, a)
    decreases |a|
  {
    if |a| > 0 && |b| > 0 && a[0] == b[0] {
      StrLessTotal(a[1..], b[1..]);
      if a[1..] == b[1..] {
        assert a == [a[0]] + a[1..] && b == [b[0]] + b[1..];
      }
    }
  }

  lemma {:induction false} StrLessTransitive(a: string, b: string, c: string)
    requires StrLess(a, b) && StrLess(b, c)
    ensures StrLess(a, c)
    decreases |a|
  {
    if |a| > 0 && a[0] == b[0] && b[0] == c[0] {
      StrLessTransitive(a[1..], b[1..], c[1..]);
    }
  }

  /** Both sort keys are defined: a floor, and a building that has a rank. */
  predicate Sortable(v: Venue, opts: SortOptions) {
    v.floor.Some? && v.building.Some? && v.building.value in opts.buildingOrder
  }

  predicate AllSortable(s: seq<Venue>, opts: SortOptions) {
    forall v :: v in s ==> Sortable(v, opts)
  }

  function Rank(v: Venue, opts: SortOptions): int
    requires Sortable(v, opts)
  {
    opts.buildingOrder[v.building.value]
  }

  /** The comparator handed to `toSorted`: negative, zero or positive. */
  function Compare(a: Venue, b: Venue, opts: SortOptions): int
    requires Sortable(a, opts) && Sortable(b, opts)
  {
    match opts.firstSortBy
    case Floor =>
      if StrLess(a.floor.value, b.floor.value) then -1
      else if StrLess(b.floor.value, a.floor.value) then 1
      else Rank(a, opts) - Rank(b, opts)
    case Building =>
      var buildingCompare := Rank(a, opts) - Rank(b, opts);
      if buildingCompare != 0 then buildingCompare
      else if StrLess(a.floor.value, b.floor.value) then -1
      else if StrLess(b.floor.value, a.floor.value) then 1
      else 0
  }

  /** Both sortable, and equal on both keys. */
  predicate SameKey(a: Venue, b: Venue, opts: SortOptions) {
    Sortable(a, opts) && Sortable(b, opts) && a.floor == b.floor && Rank(a, opts) == Rank(b, opts)
  }

  /** The key order the comparator encodes, as a lexicographic order on the pair of keys. */
  predicate KeyAtMost(a: Venue, b: Venue, opts: SortOptions)
    requires Sortable(a, opts) && Sortable(b, opts)
  {
    match opts.firstSortBy
    case Floor =>
      StrLess(a.floor.value, b.floor.value) ||
      (a.floor == b.floor && Rank(a, opts) <= Rank(b, opts))
    case Building =>
      Rank(a, opts) < Rank(b, opts) ||
      (Rank(a, opts) == Rank(b, opts) && (StrLess(a.floor.value, b.floor.value) || a.floor == b.floor))
  }

  /**
   * The comparator orders venues by (floor, building rank) or by
   * (building rank, floor), and says "equal" exactly on equal keys.
   */
  lemma CompareMeaning(a: Venue, b: Venue, opts: SortOptions)
    requires Sortable(a, opts) && Sortable(b, opts)
    ensures Compare(a, b, opts) <= 0 <==> KeyAtMost(a, b, opts)
    ensures Compare(a, b, opts) == 0 <==> SameKey(a, b, opts)
    ensures Compare(a, b, opts) < 0 <==> Compare(b, a, opts) > 0
  {
    StrLessIrreflexive(a.floor.value);
    StrLessAsymmetric(a.floor.value, b.floor.value);
    StrLessTotal(a.floor.value, b.floor.value);
  }

  lemma CompareTransitive(a: Venue, b: Venue, c: Venue, opts: SortOptions)
    requires Sortable(a, opts) && Sortable(b, opts) && Sortable(c, opts)
    requires Compare(a, b, opts) <= 0 && Compare(b, c, opts) <= 0
    ensures Compare(a, c, opts) <= 0
  {
    CompareMeaning(a, b, opts);
    CompareMeaning(b, c, opts);
    CompareMeaning(a, c, opts);
    if StrLess(a.floor.value, b.floor.value) && StrLess(b.floor.value, c.floor.value) {
      StrLessTransitive(a.floor.value, b.floor.value, c.floor.value);
    }
  }

  predicate Sorted(s: seq<Venue>, opts: SortOptions) {
    AllSortable(s, opts) &&
    forall i, j :: 0 <= i < j < |s| ==> Compare(s[i], s[j], opts) <= 0
  }

  /** Inserts `x` after every element that does not compare above it. */
  function Insert(s: seq<Venue>, x: Venue, opts: SortOptions): (r: seq<Venue>)
    requires AllSortable(s, opts) && Sortable(x, opts)
    ensures multiset(r) == multiset(s) + multiset{x}
    ensures |r| == |s| + 1
    ensures forall v :: v in r ==> v == x || v in s
    ensures AllSortable(r, opts)
  {
    if s == [] then [x]
    else if Compare(s[|s| - 1], x, opts) <= 0 then s + [x]
    else
      assert s == s[..|s| - 1] + [s[|s| - 1]];
      Insert(s[..|s| - 1], x, opts) + [s[|s| - 1]]
  }

  /** Appending an element that no element compares above keeps a sequence sorted. */
  lemma SortedAppend(s: seq<Venue>, y: Venue, opts: SortOptions)
    requires Sorted(s, opts) && Sortable(y, opts)
    requires forall i :: 0 <= i < |s| ==> Compare(s[i], y, opts) <= 0
    ensures Sorted(s + [y], opts)
  {
    var r := s + [y];
    forall i, j | 0 <= i < j < |r|
      ensures Compare(r[i], r[j], opts) <= 0
    {
      if j < |s| {
        assert r[i] == s[i] && r[j] == s[j];
      } else {
        assert r[i] == s[i] && r[j] == y;
      }
    }
  }

  lemma {:induction false} InsertSorted(s: seq<Venue>, x: Venue, opts: SortOptions)
    requires Sorted(s, opts) && Sortable(x, opts)
    ensures Sorted(Insert(s, x, opts), opts)
    decreases |s|
  {
    if s == [] {
      assert Insert(s, x, opts) == [x];
    } else if Compare(s[|s| - 1], x, opts) <= 0 {
      forall i | 0 <= i < |s|
        ensures Compare(s[i], x, opts) <= 0
      {
        if i < |s| - 1 {
          CompareTransitive(s[i], s[|s| - 1], x, opts);
        }
      }
      SortedAppend(s, x, opts);
    } else {
      var e, s' := s[|s| - 1], s[..|s| - 1];
      SortedPrefix(s, |s| - 1, opts);
      InsertSorted(s', x, opts);
      var r' := Insert(s', x, opts);
      CompareMeaning(e, x, opts);
      forall i | 0 <= i < |r'|
        ensures Compare(r'[i], e, opts) <= 0
      {
        assert r'[i] in r';
        if r'[i] != x {
          var j :| 0 <= j < |s'| && s'[j] == r'[i];
          assert s[j] == s'[j];
        }
      }
      SortedAppend(r', e, opts);
    }
  }

  /** `venues.toSorted(comparator)`: a stable sort (insertion sort, taking the input from the back). */
  function SortVenues(venues: seq<Venue>, opts: SortOptions): (r: seq<Venue>)
    requires AllSortable(venues, opts)
    ensures multiset(r) == multiset(venues)
    ensures Sorted(r, opts)
  {
    if venues == [] then []
    else
      var n := |venues|;
      assert venues == venues[..n - 1] + [venues[n - 1]];
      var sorted := SortVenues(venues[..n - 1], opts);
      InsertSorted(sorted, venues[n - 1], opts);
      Insert(sorted, venues[n - 1], opts)
  }

  /** The venues of `s`, in order, that have the same keys as `x`. */
  function WithKeyOf(s: seq<Venue>, x: Venue, opts: SortOptions): seq<Venue> {
    if s == [] then []
    else WithKeyOf(s[..|s| - 1], x, opts) + KeyPart(s[|s| - 1], x, opts)
  }

  lemma WithKeyOfSnoc(s: seq<Venue>, e: Venue, x: Venue, opts: SortOptions)
    ensures WithKeyOf(s + [e], x, opts) == WithKeyOf(s, x, opts) + KeyPart(e, x, opts)
  {
    assert (s + [e])[..|s|] == s;
  }

  /** Inserting below the last element inserts into the front and keeps the last element last. */
  lemma InsertBelowLast(s: seq<Venue>, y: Venue, opts: SortOptions)
    requires AllSortable(s, opts) && Sortable(y, opts) && s != []
    requires Compare(s[|s| - 1], y, opts) > 0
    ensures AllSortable(s[..|s| - 1], opts)
    ensures Insert(s, y, opts) == Insert(s[..|s| - 1], y, opts) + [s[|s| - 1]]
  {
  }

  /** `[v]` when `v` has the keys of `x`, else nothing. */
  function KeyPart(v: Venue, x: Venue, opts: SortOptions): seq<Venue> {
    if SameKey(v, x, opts) then [v] else []
  }

  lemma SplitLast(s: seq<Venue>)
    requires s != []
    ensures s == s[..|s| - 1] + [s[|s| - 1]]
  {
  }

  /** Two venues that compare apart cannot both have the keys of `x`. */
  lemma ApartKeys(e: Venue, y: Venue, x: Venue, opts: SortOptions)
    requires Sortable(e, opts) && Sortable(y, opts) && Compare(e, y, opts) > 0
    ensures KeyPart(e, x, opts) == [] || KeyPart(y, x, opts) == []
  {
    CompareMeaning(e, y, opts);
  }

  /** Appending `e` on both sides of a stability equation, when `e` and `y` do not both have the keys of `x`. */
  lemma KeyShuffle(a: seq<Venue>, b: seq<Venue>, e: Venue, y: Venue, x: Venue, opts: SortOptions)
    requires WithKeyOf(a, x, opts) == WithKeyOf(b, x, opts) + KeyPart(y, x, opts)
    requires KeyPart(e, x, opts) == [] || KeyPart(y, x, opts) == []
    ensures WithKeyOf(a + [e], x, opts) == WithKeyOf(b + [e], x, opts) + KeyPart(y, x, opts)
  {
    WithKeyOfSnoc(a, e, x, opts);
    WithKeyOfSnoc(b, e, x, opts);
    SwapEmpty(WithKeyOf(b, x, opts), KeyPart(y, x, opts), KeyPart(e, x, opts));
  }

  lemma SwapEmpty(w: seq<Venue>, a: seq<Venue>, b: seq<Venue>)
    requires a == [] || b == []
    ensures w + a + b == w + b + a
  {
    if a == [] {
      assert w + a == w;
    } else {
      assert w + b == w;
    }
  }

  /** The step of `InsertStable` where `y` goes after the last element. */
  lemma InsertStableAfter(s: seq<Venue>, y: Venue, x: Venue, opts: SortOptions)
    requires AllSortable(s, opts) && Sortable(y, opts)
    requires s == [] || Compare(s[|s| - 1], y, opts) <= 0
    ensures WithKeyOf(Insert(s, y, opts), x, opts) == WithKeyOf(s, x, opts) + KeyPart(y, x, opts)
  {
    assert Insert(s, y, opts) == s + [y];
    WithKeyOfSnoc(s, y, x, opts);
  }

  /** The step of `InsertStable` where `y` moves below the last element. */
  lemma InsertStableBelow(s: seq<Venue>, y: Venue, x: Venue, opts: SortOptions)
    requires AllSortable(s, opts) && Sortable(y, opts) && s != []
    requires Compare(s[|s| - 1], y, opts) > 0
    requires AllSortable(s[..|s| - 1], opts)
    requires WithKeyOf(Insert(s[..|s| - 1], y, opts), x, opts) == WithKeyOf(s[..|s| - 1], x, opts) + KeyPart(y, x, opts)
    ensures WithKeyOf(Insert(s, y, opts), x, opts) == WithKeyOf(s, x, opts) + KeyPart(y, x, opts)
  {
    var e, s' := s[|s| - 1], s[..|s| - 1];
    SplitLast(s);
    InsertBelowLast(s, y, opts);
    ApartKeys(e, y, x, opts);
    KeyShuffle(Insert(s', y, opts), s', e, y, x, opts);
  }

  lemma {:induction false} InsertStable(s: seq<Venue>, y: Venue, x: Venue, opts: SortOptions)
    requires AllSortable(s, opts) && Sortable(y, opts)
    ensures WithKeyOf(Insert(s, y, opts), x, opts) == WithKeyOf(s, x, opts) + KeyPart(y, x, opts)
    decreases |s|
  {
    if s == [] || Compare(s[|s| - 1], y, opts) <= 0 {
      InsertStableAfter(s, y, x, opts);
    } else {
      InsertBelowLast(s, y, opts);
      InsertStable(s[..|s| - 1], y, x, opts);
      InsertStableBelow(s, y, x, opts);
    }
  }

  /**
   * Stability: among the venues with the same keys as any `x`, the sort
   * keeps the input's relative order.
   */
  lemma {:induction false} SortStable(venues: seq<Venue>, x: Venue, opts: SortOptions)
    requires AllSortable(venues, opts)
    ensures WithKeyOf(SortVenues(venues, opts), x, opts) == WithKeyOf(venues, x, opts)
    decreases |venues|
  {
    if venues != [] {
      var n := |venues|;
      assert venues == venues[..n - 1] + [venues[n - 1]];
      SortVenuesUnfold(venues, opts);
      SortStable(venues[..n - 1], x, opts);
      InsertStable(SortVenues(venues[..n - 1], opts), venues[n - 1], x, opts);
      WithKeyOfSnoc(venues[..n - 1], venues[n - 1], x, opts);
    }
  }

  lemma SortedPrefix(s: seq<Venue>, n: nat, opts: SortOptions)
    requires Sorted(s, opts) && n <= |s|
    ensures Sorted(s[..n], opts)
  {
    forall i, j | 0 <= i < j < n
      ensures Compare(s[..n][i], s[..n][j], opts) <= 0
    {
      assert s[..n][i] == s[i] && s[..n][j] == s[j];
    }
  }

  lemma SortVenuesUnfold(venues: seq<Venue>, opts: SortOptions)
    requires AllSortable(venues, opts) && venues != []
    ensures AllSortable(venues[..|venues| - 1], opts)
    ensures SortVenues(venues, opts) == Insert(SortVenues(venues[..|venues| - 1], opts), venues[|venues| - 1], opts)
  {
    assert venues == venues[..|venues| - 1] + [venues[|venues| - 1]];
  }

  lemma InsertAfterLast(s: seq<Venue>, x: Venue, opts: SortOptions)
    requires AllSortable(s, opts) && Sorted(s + [x], opts)
    ensures Insert(s, x, opts) == s + [x]
  {
    if s != [] {
      assert (s + [x])[|s| - 1] == s[|s| - 1] && (s + [x])[|s|] == x;
    }
  }

  /** Re-sorting a sorted catalogue with the same options leaves it as it is. */
  lemma {:induction false} SortSortedIsIdentity(venues: seq<Venue>, opts: SortOptions)
    requires Sorted(venues, opts)
    ensures SortVenues(venues, opts) == venues
    decreases |venues|
  {
    if venues != [] {
      var n := |venues|;
      var front := venues[..n - 1];
      assert venues == front + [venues[n - 1]];
      SortedPrefix(venues, n - 1, opts);
      SortSortedIsIdentity(front, opts);
      SortVenuesUnfold(venues, opts);
      InsertAfterLast(front, venues[n - 1], opts);
    }
  }

  /** Sorting twice with the same options is sorting once. */
  lemma SortIdempotent(venues: seq<Venue>, opts: SortOptions)
    requires AllSortable(venues, opts)
    ensures SortVenues(SortVenues(venues, opts), opts) == SortVenues(venues, opts)
  {
    SortSortedIsIdentity(SortVenues(venues, opts), opts);
  }
}
