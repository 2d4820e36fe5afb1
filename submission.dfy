/**
 * Batch submission: the chunking of `sendOrder` and the mapping of each
 * creation outcome back to a per-position result.
 */
module Submission {
  import opened Types

  /**
   * The remote `createOrder`: the outcome of creating the order at position
   * `i` of a submission (position 0 for a single order) — the created order,
   * or `None` when the call is rejected. The reason of a rejection is dropped
   * by the engine and is not modelled.
   */
  type CreateOrder = (nat, NewOrder) -> Option<Order>

  /** What `sendOrder` is given: nothing (a falsy value), one order, or an array of orders. */
  datatype OrderInput = NoInput | SingleOrder(order: NewOrder) | OrderList(orders: seq<NewOrder>)

  /** What `sendOrder` returns: one result, or one result per order of an array. */
  datatype SendOutcome = SingleResult(item: SendOrderResultItem) | ListResult(items: seq<SendOrderResultItem>)

  /** `concurrency < 1 ? 1 : concurrency` */
  function ChunkSize(concurrency: int): (size: nat)
    ensures size >= 1 && (concurrency >= 1 ==> size == concurrency)
  {
    if concurrency < 1 then 1 else concurrency
  }

  /** The concatenation of the chunks, in order. */
  function Concat(chunks: seq<seq<NewOrder>>): seq<NewOrder> {
    if chunks == [] then [] else Concat(chunks[..|chunks| - 1]) + chunks[|chunks| - 1]
  }

  lemma {:induction false} ConcatAppend(a: seq<seq<NewOrder>>, b: seq<seq<NewOrder>>)
    ensures Concat(a + b) == Concat(a) + Concat(b)
    decreases |b|
  {
    if b == [] {
      assert a + b == a;
    } else {
      var b' := b[..|b| - 1];
      assert (a + b)[..|a + b| - 1] == a + b';
      ConcatAppend(a, b');
    }
  }

  /** Concatenating the first `c` chunks gives a prefix of the whole concatenation. */
  lemma ConcatPrefix(chunks: seq<seq<NewOrder>>, c: nat)
    requires c <= |chunks|
    ensures |Concat(chunks[..c])| <= |Concat(chunks)|
    ensures Concat(chunks[..c]) == Concat(chunks)[..|Concat(chunks[..c])|]
  {
    assert chunks == chunks[..c] + chunks[c..];
    ConcatAppend(chunks[..c], chunks[c..]);
  }

  /** The result for the order at some position, given the outcome of its creation. */
  function ResultItem(outcome: Option<Order>, input: NewOrder): (item: SendOrderResultItem)
    ensures item.Success() <==> outcome.Some?
    ensures outcome.Some? ==> item == Created(SuccessMessage, outcome.value)
    ensures outcome.None? ==> item == Failed(FailureMessage, input)
  {
    match outcome
    case Some(order) => Created(SuccessMessage, order)
    case None => Failed(FailureMessage, input)
  }

  /** The results of a batch: one per order, in order, each from that order's own outcome. */
  predicate ResultsFor(orders: seq<NewOrder>, createOrder: CreateOrder, items: seq<SendOrderResultItem>) {
    |items| == |orders| &&
    forall i :: 0 <= i < |items| ==> items[i] == ResultItem(createOrder(i, orders[i]), orders[i])
  }

  /**
   * The chunking loop of `sendOrder`: consecutive slices of `size` orders
   * (the last one possibly shorter) whose concatenation is the input.
   */
  method ChunkOrders(orders: seq<NewOrder>, size: nat) returns (chunks: seq<seq<NewOrder>>)
    requires size >= 1
    ensures Concat(chunks) == orders
    ensures forall c :: 0 <= c < |chunks| ==> 1 <= |chunks[c]| <= size
    ensures forall c :: 0 <= c < |chunks| - 1 ==> |chunks[c]| == size
  {
    chunks := [];
    var i := 0;
    while i < |orders|
      invariant 0 <= i
      invariant Concat(chunks) == orders[..if i < |orders| then i else |orders|]
      invariant forall c :: 0 <= c < |chunks| ==> 1 <= |chunks[c]| <= size
      invariant forall c :: 0 <= c < |chunks| - 1 ==> |chunks[c]| == size
      invariant i < |orders| && chunks != [] ==> |chunks[|chunks| - 1]| == size
      decreases |orders| - i
    {
      var end := if i + size < |orders| then i + size else |orders|;
      assert (chunks + [orders[i..end]])[..|chunks|] == chunks;
      assert orders[..i] + orders[i..end] == orders[..end];
      chunks := chunks + [orders[i..end]];
      i := i + size;
    }
  }

  /** Where chunk `c` sits in the input, given where the chunks before it end. */
  lemma ChunkAt(orders: seq<NewOrder>, chunks: seq<seq<NewOrder>>, c: nat, offset: nat)
    requires Concat(chunks) == orders && c < |chunks|
    requires offset <= |orders| && Concat(chunks[..c]) == orders[..offset]
    ensures offset + |chunks[c]| <= |orders|
    ensures Concat(chunks[..c + 1]) == orders[..offset + |chunks[c]|]
    ensures forall j :: 0 <= j < |chunks[c]| ==> chunks[c][j] == orders[offset + j]
  {
    ConcatPrefix(chunks, c + 1);
    assert chunks[..c + 1][..c] == chunks[..c];
    assert Concat(chunks[..c + 1]) == orders[..offset] + chunks[c];
  }

  /**
   * The chunks sent one after the other, each chunk's orders together: the
   * outcome of every order, at its position in the input.
   */
  method RunChunks(orders: seq<NewOrder>, chunks: seq<seq<NewOrder>>, createOrder: CreateOrder) returns (runResult: seq<Option<Order>>)
    requires Concat(chunks) == orders
    ensures |runResult| == |orders|
    ensures forall i :: 0 <= i < |runResult| ==> runResult[i] == createOrder(i, orders[i])
  {
    runResult := [];
    for c := 0 to |chunks|
      invariant |runResult| <= |orders| && Concat(chunks[..c]) == orders[..|runResult|]
      invariant OutcomesSoFar(orders, createOrder, runResult)
    {
      var chunk := chunks[c];
      var offset := |runResult|;
      ChunkAt(orders, chunks, c, offset);
      var chunkResult := seq(|chunk|, j requires 0 <= j < |chunk| => createOrder(offset + j, chunk[j]));
      OutcomesAppend(orders, createOrder, runResult, chunk, chunkResult);
      runResult := runResult + chunkResult;
    }
    assert chunks[..|chunks|] == chunks;
  }

  /** `results` holds the outcome of each of the first `|results|` orders, at its position. */
  predicate OutcomesSoFar(orders: seq<NewOrder>, createOrder: CreateOrder, results: seq<Option<Order>>) {
    |results| <= |orders| &&
    forall i :: 0 <= i < |results| ==> results[i] == createOrder(i, orders[i])
  }

  lemma OutcomesAppend(orders: seq<NewOrder>, createOrder: CreateOrder, results: seq<Option<Order>>,
                       chunk: seq<NewOrder>, chunkResult: seq<Option<Order>>)
    requires OutcomesSoFar(orders, createOrder, results)
    requires |results| + |chunk| <= |orders|
    requires forall j :: 0 <= j < |chunk| ==> chunk[j] == orders[|results| + j]
    requires |chunkResult| == |chunk|
    requires forall j :: 0 <= j < |chunk| ==> chunkResult[j] == createOrder(|results| + j, chunk[j])
    ensures OutcomesSoFar(orders, createOrder, results + chunkResult)
  {
    var all := results + chunkResult;
    forall i | 0 <= i < |all|
      ensures all[i] == createOrder(i, orders[i])
    {
      if i >= |results| {
        var j := i - |results|;
        assert all[i] == chunkResult[j];
      }
    }
  }
}
