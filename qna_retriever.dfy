/**
 * The question-and-answer retriever over the per-appliance part collections. With a known
 * appliance it queries that appliance's collection alone; otherwise it queries every
 * collection, skips those that fail, concatenates the answers, orders the rows by distance
 * (a stable sort, so equal distances keep their merge order) and keeps the first `k`.
 */
module QnaRetriever {
  import opened Wrappers
  import opened Seqs
  import opened VectorStore

  /** One answer row: the four parallel lists of a store answer, taken position by position. */
  datatype Row = Row(document: string, metadata: Metadata, id: string, distance: real)

  /** What one collection query did: it raised (`Failed`), or it returned rows in store order. */
  datatype Outcome = Failed | Returned(rows: seq<Row>)

  const DishwasherCollection := "dishwasher_parts"
  const RefrigeratorCollection := "refrigerator_parts"

  /** The appliance-to-collection table. */
  const Collections: map<string, string> := map["dishwasher" := DishwasherCollection, "refrigerator" := RefrigeratorCollection]

  /** The collections searched when no known appliance is given, in the table's order. */
  const CollectionOrder: seq<string> := [DishwasherCollection, RefrigeratorCollection]

  /** The rows of the answered outcomes, in order; failed queries contribute nothing. */
  function Merged(outcomes: seq<Outcome>): seq<Row> {
    if outcomes == [] then []
    else
      var last := outcomes[|outcomes| - 1];
      Merged(outcomes[..|outcomes| - 1]) + (if last.Returned? then last.rows else [])
  }

  /** The merge loop over the collections' outcomes. */
  method MergeOutcomes(outcomes: seq<Outcome>) returns (merged: seq<Row>)
    ensures merged == Merged(outcomes)
  {
    merged := [];
    for i := 0 to |outcomes|
      invariant merged == Merged(outcomes[..i])
    {
      assert outcomes[..i + 1][..i] == outcomes[..i];
      match outcomes[i]
      case Failed =>
      case Returned(rows) =>
        merged := merged + rows;
    }
    assert outcomes[..|outcomes|] == outcomes;
  }

  /** A row is merged exactly when some answered outcome holds it. */
  lemma {:induction false} MergedRowsComeFromAnswers(outcomes: seq<Outcome>, row: Row)
    ensures row in Merged(outcomes) <==> exists o :: o in outcomes && o.Returned? && row in o.rows
  {
    if outcomes != [] {
      var n := |outcomes|;
      var p := outcomes[..n - 1];
      MergedRowsComeFromAnswers(p, row);
      assert outcomes == p + [outcomes[n - 1]];
    }
  }

  /** The distances of `rows`, in order. */
  function Distances(rows: seq<Row>): (ds: seq<real>)
    ensures |ds| == |rows| && forall i :: 0 <= i < |rows| ==> ds[i] == rows[i].distance
  {
    seq(|rows|, i requires 0 <= i < |rows| => rows[i].distance)
  }

  /** The order of a stable sort by distance: index `i` comes before index `j` when its
      distance is smaller, or equal and `i` is the earlier index. */
  predicate Before(ds: seq<real>, i: nat, j: nat)
    requires i < |ds| && j < |ds|
  {
    ds[i] < ds[j] || (ds[i] == ds[j] && i < j)
  }

  /** `s` lists indices of `ds`, each strictly before every later one. */
  predicate SortedBy(ds: seq<real>, s: seq<nat>) {
    && (forall a :: 0 <= a < |s| ==> s[a] < |ds|)
    && (forall a, b :: 0 <= a < b < |s| ==> Before(ds, s[a], s[b]))
  }

  /** Puts index `i` into the sorted list `s` after every index that comes before it. */
  function Insert(ds: seq<real>, s: seq<nat>, i: nat): (r: seq<nat>)
    requires i < |ds| && i !in s && SortedBy(ds, s)
    ensures |r| == |s| + 1
    ensures forall x :: x in r <==> x in s || x == i
    ensures SortedBy(ds, r)
  {
    if s == [] then [i]
    else if Before(ds, i, s[0]) then
      [i] + s
    else
      var rest := Insert(ds, s[1..], i);
      assert forall x :: x in rest ==> Before(ds, s[0], x);
      [s[0]] + rest
  }

  /** `sorted(range(n), key=lambda i: ds[i])`: the indices below `n` in the order of a stable
      sort by distance. */
  function SortIndices(ds: seq<real>, n: nat): (r: seq<nat>)
    requires n <= |ds|
    ensures |r| == n
    ensures forall x: int :: x in r <==> 0 <= x < n
    ensures SortedBy(ds, r)
  {
    if n == 0 then [] else Insert(ds, SortIndices(ds, n - 1), n - 1)
  }

  /** The rows at the given indices, in that order. */
  function Select(rows: seq<Row>, idx: seq<nat>): (out: seq<Row>)
    requires forall a :: 0 <= a < |idx| ==> idx[a] < |rows|
    ensures |out| == |idx| && forall a :: 0 <= a < |idx| ==> out[a] == rows[idx[a]]
  {
    seq(|idx|, a requires 0 <= a < |idx| => rows[idx[a]])
  }

  /** The indices of the rows kept: the first `k` of the stable sort, with Python's slice
      meaning of `k`. */
  function TopIndices(rows: seq<Row>, k: int): seq<nat> {
    PyPrefix(SortIndices(Distances(rows), |rows|), k)
  }

  /** The `k` nearest rows of the merged answer, nearest first: at most `k` of them, and
      exactly `k` when there are that many. */
  function TopRows(rows: seq<Row>, k: int): (top: seq<Row>)
    ensures |top| <= |rows|
    ensures k >= 0 ==> |top| == if k < |rows| then k else |rows|
  {
    var idx := TopIndices(rows, k);
    assert idx <= SortIndices(Distances(rows), |rows|);
    Select(rows, idx)
  }

  /** The kept rows are merged rows at pairwise different positions, ascending by distance,
      with equal distances in merge order. */
  lemma TopRowsAreSortedMergedRows(rows: seq<Row>, k: int)
    ensures var idx := TopIndices(rows, k);
      && |TopRows(rows, k)| == |idx|
      && (forall a :: 0 <= a < |idx| ==> idx[a] < |rows| && TopRows(rows, k)[a] == rows[idx[a]])
      && Distinct(idx)
      && (forall a, b :: 0 <= a < b < |idx| ==>
            TopRows(rows, k)[a].distance <= TopRows(rows, k)[b].distance)
      && (forall a, b :: 0 <= a < b < |idx| && TopRows(rows, k)[a].distance == TopRows(rows, k)[b].distance ==>
            idx[a] < idx[b])
  {
    var ds := Distances(rows);
    var all := SortIndices(ds, |rows|);
    var idx := TopIndices(rows, k);
    assert idx <= all;
    forall a, b | 0 <= a < b < |idx| ensures Before(ds, idx[a], idx[b]) {
      assert idx[a] == all[a] && idx[b] == all[b];
    }
  }

  /** The kept rows are the nearest: no left-out row is nearer than a kept one. */
  lemma TopRowsAreNearest(rows: seq<Row>, k: int, j: nat)
    requires j < |rows| && j !in TopIndices(rows, k)
    ensures forall a :: 0 <= a < |TopRows(rows, k)| ==> TopRows(rows, k)[a].distance <= rows[j].distance
  {
    var ds := Distances(rows);
    var all := SortIndices(ds, |rows|);
    var idx := TopIndices(rows, k);
    assert idx <= all;
    var p := IndexOf(all, j);
    assert p >= |idx|;
    forall a | 0 <= a < |idx| ensures rows[idx[a]].distance <= rows[j].distance {
      assert idx[a] == all[a];
      assert Before(ds, all[a], all[p]);
    }
  }

  /** What a call returns: with a known appliance, exactly what that collection's query did,
      a failure included; otherwise the `k` nearest merged rows, never a failure, and no row
      when no collection gave one. */
  function Answer(appliance: Option<string>, k: int, dishwasher: Outcome, refrigerator: Outcome): (r: Outcome)
    ensures Truthy(appliance) && appliance.value == "dishwasher" ==> r == dishwasher
    ensures Truthy(appliance) && appliance.value == "refrigerator" ==> r == refrigerator
    ensures !(Truthy(appliance) && appliance.value in Collections) ==>
      r == Returned(TopRows(Merged([dishwasher, refrigerator]), k))
    ensures !(Truthy(appliance) && appliance.value in Collections) ==>
      r.Returned? && (Merged([dishwasher, refrigerator]) == [] ==> r.rows == [])
  {
    if Truthy(appliance) && appliance.value in Collections then
      if Collections[appliance.value] == DishwasherCollection then dishwasher else refrigerator
    else
      Returned(TopRows(Merged([dishwasher, refrigerator]), k))
  }

  /** `qan_retrieve`, with what each collection query does as inputs: the collections it
      queries, in order, and what it returns (`Failed` when it raises). */
  method QnaRetrieve(appliance: Option<string>, k: int, dishwasher: Outcome, refrigerator: Outcome)
    returns (searched: seq<string>, r: Outcome)
    ensures Truthy(appliance) && appliance.value in Collections ==> searched == [Collections[appliance.value]]
    ensures !(Truthy(appliance) && appliance.value in Collections) ==> searched == CollectionOrder
    ensures r == Answer(appliance, k, dishwasher, refrigerator)
  {
    if Truthy(appliance) && appliance.value in Collections {
      var name := Collections[appliance.value];
      searched := [name];
      r := if name == DishwasherCollection then dishwasher else refrigerator;
      return;
    }
    searched := CollectionOrder;
    var merged := MergeOutcomes([dishwasher, refrigerator]);
    if |Distances(merged)| > 0 {
      r := Returned(TopRows(merged, k));
    } else {
      r := Returned([]);
    }
  }
}
