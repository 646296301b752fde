/** Building the query of one batch: queries that share their loop variable, and the rounding period. */
module Queries {
  import opened Collections
  import opened Batching
  import opened Index
  import opened Filter
  import opened Records
  import Race = RoundingRace
  import opened Window

  const QUERY_CHUNK := 50
  const BATCH := 20

  /** The variable of a `range` loop. In Go 1.18 there is one for the whole loop, assigned at each turn. */
  class LoopVariable {
    var data: Record

    constructor (first: Record)
      ensures data == first
    {
      data := first;
    }
  }

  /** A query holds a pointer to the period inside the loop variable; everything else it holds by value. */
  datatype Query = Query(
    id: string, metricName: string, namespace: string, dimensions: seq<Dimension>, stat: string,
    periodOf: LoopVariable)

  /** What the SDK reads when the request is sent. */
  ghost function Period(q: Query): int
    reads q.periodOf
  {
    q.periodOf.data.period
  }

  /** The captured variable `roundingPeriod`. */
  class Rounding {
    var period: int

    constructor ()
      ensures period == Race.DEFAULT_PERIOD
    {
      period := Race.DEFAULT_PERIOD;
    }
  }

  ghost function PeriodsOf(records: seq<Record>): (periods: seq<int>)
    ensures |periods| == |records|
  {
    seq(|records|, k requires 0 <= k < |records| => records[k].period)
  }

  /** A query carries the id, dimensions and statistic of its own record. */
  ghost predicate QueryOf(q: Query, rec: Record, namespace: string) {
    && |rec.statistics| > 0
    && q.id == rec.metricId && q.metricName == rec.metric && q.namespace == namespace
    && q.dimensions == rec.dimensions && q.stat == rec.statistics[0]
  }

  /** Every query carries its own record's values, and all of them show the last record's period. */
  ghost predicate Prepared(queries: seq<Query>, records: seq<Record>, namespace: string)
    reads set q | q in queries :: q.periodOf
  {
    && |queries| == |records|
    && (forall k :: 0 <= k < |queries| ==> QueryOf(queries[k], records[k], namespace))
    && (forall k :: 0 <= k < |queries| ==> Period(queries[k]) == records[|records| - 1].period)
  }

  /**
   One worker. All its queries share one loop variable, so in the end all of them show the period of the
   last record; each shows its own record's period exactly when the two agree.
   */
  method QueryWorker(input: seq<Record>, namespace: string, rounding: Rounding) returns (queries: seq<Query>)
    requires forall k :: 0 <= k < |input| ==> input[k].statistics != []
    modifies rounding
    ensures Prepared(queries, input, namespace)
    ensures forall k :: 0 <= k < |queries| ==> fresh(queries[k].periodOf)
    ensures forall k :: 0 <= k < |queries| ==> queries[k].periodOf == queries[0].periodOf
    ensures Race.IsMin(rounding.period, old(rounding.period), PeriodsOf(input))
  {
    queries := [];
    if input == [] {
      return;
    }
    var loop := new LoopVariable(input[0]);
    for i := 0 to |input|
      invariant fresh(loop)
      invariant i > 0 ==> loop.data == input[i - 1]
      invariant |queries| == i
      invariant forall k :: 0 <= k < i ==> QueryOf(queries[k], input[k], namespace) && queries[k].periodOf == loop
      invariant Race.IsMin(rounding.period, old(rounding.period), PeriodsOf(input)[..i])
    {
      loop.data := input[i];
      Race.MinNext(rounding.period, old(rounding.period), PeriodsOf(input), i);
      if loop.data.period < rounding.period {
        rounding.period := loop.data.period;
      }
      queries := queries + [Query(loop.data.metricId, loop.data.metric, namespace, loop.data.dimensions,
                                  loop.data.statistics[0], loop)];
    }
    assert PeriodsOf(input)[..|input|] == PeriodsOf(input);
  }

  datatype Request = Request(startTime: int, endTime: int, queries: seq<Query>)

  /**
   The whole request for one batch. A batch of at most 50 records has one worker, so the loop below runs it
   where the source starts it; larger inputs are never handed over (see BatchesHaveOneWorker).
   */
  method CreateGetMetricDataInput(
    records: seq<Record>, namespace: string, length: int, delay: int, configured: Option<int>, now: int)
    returns (request: Request, ghost rounding: int)
    requires |records| <= QUERY_CHUNK
    requires forall k :: 0 <= k < |records| ==> records[k].statistics != []
    ensures Prepared(request.queries, records, namespace)
    ensures forall k :: 0 <= k < |request.queries| ==> fresh(request.queries[k].periodOf)
    ensures configured.Some? ==> rounding == configured.value
    ensures configured.None? ==> Race.IsMin(rounding, Race.DEFAULT_PERIOD, PeriodsOf(records))
    ensures request.endTime == EndOf(now, Seconds(rounding), Seconds(delay))
    ensures request.startTime == StartOf(now, Seconds(rounding), Seconds(length), Seconds(delay))
    ensures IsWindow(now, Seconds(rounding), Seconds(length), Seconds(delay), request.startTime, request.endTime)
  {
    var variable := new Rounding();
    var queries := RunWorkers(records, namespace, variable);
    if configured.Some? {
      variable.period := configured.value;
    }
    rounding := variable.period;
    var startTime, endTime :=
      DetermineGetMetricDataWindow(now, Seconds(variable.period), Seconds(length), Seconds(delay));
    request := Request(startTime, endTime, queries);
  }

  /** The cutPoint loop over the chunks, of which there is one or none. */
  method RunWorkers(records: seq<Record>, namespace: string, variable: Rounding) returns (queries: seq<Query>)
    requires |records| <= QUERY_CHUNK && variable.period == Race.DEFAULT_PERIOD
    requires forall k :: 0 <= k < |records| ==> records[k].statistics != []
    modifies variable
    ensures Prepared(queries, records, namespace)
    ensures forall k :: 0 <= k < |queries| ==> fresh(queries[k].periodOf)
    ensures Race.IsMin(variable.period, Race.DEFAULT_PERIOD, PeriodsOf(records))
  {
    queries := [];
    var cutPoint := 0;
    while cutPoint < |records|
      invariant cutPoint == 0 || cutPoint == |records|
      invariant cutPoint == 0 ==> queries == [] && variable.period == Race.DEFAULT_PERIOD
      invariant forall k :: 0 <= k < |queries| ==> fresh(queries[k].periodOf)
      invariant cutPoint > 0 ==>
        Prepared(queries, records, namespace) && Race.IsMin(variable.period, Race.DEFAULT_PERIOD, PeriodsOf(records))
    {
      var start, end := cutPoint, cutPoint + QUERY_CHUNK;
      if end > |records| {
        end := |records|;
      }
      assert records[start..end] == records;
      var more := QueryWorker(records[start..end], namespace, variable);
      assert queries + more == more;
      queries := queries + more;
      cutPoint := end;
    }
  }

  // ---- why neither the aliasing nor the race does harm ----

  /** The periods that the workers of one request compare. */
  ghost function WorkerPeriods(records: seq<Record>): Race.Periods {
    var chunks := Batches(records, QUERY_CHUNK);
    seq(|chunks|, i requires 0 <= i < |chunks| => PeriodsOf(chunks[i]))
  }

  /** Batches are cut 20 wide and the workers of a request 50 wide, so a request has exactly one worker. */
  lemma BatchesHaveOneWorker(records: seq<Record>, i: nat)
    requires i < |Batches(records, BATCH)|
    ensures WorkerPeriods(Batches(records, BATCH)[i]) == [PeriodsOf(Batches(records, BATCH)[i])]
  {
    BatchesCut(records, BATCH);
    var batch := Batches(records, BATCH)[i];
    assert 0 < |batch| <= BATCH;
    assert Batches(batch, QUERY_CHUNK) == [batch];
  }

  /** Therefore every schedule leaves the minimum of 300 and the periods of the batch. */
  lemma UnlockedMinimumIsSafe(records: seq<Record>, i: nat, schedule: seq<Race.Action>)
    requires i < |Batches(records, BATCH)|
    requires Race.Complete(WorkerPeriods(Batches(records, BATCH)[i]), schedule)
    ensures Race.IsMin(Race.After(WorkerPeriods(Batches(records, BATCH)[i]), schedule).value,
                       Race.DEFAULT_PERIOD, PeriodsOf(Batches(records, BATCH)[i]))
  {
    BatchesHaveOneWorker(records, i);
    Race.SingleWorkerIsExact(PeriodsOf(Batches(records, BATCH)[i]), schedule);
  }

  /** A batch of records built by one call has one period. */
  lemma BatchHasOnePeriod(
    index: DimensionIndex, list: seq<Metric>, target: Target, ids: nat -> string, i: nat, k: nat)
    requires i < |Batches(BuiltRecords(index, list, target, ids), BATCH)|
    requires k < |Batches(BuiltRecords(index, list, target, ids), BATCH)[i]|
    ensures Batches(BuiltRecords(index, list, target, ids), BATCH)[i][k].period == target.metric.period
    ensures Batches(BuiltRecords(index, list, target, ids), BATCH)[i][k].statistics != []
  {
    var records := BuiltRecords(index, list, target, ids);
    var batches := Batches(records, BATCH);
    BatchesCut(records, BATCH);
    PartInConcat(batches, i, k);
    var j :| 0 <= j < |records| && records[j] == batches[i][k];
    BuiltRecordsAreFresh(index, list, target, ids, j);
  }

  /**
   The composition, for a batch of built records: every query of its request shows its own record's values, the
   rounding period is the configured one or the smaller of 300 and the metric's period, and the window follows.
   */
  method RequestForBatch(
    index: DimensionIndex, list: seq<Metric>, target: Target, ids: nat -> string, i: nat,
    namespace: string, length: int, delay: int, configured: Option<int>, now: int)
    returns (batch: seq<Record>, request: Request)
    requires i < |Batches(BuiltRecords(index, list, target, ids), BATCH)|
    ensures batch == Batches(BuiltRecords(index, list, target, ids), BATCH)[i]
    ensures |request.queries| == |batch|
    ensures forall k :: 0 <= k < |batch| ==>
      QueryOf(request.queries[k], batch[k], namespace) && Period(request.queries[k]) == batch[k].period
    ensures !Panics(index, list, target) ==> forall k :: 0 <= k < |batch| ==>
      Asks(request.queries[k], index, list, target, ids, namespace, 20 * i + k)
    ensures forall k :: 0 <= k < |batch| ==> Period(request.queries[k]) == target.metric.period
    ensures var rounding := if configured.Some? then configured.value
        else if target.metric.period < 300 then target.metric.period else 300;
      IsWindow(now, Seconds(rounding), Seconds(length), Seconds(delay), request.startTime, request.endTime)
  {
    var records := BuiltRecords(index, list, target, ids);
    batch := Batches(records, BATCH)[i];
    BatchesCut(records, BATCH);
    forall k | 0 <= k < |batch| ensures batch[k].statistics != [] && batch[k].period == target.metric.period {
      BatchHasOnePeriod(index, list, target, ids, i, k);
    }
    ghost var rounding;
    request, rounding := CreateGetMetricDataInput(batch, namespace, length, delay, configured, now);
    if configured.None? {
      LeastOfOne(rounding, target.metric.period, batch);
    }
    if !Panics(index, list, target) {
      BatchIsAsked(index, list, target, ids, i, request.queries, namespace);
    }
  }

  lemma BatchIsAsked(
    index: DimensionIndex, list: seq<Metric>, target: Target, ids: nat -> string, i: nat, queries: seq<Query>,
    namespace: string)
    requires !Panics(index, list, target) && i < |Batches(BuiltRecords(index, list, target, ids), BATCH)|
    requires var batch := Batches(BuiltRecords(index, list, target, ids), BATCH)[i];
      |queries| == |batch| && forall k :: 0 <= k < |batch| ==> QueryOf(queries[k], batch[k], namespace)
    ensures forall k :: 0 <= k < |queries| ==> Asks(queries[k], index, list, target, ids, namespace, 20 * i + k)
  {
    forall k | 0 <= k < |queries| ensures Asks(queries[k], index, list, target, ids, namespace, 20 * i + k) {
      BatchQueryIsAsked(index, list, target, ids, i, k, queries[k], namespace);
    }
  }

  lemma BatchQueryIsAsked(
    index: DimensionIndex, list: seq<Metric>, target: Target, ids: nat -> string, i: nat, k: nat, query: Query,
    namespace: string)
    requires !Panics(index, list, target) && i < |Batches(BuiltRecords(index, list, target, ids), BATCH)|
    requires k < |Batches(BuiltRecords(index, list, target, ids), BATCH)[i]|
    requires QueryOf(query, Batches(BuiltRecords(index, list, target, ids), BATCH)[i][k], namespace)
    ensures Asks(query, index, list, target, ids, namespace, 20 * i + k)
  {
    BatchElement(BuiltRecords(index, list, target, ids), BATCH, i, k);
    RecordIsAsked(index, list, target, ids, 20 * i + k, query, namespace);
  }

  /** The `j`-th query is about some metric of the list and some configured statistic: those at its place. */
  ghost predicate Asks(
    query: Query, index: DimensionIndex, list: seq<Metric>, target: Target, ids: nat -> string, namespace: string,
    j: nat)
  {
    && query.id == ids(j) && query.metricName == target.metric.name && query.namespace == namespace
    && exists a, b :: 0 <= a < |list| && 0 <= b < |target.metric.statistics| && AtPlace(target, a, b, j)
         && query.dimensions == list[a].dims && query.stat == target.metric.statistics[b]
  }

  ghost predicate AtPlace(target: Target, a: nat, b: nat, j: nat) {
    j == a * |target.metric.statistics| + b
  }

  lemma RecordIsAsked(
    index: DimensionIndex, list: seq<Metric>, target: Target, ids: nat -> string, j: nat, query: Query,
    namespace: string)
    requires !Panics(index, list, target) && j < |BuiltRecords(index, list, target, ids)|
    requires QueryOf(query, BuiltRecords(index, list, target, ids)[j], namespace)
    ensures Asks(query, index, list, target, ids, namespace, j)
  {
    BuiltAreRecords(index, list, target, ids);
    var a, b := PlaceOf(j, |list|, |target.metric.statistics|);
    assert RecordInPlace(BuiltRecords(index, list, target, ids), index, list, target, ids, a, b);
    assert AtPlace(target, a, b, j);
  }

  lemma PlaceOf(j: nat, rows: nat, width: nat) returns (a: nat, b: nat)
    requires j < rows * width
    ensures a < rows && b < width && j == a * width + b
  {
    a, b := 0, j;
    while b >= width
      invariant j == a * width + b && a < rows
    {
      assert (a + 1) * width == a * width + width;
      if a + 1 == rows {
        assert false;
      }
      a, b := a + 1, b - width;
    }
  }

  function RoundingFor(period: int, configured: Option<int>): int {
    match configured
    case Some(seconds) => seconds
    case None => if period < Race.DEFAULT_PERIOD then period else Race.DEFAULT_PERIOD
  }

  lemma LeastOfOne(m: int, period: int, records: seq<Record>)
    requires records != [] && forall k :: 0 <= k < |records| ==> records[k].period == period
    requires Race.IsMin(m, Race.DEFAULT_PERIOD, PeriodsOf(records))
    ensures m == RoundingFor(period, None)
  {
    assert PeriodsOf(records)[0] == period;
  }
}
