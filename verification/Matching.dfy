/** Matching the results of CloudWatch back to the records that asked for them. */
module Matching {
  import opened Collections
  import opened Batching
  import opened Records
  import opened Queries
  import ForkJoin

  /** One result: the id of its query and its datapoints, newest first. */
  datatype Result = Result(id: string, values: seq<int>, timestamps: seq<int>)

  /** The service sends a timestamp with every value. */
  ghost predicate WellFormed(results: seq<Result>) {
    forall i :: 0 <= i < |results| && results[i].values != [] ==> results[i].timestamps != []
  }

  /** A `*cloudwatchData`: a record on the heap. */
  class RecordCell {
    var data: Record

    constructor (data: Record)
      ensures this.data == data
    {
      this.data := data;
    }
  }

  ghost predicate DistinctIds(records: seq<Record>) {
    forall i, j :: 0 <= i < j < |records| ==> records[i].metricId != records[j].metricId
  }

  /** The first record with the id. */
  ghost function Find(records: seq<Record>, id: string): Option<Record> {
    if records == [] then None
    else if records[0].metricId == id then Some(records[0])
    else Find(records[1..], id)
  }

  lemma {:induction false} FindAt(records: seq<Record>, id: string, k: nat)
    requires k < |records| && records[k].metricId == id
    requires forall j :: 0 <= j < k ==> records[j].metricId != id
    ensures Find(records, id) == Some(records[k])
  {
    if k > 0 {
      FindAt(records[1..], id, k - 1);
    }
  }

  lemma {:induction false} FindNone(records: seq<Record>, id: string)
    requires forall k :: 0 <= k < |records| ==> records[k].metricId != id
    ensures Find(records, id) == None
  {
    if records != [] {
      FindNone(records[1..], id);
    }
  }

  /** The first value and the first timestamp, set together, or neither. */
  ghost function Filled(rec: Record, result: Result): Record {
    if result.values != [] && result.timestamps != []
    then rec.(point := Some(result.values[0]), timestamp := Some(result.timestamps[0]))
    else rec
  }

  /** What one result contributes to the output of its batch. */
  ghost function MatchedIn(records: seq<Record>): Result -> seq<Record> {
    (result: Result) =>
      match Find(records, result.id)
      case None => []
      case Some(rec) => [Filled(rec, result)]
  }

  /**
   `findGetMetricDataById` returns the address of its loop variable: a fresh copy of the first record with
   the id, or nil. The slice `[lo, hi)` of `data` itself is not written.
   */
  method FindGetMetricDataById(data: array<Record>, lo: nat, hi: nat, id: string) returns (found: RecordCell?)
    requires lo <= hi <= data.Length
    ensures found == null <==> Find(data[lo..hi], id).None?
    ensures found != null ==> fresh(found) && Find(data[lo..hi], id) == Some(found.data)
  {
    ghost var records := data[lo..hi];
    for k := lo to hi
      invariant forall j :: 0 <= j < k - lo ==> records[j].metricId != id
    {
      assert records[k - lo] == data[k];
      if data[k].metricId == id {
        FindAt(records, id, k - lo);
        found := new RecordCell(data[k]);
        return;
      }
    }
    FindNone(records, id);
    found := null;
  }

  ghost function Contents(cells: seq<RecordCell>): (r: seq<Record>)
    reads cells
    ensures |r| == |cells|
  {
    seq(|cells|, i requires 0 <= i < |cells| reads cells => cells[i].data)
  }

  /** Datapoint and timestamp are set from the result if it has values. */
  method FillCell(cell: RecordCell, result: Result)
    requires result.values != [] ==> result.timestamps != []
    modifies cell
    ensures cell.data == Filled(old(cell.data), result)
  {
    if |result.values| != 0 {
      cell.data := cell.data.(point := Some(result.values[0]));
      cell.data := cell.data.(timestamp := Some(result.timestamps[0]));
    }
  }

  /**
   The worker of one batch. Every output record is a fresh object, no two are the same object, and the
   shared array of input records is left as it was (nothing is listed under modifies).
   */
  method MatchWorker(data: array<Record>, lo: nat, hi: nat, results: seq<Result>) returns (output: seq<RecordCell>)
    requires lo <= hi <= data.Length && WellFormed(results)
    ensures forall k :: 0 <= k < |output| ==> fresh(output[k])
    ensures Distinct(output)
    ensures Contents(output) == FlatMap(MatchedIn(data[lo..hi]), results)
  {
    output := [];
    for r := 0 to |results|
      invariant forall m :: m in output ==> fresh(m)
      invariant Distinct(output)
      invariant Contents(output) == FlatMap(MatchedIn(data[lo..hi]), results[..r])
    {
      FlatMapNext(MatchedIn(data[lo..hi]), results, r);
      output := MatchResult(data, lo, hi, results[r], output);
    }
    assert results[..|results|] == results;
    forall k | 0 <= k < |output| ensures fresh(output[k]) {
      assert output[k] in output;
    }
  }

  /** One result: a fresh copy of its record, filled in, goes to the end of the output. */
  method MatchResult(data: array<Record>, lo: nat, hi: nat, result: Result, before: seq<RecordCell>)
    returns (output: seq<RecordCell>)
    requires lo <= hi <= data.Length && Distinct(before)
    requires result.values != [] ==> result.timestamps != []
    ensures forall m :: m in output ==> m in before || fresh(m)
    ensures Distinct(output)
    ensures Contents(output) == Contents(before) + MatchedIn(data[lo..hi])(result)
  {
    output := before;
    var getMetricData := FindGetMetricDataById(data, lo, hi, result.id);
    if getMetricData != null {
      FillCell(getMetricData, result);
      output := output + [getMetricData];
      assert Contents(output) == Contents(before) + [getMetricData.data];
    }
  }

  // ---- no crossing ----

  ghost predicate OnlyWithId(records: seq<Record>, k: nat, id: string)
    requires k < |records|
  {
    forall j :: 0 <= j < |records| ==> (records[j].metricId == id <==> j == k)
  }

  /** Datapoint and timestamp are the result's first ones, set together or not at all; all else is unchanged. */
  ghost predicate FilledCopy(rec: Record, result: Result, out: Record) {
    && out.(point := None, timestamp := None) == rec.(point := None, timestamp := None)
    && (if result.values != [] && result.timestamps != []
        then out.point == Some(result.values[0]) && out.timestamp == Some(result.timestamps[0])
        else out == rec)
  }

  /**
   With distinct ids an output record comes from the one record of the batch with the result's id, and differs
   from it in datapoint and timestamp only.
   */
  lemma NeverCrosses(records: seq<Record>, result: Result, out: Record)
    requires DistinctIds(records) && out in MatchedIn(records)(result)
    ensures exists k :: 0 <= k < |records| && OnlyWithId(records, k, result.id) && FilledCopy(records[k], result, out)
  {
    var k := Position(records, result.id);
    FindAt(records, result.id, k);
  }

  /** A result gives one output record, from the first record with its id, and none if no record has the id. */
  lemma EveryResultGivesOne(records: seq<Record>, result: Result)
    ensures var out := MatchedIn(records)(result);
      if forall k :: 0 <= k < |records| ==> records[k].metricId != result.id then out == []
      else |out| == 1 && IsFirstFilled(records, result, out[0])
  {
    if forall k :: 0 <= k < |records| ==> records[k].metricId != result.id {
      FindNone(records, result.id);
    } else {
      if Find(records, result.id).None? {
        var k :| 0 <= k < |records| && records[k].metricId == result.id;
        FindSome(records, result.id, k);
      }
      var k := Position(records, result.id);
      FindAt(records, result.id, k);
      assert IsFirstWithId(records, k, result.id);
    }
  }

  ghost predicate IsFirstFilled(records: seq<Record>, result: Result, out: Record) {
    exists k ::
      0 <= k < |records| && IsFirstWithId(records, k, result.id) && FilledCopy(records[k], result, out)
  }

  ghost predicate IsFirstWithId(records: seq<Record>, k: nat, id: string)
    requires k < |records|
  {
    records[k].metricId == id && forall j :: 0 <= j < k ==> records[j].metricId != id
  }

  lemma {:induction false} FindSome(records: seq<Record>, id: string, k: nat)
    requires k < |records| && records[k].metricId == id
    ensures Find(records, id).Some?
  {
    if k > 0 {
      FindSome(records[1..], id, k - 1);
    }
  }

  lemma {:induction false} Position(records: seq<Record>, id: string) returns (k: nat)
    requires Find(records, id).Some?
    ensures k < |records| && records[k].metricId == id && forall j :: 0 <= j < k ==> records[j].metricId != id
  {
    if records[0].metricId == id {
      k := 0;
    } else {
      k := Position(records[1..], id);
      k := k + 1;
    }
  }

  // ---- every schedule ----

  /** The answers to the batches, one list of results a batch. */
  type Responses = seq<seq<Result>>

  /** A batch without results appends nothing; any other appends its whole output in one piece. */
  ghost function BatchBlocks(batch: seq<Record>, results: seq<Result>): seq<seq<Record>> {
    if results == [] then [] else [FlatMap(MatchedIn(batch), results)]
  }

  ghost function ScrapeRoutines(records: seq<Record>, responses: Responses): (routines: seq<ForkJoin.Routine<Record>>)
    requires |responses| == |Batches(records, BATCH)|
    ensures ForkJoin.Forest(routines) && |routines| == |responses|
  {
    var batches := Batches(records, BATCH);
    ForkJoin.Flat(seq(|batches|, i requires 0 <= i < |batches| => BatchBlocks(batches[i], responses[i])))
  }

  /** The output of the batches one after the other. */
  ghost function BatchOutputs(records: seq<Record>, responses: Responses): seq<seq<Record>>
    requires |responses| == |Batches(records, BATCH)|
  {
    var batches := Batches(records, BATCH);
    seq(|batches|, i requires 0 <= i < |batches| => FlatMap(MatchedIn(batches[i]), responses[i]))
  }

  lemma {:induction false} BlocksAreOutputs(batches: seq<seq<Record>>, responses: Responses)
    requires |batches| == |responses|
    ensures Concat(Concat(seq(|batches|, i requires 0 <= i < |batches| => BatchBlocks(batches[i], responses[i]))))
         == Concat(seq(|batches|, i requires 0 <= i < |batches| => FlatMap(MatchedIn(batches[i]), responses[i])))
  {
    if batches != [] {
      var n := |batches| - 1;
      BlocksAreOutputs(batches[..n], responses[..n]);
      var work := seq(|batches|, i requires 0 <= i < |batches| => BatchBlocks(batches[i], responses[i]));
      var outputs := seq(|batches|, i requires 0 <= i < |batches| => FlatMap(MatchedIn(batches[i]), responses[i]));
      assert work[..n] == seq(n, i requires 0 <= i < n => BatchBlocks(batches[..n][i], responses[..n][i]));
      assert outputs[..n] == seq(n, i requires 0 <= i < n => FlatMap(MatchedIn(batches[..n][i]), responses[..n][i]));
      ConcatAppend(Concat(work[..n]), work[n]);
      if responses[n] == [] {
        assert outputs[n] == [];
      } else {
        assert work[n][..0] == [];
      }
    }
  }

  /** For every schedule the blocks of the batches come out whole, in some order, and nothing else does. */
  lemma ScrapeUnderAnySchedule(records: seq<Record>, responses: Responses, schedule: seq<ForkJoin.Action>)
    requires |responses| == |Batches(records, BATCH)|
    requires ForkJoin.Complete(ScrapeRoutines(records, responses), schedule)
    ensures var log := ForkJoin.After(ScrapeRoutines(records, responses), schedule).log;
      && ForkJoin.Output(ScrapeRoutines(records, responses), schedule) == Concat(log)
      && Permutation(log, ForkJoin.AllBlocks(ScrapeRoutines(records, responses)))
    ensures Permutation(ForkJoin.Output(ScrapeRoutines(records, responses), schedule),
                        Concat(BatchOutputs(records, responses)))
  {
    var batches := Batches(records, BATCH);
    ForkJoin.Conservation(ScrapeRoutines(records, responses), schedule);
    ForkJoin.FlatBlocks(seq(|batches|, i requires 0 <= i < |batches| => BatchBlocks(batches[i], responses[i])));
    BlocksAreOutputs(batches, responses);
  }

  /** A record with the values of a result that carries its id. */
  ghost predicate IsFilled(records: seq<Record>, responses: Responses, out: Record) {
    exists t, i, x ::
      0 <= t < |records| && 0 <= i < |responses| && 0 <= x < |responses[i]|
      && records[t].metricId == responses[i][x].id && FilledCopy(records[t], responses[i][x], out)
  }

  /** Whatever comes out is one of the records, filled from one of the results. */
  lemma OutputIsFilled(records: seq<Record>, responses: Responses, out: Record)
    requires |responses| == |Batches(records, BATCH)| && out in Concat(BatchOutputs(records, responses))
    ensures IsFilled(records, responses, out)
  {
    var i := InConcat(BatchOutputs(records, responses), out);
    var batch := Batches(records, BATCH)[i];
    var result := InFlatMap(MatchedIn(batch), responses[i], out);
    var x: nat :| x < |responses[i]| && responses[i][x] == result;
    EveryResultGivesOne(batch, result);
    var k: nat :| k < |batch| && IsFirstWithId(batch, k, result.id) && FilledCopy(batch[k], result, out);
    BatchElement(records, BATCH, i, k);
  }

  lemma FilledRecord(records: seq<Record>, responses: Responses, out: Record) returns (t: nat)
    requires IsFilled(records, responses, out)
    ensures t < |records| && out.(point := None, timestamp := None) == records[t].(point := None, timestamp := None)
    ensures out == records[t] || (out.point.Some? && out.timestamp.Some?)
  {
    var i, x;
    t, i, x :|
      0 <= t < |records| && 0 <= i < |responses| && 0 <= x < |responses[i]|
      && records[t].metricId == responses[i][x].id && FilledCopy(records[t], responses[i][x], out);
  }

  // ---- batching is transparent ----

  /** How the service answers a query, whatever else is asked with it: results that carry the query's id. */
  type Service = Record -> seq<Result>

  ghost predicate Answers(service: Service, records: seq<Record>, results: seq<Result>) {
    && (forall rec, r :: rec in records && r in service(rec) ==> r.id == rec.metricId)
    && Permutation(results, FlatMap(service, records))
  }

  ghost function FilledBy(service: Service): Record -> seq<Record> {
    (rec: Record) => FlatMap(FilledFrom(rec), service(rec))
  }

  ghost function FilledFrom(rec: Record): Result -> seq<Record> {
    (r: Result) => [Filled(rec, r)]
  }

  lemma OwnResults(records: seq<Record>, service: Service, rec: Record, k: nat)
    requires DistinctIds(records) && k < |records| && records[k] == rec
    requires forall r :: r in service(rec) ==> r.id == rec.metricId
    ensures FlatMap(MatchedIn(records), service(rec)) == FilledBy(service)(rec)
  {
    forall r | r in service(rec) ensures MatchedIn(records)(r) == FilledFrom(rec)(r) {
      FindAt(records, r.id, k);
    }
    FlatMapSame(MatchedIn(records), FilledFrom(rec), service(rec));
  }

  /** A batch gives each of its records exactly the service's own answers, in whatever order they arrive. */
  lemma BatchIsFilled(records: seq<Record>, service: Service, results: seq<Result>)
    requires DistinctIds(records) && Answers(service, records, results)
    ensures Permutation(FlatMap(MatchedIn(records), results), FlatMap(FilledBy(service), records))
  {
    FlatMapPermuted(MatchedIn(records), results, FlatMap(service, records));
    forall rec | rec in records ensures FlatMap(MatchedIn(records), service(rec)) == FilledBy(service)(rec) {
      var k :| 0 <= k < |records| && records[k] == rec;
      OwnResults(records, service, rec, k);
    }
    FlatMapTwice(service, MatchedIn(records), FilledBy(service), records);
  }

  ghost predicate AllAnswer(service: Service, records: seq<Record>, responses: Responses) {
    var batches := Batches(records, BATCH);
    |responses| == |batches| && forall i :: 0 <= i < |batches| ==> Answers(service, batches[i], responses[i])
  }

  /**
   Cutting the records into batches, sending them concurrently and matching the answers by id gives, up to
   order, what asking for every record on its own would give.
   */
  lemma BatchingIsTransparent(
    records: seq<Record>, service: Service, responses: Responses, schedule: seq<ForkJoin.Action>)
    requires DistinctIds(records) && AllAnswer(service, records, responses)
    requires ForkJoin.Complete(ScrapeRoutines(records, responses), schedule)
    ensures Permutation(ForkJoin.Output(ScrapeRoutines(records, responses), schedule),
                        FlatMap(FilledBy(service), records))
  {
    var batches := Batches(records, BATCH);
    var outputs := BatchOutputs(records, responses);
    var filled := seq(|batches|, i requires 0 <= i < |batches| => FlatMap(FilledBy(service), batches[i]));
    ScrapeUnderAnySchedule(records, responses, schedule);
    BatchesCut(records, BATCH);
    forall i | 0 <= i < |batches| ensures Permutation(outputs[i], filled[i]) {
      DistinctInBatch(batches, i);
      BatchIsFilled(batches[i], service, responses[i]);
    }
    ConcatAlike(outputs, filled);
    FlatMapConcat(FilledBy(service), batches);
  }

  lemma {:induction false} DistinctInBatch(batches: seq<seq<Record>>, i: nat)
    requires i < |batches| && DistinctIds(Concat(batches))
    ensures DistinctIds(batches[i])
  {
    var n := |batches| - 1;
    var before := Concat(batches[..n]);
    assert Concat(batches) == before + batches[n];
    if i < n {
      forall j, k | 0 <= j < k < |before| ensures before[j].metricId != before[k].metricId {
        assert Concat(batches)[j] == before[j] && Concat(batches)[k] == before[k];
      }
      DistinctInBatch(batches[..n], i);
    } else {
      forall j, k | 0 <= j < k < |batches[n]| ensures batches[n][j].metricId != batches[n][k].metricId {
        assert Concat(batches)[|before| + j] == batches[n][j] && Concat(batches)[|before| + k] == batches[n][k];
      }
    }
  }
}
