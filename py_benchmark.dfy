/**
 * The Python benchmark controller (benchmark.py): its command handler, the
 * request/response task loop over `next_task_id` and the three dictionaries,
 * the final evaluation and the result document it sends with
 * BENCHMARK_FINISHED.
 *
 * What the source hands to pandas, numpy or the clock comes in as a value:
 * the number of test rows, the id pandas parses out of an answer, the
 * `time.time_ns()` readings, and `str`/`math.sqrt` on floats as functions.
 */
module PyBenchmark {
  import opened Wrappers
  import opened Bytes
  import opened Text
  import opened Envelope
  import opened Reals

  const MAX_CONNECTION_ATTEMPTS: int := 5
  const BENCHMARK_NAMESPACE: string := "http://example.org/sail-winter-school-2024/benchmark/"

  datatype Connection = NoConnection | Opening | Open

  /** Python floats where the source may leave them at `float('nan')`. */
  datatype Float = NaN | Finite(value: real)

  /** `BenchmarkResult`: a KPI with its value already rendered by `str`. */
  datatype BenchmarkResult = BenchmarkResult(kpiIri: string, value: string, dataType: Option<string>)

  /** What `evaluate` computes before it builds the KPIs. */
  datatype Report = Report(runtimes: seq<real>, errorCount: nat, average: Float, variance: Float, testDataSize: nat)

  // ---------------------------------------------------------------- aggregation

  function SquaredDeviations(xs: seq<real>, mean: real): (r: seq<real>)
    ensures |r| == |xs|
  {
    seq(|xs|, k requires 0 <= k < |xs| => (xs[k] - mean) * (xs[k] - mean))
  }

  /** `sum(runtimes) / len(runtimes)`, left at NaN for an empty list. */
  function Average(xs: seq<real>): (r: Float)
    ensures r == NaN <==> xs == []
    ensures r.Finite? ==> r.value * |xs| as real == Sum(xs)
  {
    if xs == [] then NaN else Finite(Sum(xs) / |xs| as real)
  }

  /** The mean squared deviation whose square root is the reported standard deviation. */
  function Variance(xs: seq<real>): (r: Float)
    ensures r == NaN <==> xs == []
  {
    if xs == [] then NaN else Finite(Sum(SquaredDeviations(xs, Average(xs).value)) / |xs| as real)
  }

  /**
   * The mean squared deviation is never negative, so the `math.sqrt` it is
   * handed to never raises.
   */
  lemma VarianceNonNegative(xs: seq<real>)
    ensures Variance(xs).Finite? ==> Variance(xs).value >= 0.0
  {
    if xs != [] {
      var d := SquaredDeviations(xs, Average(xs).value);
      forall k | 0 <= k < |d|
        ensures d[k] >= 0.0
      {
        var x := xs[k] - Average(xs).value;
        assert d[k] == x * x;
      }
      SumNonNegative(d);
    }
  }

  /** The aggregation on three answered runtimes of 100, 200 and 300. */
  lemma AggregationExample()
    ensures Average([100.0, 200.0, 300.0]) == Finite(200.0)
    ensures Variance([100.0, 200.0, 300.0]) == Finite(20000.0 / 3.0)
  {
    var xs := [100.0, 200.0, 300.0];
    assert Sum([100.0]) == 100.0 by { assert [100.0][..0] == []; }
    assert Sum([100.0, 200.0]) == 300.0 by { assert [100.0, 200.0][..1] == [100.0]; }
    assert Sum(xs) == 600.0 by { assert xs[..2] == [100.0, 200.0]; }
    var d := SquaredDeviations(xs, 200.0);
    assert d == [10000.0, 0.0, 10000.0];
    assert Sum([10000.0]) == 10000.0 by { assert [10000.0][..0] == []; }
    assert Sum([10000.0, 0.0]) == 10000.0 by { assert [10000.0, 0.0][..1] == [10000.0]; }
    assert Sum(d) == 20000.0 by { assert d[..2] == [10000.0, 0.0]; }
  }

  // ---------------------------------------------------------------- evaluation

  /** Task i can be evaluated: the three dictionary reads of the loop do not raise. */
  predicate Complete(i: int, answers: map<int, int>, received: map<int, int>, sent: map<int, int>) {
    i in answers && i in received && i in sent
  }

  /** The first task from `from` on whose evaluation raises KeyError, if any. */
  function FirstIncomplete(from: nat, n: nat, answers: map<int, int>, received: map<int, int>, sent: map<int, int>)
    : (r: Option<nat>)
    ensures r.None? <==> forall i :: from <= i < n ==> Complete(i, answers, received, sent)
    ensures r.Some? ==> from <= r.value < n && !Complete(r.value, answers, received, sent) &&
                        forall i :: from <= i < r.value ==> Complete(i, answers, received, sent)
    decreases n - from
  {
    if from >= n then None
    else if !Complete(from, answers, received, sent) then Some(from)
    else FirstIncomplete(from + 1, n, answers, received, sent)
  }

  lemma {:induction false} FirstIncompleteIs(from: nat, i: nat, n: nat, answers: map<int, int>, received: map<int, int>, sent: map<int, int>)
    requires from <= i < n && !Complete(i, answers, received, sent)
    requires forall j :: from <= j < i ==> Complete(j, answers, received, sent)
    ensures FirstIncomplete(from, n, answers, received, sent) == Some(i)
    decreases i - from
  {
    if from < i {
      FirstIncompleteIs(from + 1, i, n, answers, received, sent);
    }
  }

  /** The runtime of task i in microseconds: `(received - sent) / 1000.0`. */
  function Runtime(i: int, received: map<int, int>, sent: map<int, int>): real
    requires i in received && i in sent
  {
    (received[i] - sent[i]) as real / 1000.0
  }

  /** The runtimes of tasks 0..n-1, in task order. */
  function Runtimes(n: nat, received: map<int, int>, sent: map<int, int>): (r: seq<real>)
    requires forall i :: 0 <= i < n ==> i in received && i in sent
    ensures |r| == n && forall i :: 0 <= i < n ==> r[i] == Runtime(i, received, sent)
  {
    seq(n, i requires 0 <= i < n => Runtime(i, received, sent))
  }

  /**
   * `evaluate`: Err(i) when reading task i raises KeyError (the thread dies
   * and no result is sent); otherwise one runtime per task in task order.
   * `++error_count` is a no-op in Python, so the error count stays 0.
   */
  function Evaluation(n: nat, answers: map<int, int>, received: map<int, int>, sent: map<int, int>)
    : (r: Result<Report, nat>)
    ensures r.Ok? <==> forall i :: 0 <= i < n ==> Complete(i, answers, received, sent)
    ensures r.Err? ==> r.error < n && !Complete(r.error, answers, received, sent)
    ensures r.Ok? ==> |r.value.runtimes| == n && r.value.errorCount == 0 && r.value.testDataSize == n
    ensures r.Ok? ==> forall i :: 0 <= i < n ==>
                        Complete(i, answers, received, sent) && r.value.runtimes[i] == Runtime(i, received, sent)
  {
    var missing := FirstIncomplete(0, n, answers, received, sent);
    if missing.Some? then Err(missing.value)
    else
      assert forall i :: 0 <= i < n ==> Complete(i, answers, received, sent) && i in received && i in sent;
      var runtimes := Runtimes(n, received, sent);
      Ok(Report(runtimes, 0, Average(runtimes), Variance(runtimes), n))
  }

  /**
   * An unanswered task never shows up as a faulty response: evaluation
   * raises instead, and when it does report, the count is 0.
   */
  lemma UnansweredTaskIsNeverCounted(n: nat, answers: map<int, int>, received: map<int, int>, sent: map<int, int>, i: nat)
    requires i < n && i !in answers
    ensures Evaluation(n, answers, received, sent).Err?
  {
    assert !Complete(i, answers, received, sent);
  }

  function FloatText(f: Float, showFloat: real -> string): string {
    match f
    case NaN => "nan"
    case Finite(x) => showFloat(x)
  }

  /** The four KPIs `evaluate` hands to `send_result`, in that order. */
  function KpiResults(r: Report, showFloat: real -> string, sqrt: real -> real): (rs: seq<BenchmarkResult>)
    ensures |rs| == 4 && forall k :: 0 <= k < 4 ==> rs[k].dataType.Some?
  {
    var stdDev := match r.variance case NaN => NaN case Finite(v) => Finite(sqrt(v));
    [ BenchmarkResult(BENCHMARK_NAMESPACE + "avgRuntime", FloatText(r.average, showFloat), Some("xsd:double")),
      BenchmarkResult(BENCHMARK_NAMESPACE + "stdDevRuntime", FloatText(stdDev, showFloat), Some("xsd:double")),
      BenchmarkResult(BENCHMARK_NAMESPACE + "testDataSize", Decimal(r.testDataSize), Some("xsd:long")),
      BenchmarkResult(BENCHMARK_NAMESPACE + "faultyResponses", Decimal(r.errorCount), Some("xsd:long")) ]
  }

  // ---------------------------------------------------------------- result document

  const CONTEXT_HEAD: string :=
    "{\"@context\": {\"hobbit\": \"http://w3id.org/hobbit/vocab#\",\"xsd\": \"http://www.w3.org/2001/XMLSchema#\""

  /** The fixed pieces of the `kpi{i}` entries. */
  const KPI_KEY: string := ",\"kpi"
  const ID_OPEN: string := "\": {\"@id\": \""
  const ID_CLOSE: string := "\","
  const TYPE_OPEN: string := "\"@type\": \""
  const QUOTE: string := "\""
  const VALUE_OPEN: string := "\": \""

  /** The context entry of KPI i: its IRI and, only when it has one, its data type. */
  function ContextEntry(i: nat, r: BenchmarkResult): string {
    KPI_KEY + Decimal(i) + ID_OPEN + r.kpiIri + ID_CLOSE
    + (if r.dataType.Some? then TYPE_OPEN + r.dataType.value + QUOTE else "")
    + "}"
  }

  /** The value entry of KPI i. */
  function ValueEntry(i: nat, r: BenchmarkResult): string {
    KPI_KEY + Decimal(i) + VALUE_OPEN + r.value + QUOTE
  }

  /** The entries `entry` gives the KPIs of `rs`, numbered from `from` on, in list order. */
  function Entries(rs: seq<BenchmarkResult>, from: nat, entry: (nat, BenchmarkResult) -> string): string {
    if rs == [] then "" else entry(from, rs[0]) + Entries(rs[1..], from + 1, entry)
  }

  function ExperimentPart(experimentUri: string): string {
    "},\"@id\": \"" + experimentUri + "\",\"@type\": \"hobbit:Experiment\""
  }

  /** The document `send_result` sends. */
  function ResultDocument(rs: seq<BenchmarkResult>, experimentUri: string): string {
    CONTEXT_HEAD + Entries(rs, 0, ContextEntry) + ExperimentPart(experimentUri) + Entries(rs, 0, ValueEntry) + "}"
  }

  /** The entries of a concatenation are the entries of each part, numbered on. */
  lemma {:induction false} EntriesAppend(a: seq<BenchmarkResult>, b: seq<BenchmarkResult>, from: nat,
                                         entry: (nat, BenchmarkResult) -> string)
    ensures Entries(a + b, from, entry) == Entries(a, from, entry) + Entries(b, from + |a|, entry)
    decreases |a|
  {
    if a == [] {
      assert a + b == b;
    } else {
      assert (a + b)[0] == a[0] && (a + b)[1..] == a[1..] + b;
      EntriesAppend(a[1..], b, from + 1, entry);
    }
  }

  /** One more loop iteration appends exactly the entry of KPI i. */
  lemma EntriesSnoc(rs: seq<BenchmarkResult>, i: nat, entry: (nat, BenchmarkResult) -> string)
    requires i < |rs|
    ensures Entries(rs[..i + 1], 0, entry) == Entries(rs[..i], 0, entry) + entry(i, rs[i])
  {
    assert rs[..i + 1] == rs[..i] + [rs[i]];
    EntriesAppend(rs[..i], [rs[i]], 0, entry);
  }

  /** One iteration of the first loop of `send_result`: the entry it appends for KPI i. */
  method BuildContextEntry(i: nat, r: BenchmarkResult) returns (entry: string)
    ensures entry == ContextEntry(i, r)
  {
    entry := KPI_KEY + Decimal(i) + ID_OPEN + r.kpiIri + ID_CLOSE;
    if r.dataType.Some? {
      entry := entry + TYPE_OPEN + r.dataType.value + QUOTE;
    }
    entry := entry + "}";
  }

  /** The first loop of `send_result`: one context entry per KPI. */
  method AppendContextEntries(doc: string, results: seq<BenchmarkResult>) returns (resultModel: string)
    ensures resultModel == doc + Entries(results, 0, ContextEntry)
  {
    resultModel := doc;
    for i := 0 to |results|
      invariant resultModel == doc + Entries(results[..i], 0, ContextEntry)
    {
      EntriesSnoc(results, i, ContextEntry);
      var entry := BuildContextEntry(i, results[i]);
      resultModel := resultModel + entry;
    }
    assert results[..|results|] == results;
  }

  /** The second loop of `send_result`: one value entry per KPI. */
  method AppendValueEntries(doc: string, results: seq<BenchmarkResult>) returns (resultModel: string)
    ensures resultModel == doc + Entries(results, 0, ValueEntry)
  {
    resultModel := doc;
    for i := 0 to |results|
      invariant resultModel == doc + Entries(results[..i], 0, ValueEntry)
    {
      EntriesSnoc(results, i, ValueEntry);
      var entry := KPI_KEY + Decimal(i) + VALUE_OPEN + results[i].value + QUOTE;
      resultModel := resultModel + entry;
    }
    assert results[..|results|] == results;
  }

  /** `send_result` up to the publish: the context, the experiment, the values. */
  method BuildResultModel(results: seq<BenchmarkResult>, experimentUri: string) returns (resultModel: string)
    ensures resultModel == ResultDocument(results, experimentUri)
  {
    resultModel := AppendContextEntries(CONTEXT_HEAD, results);
    resultModel := resultModel + ExperimentPart(experimentUri);
    resultModel := AppendValueEntries(resultModel, results);
    resultModel := resultModel + "}";
  }

  // ---------------------------------------------------------------- the object

  /** The values of the benchmark object's fields. */
  datatype BenchState = BenchState(
    attempts: int, connection: Connection, nextTaskId: int,
    timestampsSent: map<int, int>, timestampsReceived: map<int, int>, answers: map<int, int>,
    systemId: Option<string>, trainDataSends: nat, tasksSent: seq<int>,
    published: seq<seq<byte>>, acks: nat, loopStopped: bool)

  function Published(msg: Option<seq<byte>>): seq<seq<byte>> {
    match msg case Some(b) => [b] case None => []
  }

  /** `SailWinterSchoolBenchmark` once `prepare_data` has split the data. */
  class SailBenchmark {
    const sessionId: string
    const experimentUri: string
    /** `len(self.test_data)` */
    const testDataSize: nat
    /** `str` on a finite float, and `math.sqrt` */
    const showFloat: real -> string
    const sqrt: real -> real

    var connectionAttemptCounts: int
    var connection: Connection
    var nextTaskId: int
    var timestampsSent: map<int, int>
    var timestampsReceived: map<int, int>
    var answers: map<int, int>
    var systemId: Option<string>
    /** how often `send_train_data` published the training CSV */
    var trainDataSends: nat
    /** the ids of the test rows published, in order */
    var tasksSent: seq<int>
    /** the command messages published */
    var published: seq<seq<byte>>
    var acks: nat
    var loopStopped: bool

    ghost function Model(): BenchState
      reads this
    {
      BenchState(connectionAttemptCounts, connection, nextTaskId, timestampsSent, timestampsReceived, answers,
                 systemId, trainDataSends, tasksSent, published, acks, loopStopped)
    }

    /**
     * The counter of tasks only moves forward through 0..len(test_data), every
     * counted task has a send timestamp and was published once, in order,
     * and every stored answer is its own task id.
     */
    ghost predicate Valid()
      reads this
    {
      && 0 <= nextTaskId <= testDataSize
      && |tasksSent| == nextTaskId
      && (forall k :: 0 <= k < |tasksSent| ==> tasksSent[k] == k)
      && (forall k :: k in timestampsSent <==> 0 <= k < nextTaskId)
      && (forall k :: k in answers ==> answers[k] == k)
      && answers.Keys == timestampsReceived.Keys
    }

    constructor (sessionId: string, experimentUri: string, testDataSize: nat,
                 showFloat: real -> string, sqrt: real -> real)
      ensures Valid()
      ensures this.sessionId == sessionId && this.experimentUri == experimentUri
      ensures this.testDataSize == testDataSize && this.showFloat == showFloat && this.sqrt == sqrt
      ensures Model() == BenchState(0, NoConnection, 0, map[], map[], map[], None, 0, [], [], 0, false)
    {
      this.sessionId := sessionId;
      this.experimentUri := experimentUri;
      this.testDataSize := testDataSize;
      this.showFloat := showFloat;
      this.sqrt := sqrt;
      connectionAttemptCounts := 0;
      connection := NoConnection;
      nextTaskId := 0;
      timestampsSent := map[];
      timestampsReceived := map[];
      answers := map[];
      systemId := None;
      trainDataSends := 0;
      tasksSent := [];
      published := [];
      acks := 0;
      loopStopped := false;
    }

    /** `setup_connection`: one attempt more. */
    method SetupConnection()
      modifies this
      ensures Model() == old(Model()).(attempts := old(connectionAttemptCounts) + 1, connection := Opening)
    {
      connectionAttemptCounts := connectionAttemptCounts + 1;
      connection := Opening;
    }

    /** `on_connected`: the connection is up; the channel is opened next. */
    method OnConnected()
      modifies this
      ensures Model() == old(Model()).(connection := Open)
    {
      connection := Open;
    }

    /** `on_connection_error`: a new attempt below the bound, else only a log line; the counter stays. */
    method OnConnectionError()
      modifies this
      ensures Model() == if old(connectionAttemptCounts) < MAX_CONNECTION_ATTEMPTS
                         then old(Model()).(connection := Opening) else old(Model())
    {
      if connectionAttemptCounts < MAX_CONNECTION_ATTEMPTS {
        connection := Opening;
      }
    }

    /** `send_command`: publishes the envelope unless building it raises. */
    method SendCommand(commandId: int, data: Option<string>)
      modifies this
      ensures Model() == old(Model()).(published := old(published) + Published(EncodeCommand(sessionId, commandId, data)))
    {
      var content := EncodeCommand(sessionId, commandId, data);
      if content.Some? {
        published := published + [content.value];
      }
    }

    /** `declare_queues_step5`: the last setup step announces BENCHMARK_READY. */
    method DeclareQueuesStep5()
      modifies this
      ensures Model() == old(Model()).(published := old(published) + Published(EncodeCommand(sessionId, BENCHMARK_READY, None)))
    {
      SendCommand(BENCHMARK_READY, None);
    }

    /** `evaluate` up to the KPIs: the loop over the test rows. */
    method Evaluate() returns (r: Result<Report, nat>)
      ensures r == Evaluation(testDataSize, answers, timestampsReceived, timestampsSent)
    {
      var runtimes: seq<real> := [];
      var errorCount: nat := 0;
      for i := 0 to testDataSize
        invariant |runtimes| == i
        invariant forall j :: 0 <= j < i ==> Complete(j, answers, timestampsReceived, timestampsSent) &&
                                             runtimes[j] == Runtime(j, timestampsReceived, timestampsSent)
      {
        if i !in answers || i !in timestampsReceived {
          FirstIncompleteIs(0, i, testDataSize, answers, timestampsReceived, timestampsSent);
          return Err(i);   // KeyError
        }
        // the stored values are never None, so the `++error_count` branch is not taken
        if i !in timestampsSent {
          FirstIncompleteIs(0, i, testDataSize, answers, timestampsReceived, timestampsSent);
          return Err(i);   // KeyError
        }
        runtimes := runtimes + [(timestampsReceived[i] - timestampsSent[i]) as real / 1000.0];
      }
      forall i | 0 <= i < testDataSize
        ensures i in timestampsReceived && i in timestampsSent
      {
        assert Complete(i, answers, timestampsReceived, timestampsSent);
      }
      assert runtimes == Runtimes(testDataSize, timestampsReceived, timestampsSent);
      r := Ok(Report(runtimes, errorCount, Average(runtimes), Variance(runtimes), testDataSize));
    }

    /** `send_result`: the document goes out with BENCHMARK_FINISHED. */
    method SendResult(results: seq<BenchmarkResult>)
      modifies this
      ensures Model() == old(Model()).(published := old(published) +
                Published(EncodeCommand(sessionId, BENCHMARK_FINISHED, Some(ResultDocument(results, experimentUri)))))
    {
      var resultModel := BuildResultModel(results, experimentUri);
      SendCommand(BENCHMARK_FINISHED, Some(resultModel));
    }

    /** The state after `run_evaluation` from state `s`. */
    ghost function AfterEvaluation(s: BenchState): BenchState
      reads this
    {
      var e := Evaluation(testDataSize, s.answers, s.timestampsReceived, s.timestampsSent);
      var finished := Published(EncodeCommand(sessionId, TASK_GENERATION_FINISHED, None));
      var result := if e.Ok? then Published(EncodeCommand(sessionId, BENCHMARK_FINISHED,
                                   Some(ResultDocument(KpiResults(e.value, showFloat, sqrt), experimentUri))))
                    else [];
      s.(published := s.published + finished + result, loopStopped := s.loopStopped || e.Ok?)
    }

    /** The state after `send_next_task` at time `now` from state `s`. */
    ghost function AfterNextTask(s: BenchState, now: int): BenchState
      reads this
    {
      if s.nextTaskId < testDataSize
      then s.(nextTaskId := s.nextTaskId + 1,
              timestampsSent := s.timestampsSent[s.nextTaskId := now],
              tasksSent := s.tasksSent + [s.nextTaskId])
      else AfterEvaluation(s)
    }

    /**
     * `run_evaluation`: TASK_GENERATION_FINISHED, then the evaluation; the
     * result is sent and the loop stopped only if evaluating does not raise.
     */
    method RunEvaluation()
      modifies this
      ensures Model() == AfterEvaluation(old(Model()))
    {
      SendCommand(TASK_GENERATION_FINISHED, None);
      var e := Evaluate();
      if e.Ok? {
        SendResult(KpiResults(e.value, showFloat, sqrt));
        loopStopped := true;
      }
    }

    /** `send_task`: publish row `next_task_id`, stamp it, count it. */
    method SendTask(now: int)
      requires Valid() && nextTaskId < testDataSize
      modifies this
      ensures Valid()
      ensures Model() == AfterNextTask(old(Model()), now)
    {
      tasksSent := tasksSent + [nextTaskId];
      timestampsSent := timestampsSent[nextTaskId := now];
      nextTaskId := nextTaskId + 1;
    }

    /**
     * `send_next_task`: the next task while one is left (the counter moves by
     * exactly one), otherwise the evaluation (the counter stays).
     */
    method SendNextTask(now: int)
      requires Valid()
      modifies this
      ensures Valid()
      ensures Model() == AfterNextTask(old(Model()), now)
    {
      if nextTaskId < testDataSize {
        SendTask(now);
      } else {
        RunEvaluation();
      }
    }

    /**
     * `handle_data`: a parsed answer stores its task id as the answer and the
     * receive time; parsed or not, the loop moves on.
     */
    method HandleData(taskId: Option<int>, receivedAt: int, now: int)
      requires Valid()
      modifies this
      ensures Valid()
      ensures Model() == AfterNextTask(
                match taskId
                case Some(id) => old(Model()).(answers := old(answers)[id := id],
                                               timestampsReceived := old(timestampsReceived)[id := receivedAt])
                case None => old(Model()), now)
    {
      if taskId.Some? {
        answers := answers[taskId.value := taskId.value];
        timestampsReceived := timestampsReceived[taskId.value := receivedAt];
      }
      SendNextTask(now);
    }

    /** The dispatch of `handle_command` on a routed command, acknowledged in every case. */
    method Dispatch(action: BenchmarkAction, now: int)
      requires Valid()
      modifies this
      ensures Valid()
      ensures acks == old(acks) + 1
      ensures action.StartBenchmark? ==>
                Model() == old(Model()).(systemId := Some(action.systemId), trainDataSends := old(trainDataSends) + 1,
                                         acks := old(acks) + 1)
      ensures action.LearningFinished? ==> Model() == AfterNextTask(old(Model()), now).(acks := old(acks) + 1)
      ensures !action.StartBenchmark? && !action.LearningFinished? ==> Model() == old(Model()).(acks := old(acks) + 1)
    {
      if action.StartBenchmark? {
        systemId := Some(action.systemId);
        trainDataSends := trainDataSends + 1;
      } else if action.LearningFinished? {
        SendNextTask(now);
      }
      acks := acks + 1;
    }

    /** `handle_command`: filter, dispatch, and acknowledge once in every case. */
    method HandleCommand(body: seq<byte>, now: int)
      requires Valid()
      modifies this
      ensures Valid()
      ensures acks == old(acks) + 1
      ensures match RouteBenchmark(body, sessionId)
              case StartBenchmark(id) =>
                Model() == old(Model()).(systemId := Some(id), trainDataSends := old(trainDataSends) + 1,
                                         acks := old(acks) + 1)
              case LearningFinished => Model() == AfterNextTask(old(Model()), now).(acks := old(acks) + 1)
              case _ => Model() == old(Model()).(acks := old(acks) + 1)
    {
      Dispatch(RouteBenchmark(body, sessionId), now);
    }
  }
}
