/**
 * The Java benchmark controller (BenchmarkController.java): the split of the
 * dataset into training and test rows, the training and task messages, the
 * task loop that skips faulty rows, the handling of answers, the runtime
 * selection and faulty-response count of the evaluation, and the command
 * handler.
 *
 * `java.util.Random` is an oracle `draws(k)`, true when the k-th
 * `nextDouble()` is below 0.9; `Double.parseDouble` is a partial function;
 * clock readings are parameters.
 */
module JavaController {
  import opened Wrappers
  import opened Text

  /** Java's signed byte. */
  type jbyte = x: int | -0x80 <= x < 0x80

  const LEARNING_FINISHED_COMMAND: jbyte := 101

  // ---------------------------------------------------------------- splitting the data

  /** The rows that are not blank after `trim()`, in order. */
  function NonBlankRows(rows: seq<string>): (r: seq<string>)
    ensures |r| <= |rows|
  {
    if rows == [] then []
    else
      var init := NonBlankRows(rows[..|rows| - 1]);
      if IsBlank(rows[|rows| - 1]) then init else init + [rows[|rows| - 1]]
  }

  /** The rows kept are exactly the rows read that are not blank. */
  lemma {:induction false} NonBlankRowsKeeps(rows: seq<string>)
    ensures forall x :: x in NonBlankRows(rows) ==> x in rows && !IsBlank(x)
    ensures forall x :: x in rows && !IsBlank(x) ==> x in NonBlankRows(rows)
  {
    if rows != [] {
      var init := rows[..|rows| - 1];
      NonBlankRowsKeeps(init);
      assert rows == init + [rows[|rows| - 1]];
    }
  }

  /** The rows at the positions whose draw is `side`, in order. */
  function Select(rows: seq<string>, draws: nat -> bool, side: bool): (r: seq<string>)
    ensures |r| <= |rows|
  {
    if rows == [] then []
    else
      var init := Select(rows[..|rows| - 1], draws, side);
      if draws(|rows| - 1) == side then init + [rows[|rows| - 1]] else init
  }

  /** The loop of `loadAndSplitData`: every non-blank row costs one draw and goes to one side. */
  function SplitRows(rows: seq<string>, draws: nat -> bool): (r: (seq<string>, seq<string>))
    ensures |r.0| + |r.1| == |NonBlankRows(rows)|
  {
    if rows == [] then ([], [])
    else
      var split := SplitRows(rows[..|rows| - 1], draws);
      var line := rows[|rows| - 1];
      if IsBlank(line) then split
      else if draws(|split.0| + |split.1|) then (split.0 + [line], split.1)
      else (split.0, split.1 + [line])
  }

  /** One more row: blank ones are dropped, others go where their draw says. */
  lemma SplitRowsSnoc(rows: seq<string>, line: string, draws: nat -> bool)
    ensures var split := SplitRows(rows, draws);
            SplitRows(rows + [line], draws) ==
              if IsBlank(line) then split
              else if draws(|split.0| + |split.1|) then (split.0 + [line], split.1)
              else (split.0, split.1 + [line])
  {
    var longer := rows + [line];
    assert longer != [] && longer[..|longer| - 1] == rows && longer[|longer| - 1] == line;
  }

  /** The sampling loop of `loadAndSplitData` over the rows after the header. */
  method SampleRows(rows: seq<string>, draws: nat -> bool) returns (train: seq<string>, test: seq<string>)
    ensures (train, test) == SplitRows(rows, draws)
  {
    train, test := [], [];
    for i := 0 to |rows|
      invariant (train, test) == SplitRows(rows[..i], draws)
    {
      var line := rows[i];
      assert rows[..i + 1] == rows[..i] + [line];
      SplitRowsSnoc(rows[..i], line, draws);
      if !IsBlank(line) {
        if draws(|train| + |test|) {
          train := train + [line];
        } else {
          test := test + [line];
        }
      }
    }
    assert rows[..|rows|] == rows;
  }

  /** The k-th non-blank row goes to training exactly when draw k says so; order is kept on both sides. */
  lemma {:induction false} SplitRowsSelects(rows: seq<string>, draws: nat -> bool)
    ensures SplitRows(rows, draws) == (Select(NonBlankRows(rows), draws, true), Select(NonBlankRows(rows), draws, false))
  {
    if rows != [] {
      var init := rows[..|rows| - 1];
      SplitRowsSelects(init, draws);
      var nb := NonBlankRows(rows);
      if !IsBlank(rows[|rows| - 1]) {
        assert nb[..|nb| - 1] == NonBlankRows(init);
      }
    }
  }

  /** Selecting both sides loses no row and adds none. */
  lemma {:induction false} SelectPartitions(rows: seq<string>, draws: nat -> bool)
    ensures multiset(Select(rows, draws, true)) + multiset(Select(rows, draws, false)) == multiset(rows)
  {
    if rows != [] {
      var init := rows[..|rows| - 1];
      SelectPartitions(init, draws);
      assert rows == init + [rows[|rows| - 1]];
    }
  }

  /** Each non-blank row after the header ends up in exactly one of the two lists. */
  lemma SplitRowsPartitions(rows: seq<string>, draws: nat -> bool)
    ensures var (train, test) := SplitRows(rows, draws);
            multiset(train) + multiset(test) == multiset(NonBlankRows(rows))
  {
    SplitRowsSelects(rows, draws);
    SelectPartitions(NonBlankRows(rows), draws);
  }

  // ---------------------------------------------------------------- messages

  /** The rows of the training message: `"\n" + i + ";" + row` for each row i. */
  function TrainingRows(rows: seq<string>): string {
    if rows == [] then ""
    else TrainingRows(rows[..|rows| - 1]) + "\n" + Decimal(|rows| - 1) + ";" + rows[|rows| - 1]
  }

  /** The training message: the header twice, joined by `;`, then the numbered rows. */
  function TrainingMessage(header: string, rows: seq<string>): string {
    header + ";" + header + TrainingRows(rows)
  }

  /** A task message for row `id`: the header, the id and the row without its last field. */
  function TaskMessage(header: string, id: nat, row: string): string
    requires ';' in row
  {
    ";" + header + "\n" + Decimal(id) + ";" + row[..LastIndexOf(row, ';')]
  }

  /** The first row from `from` on that has a `;`, or the number of rows. */
  function NextSendable(rows: seq<string>, from: nat): (r: nat)
    ensures from <= |rows| ==> from <= r <= |rows|
    ensures r < |rows| ==> ';' in rows[r]
    ensures forall k :: from <= k < r && k < |rows| ==> ';' !in rows[k]
    decreases |rows| - from
  {
    if from >= |rows| then from
    else if ';' in rows[from] then from
    else NextSendable(rows, from + 1)
  }

  /**
   * The part of `handleSystemAnswer` that decides what is stored: split at
   * `;`, at least two fields, an int id and a double value; anything else is
   * caught and dropped.
   */
  function ParseAnswer(answer: string, parseDouble: string -> Option<real>): (r: Option<(int, real)>)
    ensures r.Some? ==> |JavaSplit(answer, ';')| > 1 &&
                        ParseInt(JavaSplit(answer, ';')[0]) == Some(r.value.0) &&
                        parseDouble(JavaSplit(answer, ';')[1]) == Some(r.value.1)
    ensures r.None? <==> |JavaSplit(answer, ';')| <= 1 || ParseInt(JavaSplit(answer, ';')[0]).None? ||
                         parseDouble(JavaSplit(answer, ';')[1]).None?
  {
    var parts := JavaSplit(answer, ';');
    if |parts| > 1 then
      match ParseInt(parts[0])
      case None => None
      case Some(taskId) =>
        match parseDouble(parts[1])
        case None => None
        case Some(value) => Some((taskId, value))
    else None
  }

  // ---------------------------------------------------------------- evaluation

  /**
   * The runtime stream of `evaluate`: every received key below the number of
   * tasks, with received minus sent; None when a negative key makes the array
   * access throw.
   */
  function Runtimes(received: map<int, int>, sent: seq<int>): (r: Option<map<int, int>>)
    ensures r.None? <==> exists k :: k in received && k < 0
    ensures r.Some? ==> forall k :: k in r.value <==> k in received && k < |sent|
    ensures r.Some? ==> forall k :: k in r.value ==> 0 <= k < |sent| && r.value[k] == received[k] - sent[k]
  {
    if exists k :: k in received && k < 0 then None
    else Some(map k | k in received && k < |sent| :: received[k] - sent[k])
  }

  /** `faultyResponses`: the number of tasks minus the number of answered ids. */
  function FaultyResponses(taskCount: nat, received: map<int, int>): int {
    taskCount - |received.Keys|
  }

  /** Task ids 0..n-1. */
  function Range(n: nat): (r: set<int>)
    ensures forall i :: i in r <==> 0 <= i < n
    ensures |r| == n
  {
    if n == 0 then {} else Range(n - 1) + {n - 1}
  }

  /** While every answered id is a task id, the faulty count is the number of unanswered tasks. */
  lemma FaultyCountsUnanswered(taskCount: nat, received: map<int, int>)
    requires forall k :: k in received ==> 0 <= k < taskCount
    ensures FaultyResponses(taskCount, received) == |Range(taskCount) - received.Keys|
  {
    var keys, tasks := received.Keys, Range(taskCount);
    assert keys <= tasks;
    assert tasks * keys == keys;
    assert |tasks - keys| + |tasks * keys| == |tasks|;
  }

  /** An answer under an id that is no task lowers the count: one task, unanswered, and none faulty. */
  lemma ForeignIdHidesUnansweredTask()
    ensures FaultyResponses(1, map[5 := 1000]) == 0
    ensures 0 !in map[5 := 1000]
  {
    assert map[5 := 1000].Keys == {5};
  }

  /**
   * While every answered id is a task id, the runtime stream throws nothing,
   * has one runtime per answered task, and the answered tasks together with
   * the faulty responses make up all tasks.
   */
  lemma RuntimesCoverAnswered(received: map<int, int>, sent: seq<int>)
    requires forall k :: k in received ==> 0 <= k < |sent|
    ensures Runtimes(received, sent).Some?
    ensures Runtimes(received, sent).value.Keys == received.Keys
    ensures |Runtimes(received, sent).value.Keys| + FaultyResponses(|sent|, received) == |sent|
    ensures FaultyResponses(|sent|, received) == |Range(|sent|) - Runtimes(received, sent).value.Keys|
  {
    var rt := Runtimes(received, sent).value;
    assert rt.Keys == received.Keys;
    FaultyCountsUnanswered(|sent|, received);
  }

  /**
   * An answered id that is no task id (a non-negative one from `sent.length`
   * on) is counted by `timestampsReceived.size()` but has no runtime, so the
   * faulty count falls below the number of unanswered tasks.
   */
  lemma OutOfRangeIdCountedNotTimed(received: map<int, int>, sent: seq<int>, id: int)
    requires forall k :: k in received ==> 0 <= k
    requires id in received && id >= |sent|
    ensures Runtimes(received, sent).Some? && id !in Runtimes(received, sent).value
    ensures FaultyResponses(|sent|, received) < |Range(|sent|) - received.Keys|
  {
    assert id !in Runtimes(received, sent).value;
    FewerFaultyThanUnanswered(received.Keys, |sent|, id);
  }

  lemma FewerFaultyThanUnanswered(keys: set<int>, n: nat, id: int)
    requires id in keys && id >= n
    ensures n - |keys| < |Range(n) - keys|
  {
    var tasks := Range(n);
    var inside, outside := keys * tasks, keys - tasks;
    assert id in outside;
    assert |outside| >= 1;
    assert keys == inside + outside && inside * outside == {};
    assert |keys| == |inside| + |outside|;
    assert |tasks - keys| + |tasks * keys| == |tasks|;
  }

  /** The KPIs `evaluate` puts into the result model, floating point aside. */
  datatype ResultKpis = ResultKpis(runtimes: map<int, int>, testDataSize: nat, faultyResponses: int)

  /** The values of the controller's fields, the array aside. */
  datatype ControllerState = ControllerState(
    dataHeaderLine: string, trainData: seq<string>, testData: seq<string>,
    timestampsReceived: map<int, int>, receivedAnswers: map<int, real>, nextTaskId: int,
    trainingMessages: seq<string>, taskMessages: seq<string>,
    allAnswersReceived: nat, systemFinishedLearning: nat,
    delegated: seq<(jbyte, seq<jbyte>)>, resultModel: Option<ResultKpis>)

  /** A well-formed answer stored under its id with its receive time; anything else stores nothing. */
  function StoreAnswer(s: ControllerState, parsed: Option<(int, real)>, receivedAt: int): (r: ControllerState)
    ensures parsed.None? ==> r == s
    ensures parsed.Some? ==> r.receivedAnswers.Keys == s.receivedAnswers.Keys + {parsed.value.0} &&
                             r.receivedAnswers[parsed.value.0] == parsed.value.1 &&
                             parsed.value.0 in r.timestampsReceived &&
                             r.timestampsReceived[parsed.value.0] == receivedAt
    ensures r.(receivedAnswers := s.receivedAnswers, timestampsReceived := s.timestampsReceived) == s
  {
    match parsed
    case None => s
    case Some((taskId, value)) =>
      s.(receivedAnswers := s.receivedAnswers[taskId := value],
         timestampsReceived := s.timestampsReceived[taskId := receivedAt])
  }

  /**
   * What one `sendNextTask` does to the fields and the send-time slots: the
   * first row with a `;` from the counter on is sent and stamped and the
   * counter moves past it, the rows skipped on the way are passed over; with
   * no such row the counter stops at the end and the all-answers signal is
   * released.
   */
  ghost predicate NextTaskSent(s: ControllerState, sent: seq<int>, r: ControllerState, sentAfter: seq<int>, now: int)
    requires 0 <= s.nextTaskId <= |s.testData| == |sent|
  {
    var j := NextSendable(s.testData, s.nextTaskId);
    if j < |s.testData| then
      r == s.(nextTaskId := j + 1,
              taskMessages := s.taskMessages + [TaskMessage(s.dataHeaderLine, j, s.testData[j])]) &&
      sentAfter == sent[j := now]
    else
      r == s.(nextTaskId := |s.testData|, allAnswersReceived := s.allAnswersReceived + 1) &&
      sentAfter == sent
  }

  /**
   * The task counter only moves forward and stays within the test rows, and
   * every `sendNextTask` either sends exactly one task or releases the
   * all-answers signal once.
   */
  lemma NextTaskAdvances(s: ControllerState, sent: seq<int>, r: ControllerState, sentAfter: seq<int>, now: int)
    requires 0 <= s.nextTaskId <= |s.testData| == |sent|
    requires NextTaskSent(s, sent, r, sentAfter, now)
    ensures s.nextTaskId <= r.nextTaskId <= |r.testData| == |sentAfter|
    ensures r.testData == s.testData && r.timestampsReceived == s.timestampsReceived &&
            r.receivedAnswers == s.receivedAnswers
    ensures (|r.taskMessages| == |s.taskMessages| + 1 && r.nextTaskId > s.nextTaskId &&
             r.allAnswersReceived == s.allAnswersReceived) ||
            (r.taskMessages == s.taskMessages && r.nextTaskId == |s.testData| &&
             r.allAnswersReceived == s.allAnswersReceived + 1)
  {
  }

  class BenchmarkController {
    const parseDouble: string -> Option<real>

    var dataHeaderLine: string
    var trainData: seq<string>
    var testData: seq<string>
    var timestampsSent: array<int>
    var timestampsReceived: map<int, int>
    var receivedAnswers: map<int, real>
    var nextTaskId: int
    /** the messages handed to the training and the test data sender */
    var trainingMessages: seq<string>
    var taskMessages: seq<string>
    /** the permits of `allAnswersReceivedMutex` and `systemFinishedLearningMutex` */
    var allAnswersReceived: nat
    var systemFinishedLearning: nat
    /** the commands passed on to the superclass */
    var delegated: seq<(jbyte, seq<jbyte>)>
    var resultModel: Option<ResultKpis>

    ghost function Model(): ControllerState
      reads this
    {
      ControllerState(dataHeaderLine, trainData, testData, timestampsReceived, receivedAnswers, nextTaskId,
                      trainingMessages, taskMessages, allAnswersReceived, systemFinishedLearning,
                      delegated, resultModel)
    }

    /** The counter of tasks stays within the test rows, and there is one send slot per test row. */
    ghost predicate Valid()
      reads this
    {
      0 <= nextTaskId <= |testData| && timestampsSent.Length == |testData|
    }

    constructor (parseDouble: string -> Option<real>)
      ensures Valid() && this.parseDouble == parseDouble
      ensures Model() == ControllerState("", [], [], map[], map[], 0, [], [], 0, 0, [], None)
    {
      this.parseDouble := parseDouble;
      dataHeaderLine := "";
      trainData := [];
      testData := [];
      timestampsSent := new int[0];
      timestampsReceived := map[];
      receivedAnswers := map[];
      nextTaskId := 0;
      trainingMessages := [];
      taskMessages := [];
      allAnswersReceived := 0;
      systemFinishedLearning := 0;
      delegated := [];
      resultModel := None;
    }

    /**
     * `loadAndSplitData` on the lines of the dataset file: false where
     * `lines.get(0)` throws on an empty file, which changes nothing.
     */
    method LoadAndSplitData(lines: seq<string>, draws: nat -> bool) returns (ok: bool)
      modifies this
      ensures ok <==> lines != []
      ensures !ok ==> Model() == old(Model()) && timestampsSent == old(timestampsSent)
      ensures ok ==> Model() == old(Model()).(dataHeaderLine := lines[0],
                                              trainData := SplitRows(lines[1..], draws).0,
                                              testData := SplitRows(lines[1..], draws).1)
      ensures ok ==> fresh(timestampsSent) && timestampsSent.Length == |testData| &&
                     forall k :: 0 <= k < timestampsSent.Length ==> timestampsSent[k] == 0
      ensures ok && 0 == old(nextTaskId) ==> Valid()
    {
      if |lines| == 0 {
        return false;
      }
      dataHeaderLine := lines[0];
      trainData, testData := SampleRows(lines[1..], draws);
      timestampsSent := new int[|testData|](_ => 0);
      return true;
    }

    /** `sendTrainingData`: the header twice, then one numbered line per training row. */
    method SendTrainingData()
      modifies this
      ensures timestampsSent == old(timestampsSent)
      ensures Model() == old(Model()).(trainingMessages := old(trainingMessages) + [TrainingMessage(dataHeaderLine, trainData)])
    {
      var trainingData := dataHeaderLine;
      trainingData := trainingData + ";";
      trainingData := trainingData + dataHeaderLine;
      for i := 0 to |trainData|
        invariant trainingData == dataHeaderLine + ";" + dataHeaderLine + TrainingRows(trainData[..i])
      {
        assert trainData[..i + 1][..i] == trainData[..i];
        trainingData := trainingData + "\n";
        trainingData := trainingData + Decimal(i);
        trainingData := trainingData + ";";
        trainingData := trainingData + trainData[i];
      }
      assert trainData[..|trainData|] == trainData;
      trainingMessages := trainingMessages + [trainingData];
    }

    /**
     * `sendNextTask`: rows without a `;` are skipped; the first row with one
     * is sent and stamped and the counter moves past it; with no row left the
     * all-answers signal is released.
     */
    method SendNextTask(now: int)
      requires Valid()
      modifies this, timestampsSent
      ensures Valid() && timestampsSent == old(timestampsSent)
      ensures NextTaskSent(old(Model()), old(timestampsSent[..]), Model(), timestampsSent[..], now)
      decreases |testData| - nextTaskId
    {
      if nextTaskId < |testData| {
        var line := testData[nextTaskId];
        var pos := LastIndexOf(line, ';');
        if pos >= 0 {
          var taskData := ";" + dataHeaderLine + "\n" + Decimal(nextTaskId) + ";" + line[..pos];
          assert NextSendable(testData, nextTaskId) == nextTaskId;
          taskMessages := taskMessages + [taskData];
          timestampsSent[nextTaskId] := now;
          nextTaskId := nextTaskId + 1;
        } else {
          assert NextSendable(testData, nextTaskId) == NextSendable(testData, nextTaskId + 1);
          nextTaskId := nextTaskId + 1;
          SendNextTask(now);
        }
      } else {
        allAnswersReceived := allAnswersReceived + 1;
      }
    }

    /** `handleSystemAnswer`: store a well-formed answer with its receive time, then move on. */
    method HandleSystemAnswer(answer: string, receivedAt: int, now: int)
      requires Valid()
      modifies this, timestampsSent
      ensures Valid() && timestampsSent == old(timestampsSent)
      ensures match ParseAnswer(answer, parseDouble)
              case Some((taskId, value)) =>
                receivedAnswers == old(receivedAnswers)[taskId := value] &&
                timestampsReceived == old(timestampsReceived)[taskId := receivedAt]
              case None =>
                receivedAnswers == old(receivedAnswers) && timestampsReceived == old(timestampsReceived)
      ensures NextTaskSent(StoreAnswer(old(Model()), ParseAnswer(answer, parseDouble), receivedAt),
                           old(timestampsSent[..]), Model(), timestampsSent[..], now)
    {
      var parsed := ParseAnswer(answer, parseDouble);
      if parsed.Some? {
        var (taskId, value) := parsed.value;
        receivedAnswers := receivedAnswers[taskId := value];
        timestampsReceived := timestampsReceived[taskId := receivedAt];
      }
      SendNextTask(now);
    }

    /** The runtime and faulty-response part of `evaluate`; false where the stream throws. */
    method Evaluate() returns (ok: bool)
      requires Valid()
      modifies this
      ensures Valid() && timestampsSent == old(timestampsSent)
      ensures var rt := Runtimes(timestampsReceived, timestampsSent[..]);
              ok == rt.Some? &&
              Model() == old(Model()).(resultModel :=
                if rt.Some? then Some(ResultKpis(rt.value, |testData|, FaultyResponses(timestampsSent.Length, timestampsReceived)))
                else old(resultModel))
    {
      var rt := Runtimes(timestampsReceived, timestampsSent[..]);
      if rt.None? {
        return false;
      }
      resultModel := Some(ResultKpis(rt.value, |testData|, FaultyResponses(timestampsSent.Length, timestampsReceived)));
      return true;
    }

    /** `receiveCommand`: 101 releases the learning signal, everything else goes to the superclass. */
    method ReceiveCommand(command: jbyte, data: seq<jbyte>)
      modifies this
      ensures timestampsSent == old(timestampsSent)
      ensures command == LEARNING_FINISHED_COMMAND ==>
                Model() == old(Model()).(systemFinishedLearning := old(systemFinishedLearning) + 1)
      ensures command != LEARNING_FINISHED_COMMAND ==>
                Model() == old(Model()).(delegated := old(delegated) + [(command, data)])
    {
      if command == LEARNING_FINISHED_COMMAND {
        systemFinishedLearning := systemFinishedLearning + 1;
      } else {
        delegated := delegated + [(command, data)];
      }
    }
  }
}
