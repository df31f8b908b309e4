# Benchmark and baseline-system protocol of the HOBBIT winter-school examples

This project models the core of two HOBBIT example pairs in Dafny. Each pair is a benchmark controller and a baseline system that talk to each other over RabbitMQ:

- **SAIL winter school 2024 (Python)**:
  - `benchmark.py` splits a wine-quality dataset, sends the training data and then one task at a time, evaluates the answers and publishes a JSON-LD result model.
  - `system.py` is the baseline system. It sets up four communication channels behind a barrier, announces that it is ready, and waits for the termination command.
- **AI winter school 2024 (Java)**:
  - `BenchmarkController` splits the dataset with a seeded RNG, sends the training message, then sends tasks one at a time, collects the answers and computes the result KPIs.
  - `BaselineSystem` learns the mean of the training targets, extracts each task message's id and answers with the learned value.

The modules are:

- `Bytes`: bytes, the 4-byte big-endian length prefix, and strict UTF-8 encoding and decoding with both round trips.
- `Text`: Java-style `indexOf`, `lastIndexOf`, `split` (trailing empty pieces dropped), `trim().isEmpty()`, decimal printing and `Integer.parseInt` with 32-bit bounds.
- `Reals`: sums of real numbers.
- `Envelope`: the command envelope shared by both Python programs. It is a 4-byte length, then the UTF-8 session id, then one command byte, then an optional payload. The module has the encoders, the header parser, and the routers of `handle_command` in both programs.
- `PySystem`: the setup and termination state machine of `system.py`. It is a pure `Step` function over events, plus a class `BaselineSystem` whose methods are proved to perform exactly `Step` on the class state.
- `PyBenchmark`: the loop that sends tasks, evaluation, KPIs and result document of `benchmark.py`. The class `SailBenchmark` holds the timestamp and answer dictionaries and keeps their invariant.
- `JavaController`: `BenchmarkController`, including the dataset split, the training and task messages, answer parsing, runtime selection and the faulty-response count.
- `JavaSystem`: `BaselineSystem`, including task-id extraction, the answer format and the learned mean.
- `TaskProtocol`: round trips across the two Java files. A task message built by the controller yields its id in the system. The system's answer parses back to that id and value in the controller. The training message splits back into lines whose values are the training rows' targets: the text after a row's last `;`, or the whole row when it has no `;`.

Behaviour kept exactly as written, each stated as a lemma or a contract:

- The Python length prefix counts characters, not bytes, so a non-ASCII session id never matches (`Envelope.NonAsciiSessionNeverMatches`).
- A missing command byte reads as 0 (`Envelope.MissingCommandIsZero`).
- `++error_count` in `evaluate` is a no-op. A missing answer raises `KeyError` instead, so the reported `faultyResponses` is always 0 and any unanswered task stops the evaluation (`PyBenchmark.Evaluation`, `PyBenchmark.UnansweredTaskIsNeverCounted`).
- `handle_data` stores each answer's id itself as the answer (`PyBenchmark.SailBenchmark.Valid`).
- The retry callbacks in both Python programs never increment the attempt counter. The counter stays at 1, so the terminal branch after five attempts is never reached (`PySystem.RetriesNeverExhausted`). The intended behaviour is at most five connection attempts, but the code retries without bound.
- The Java training message starts with the header line twice (`JavaController.TrainingMessage`, `TaskProtocol.TrainingRoundTrip`).
- A training row without `;` is learned whole: once numbered, the `;` after its id is the last one on the line, so row `5` contributes 5.0 although the row alone would contribute nothing (`TaskProtocol.NumberedLineValue`).
- A Java task with no task id is answered as `null;…`, and the controller drops that answer (`TaskProtocol.NullIdAnswerDropped`).
- The Java `faultyResponses` is `timestampsSent.length - timestampsReceived.size()`. An answer with a foreign id can hide an unanswered task (`JavaController.ForeignIdHidesUnansweredTask`). A negative id makes `evaluate` throw (`JavaController.Runtimes`).

## Model

| member | source | states |
|---|---|---|
| Bytes.BigEndian32 | SAIL-winter-school-2024/python/benchmark/benchmark.py:228 | `to_bytes(4, 'big')` of a value below 2^32 is exactly four bytes |
| Bytes.FromBigEndian32 | SAIL-winter-school-2024/python/benchmark/benchmark.py:315 | `int.from_bytes` of four bytes is below 2^32 |
| Bytes.BigEndian32RoundTrip | SAIL-winter-school-2024/python/benchmark/benchmark.py:315 | reading back the 4-byte prefix gives the encoded length |
| Bytes.FromBigEndian32RoundTrip | SAIL-winter-school-2024/python/benchmark/benchmark.py:228 | re-encoding the read length gives the same four bytes |
| Bytes.EncodeChar | SAIL-winter-school-2024/python/benchmark/benchmark.py:229 | one character takes 1 to 4 UTF-8 bytes, and 1 exactly when it is ASCII |
| Bytes.Encode | SAIL-winter-school-2024/python/benchmark/benchmark.py:229 | the UTF-8 encoding is at least as long as the string, and equally long iff the string is ASCII |
| Bytes.DecodeChar | SAIL-winter-school-2024/python/benchmark/benchmark.py:323 | a successful strict decode consumes between 1 and 4 of the available bytes |
| Bytes.Decode | SAIL-winter-school-2024/python/benchmark/benchmark.py:323 | a decoded string has at most as many characters as there were bytes |
| Bytes.DecodeEncodeChar | SAIL-winter-school-2024/python/benchmark/benchmark.py:323 | decoding an encoded character, with anything after it, gives the character and its length |
| Bytes.EncodeDecodeChar | SAIL-winter-school-2024/python/benchmark/benchmark.py:323 | a successfully decoded character re-encodes to the very bytes consumed |
| Bytes.DecodeEncode | SAIL-winter-school-2024/python/benchmark/benchmark.py:323 | `decode("utf-8")` inverts `encode('utf-8')` on every string |
| Bytes.EncodeDecode | SAIL-winter-school-2024/python/benchmark/benchmark.py:323 | every byte string that decodes re-encodes to itself |
| Bytes.EncodeAppend | SAIL-winter-school-2024/python/benchmark/benchmark.py:229-232 | encoding distributes over concatenation, so the payload can be encoded piecewise |
| Text.IndexOf | AI-winter-school-2024/java/baseline-system/src/main/java/org/dice_research/hobbit/example/aiws24/BaselineSystem.java:97-100 | `indexOf(c, from)` is -1 iff `c` is absent from `from` on, else the first position of `c` at or after `from` |
| Text.LastIndexOf | AI-winter-school-2024/java/benchmark/src/main/java/org/dice_research/hobbit/example/aiws24/BenchmarkController.java:166 | `lastIndexOf` is -1 iff `c` is absent, else a position of `c` with no `c` after it |
| Text.SplitAll | AI-winter-school-2024/java/benchmark/src/main/java/org/dice_research/hobbit/example/aiws24/BenchmarkController.java:197 | splitting gives at least one piece, and no piece contains the separator |
| Text.DropTrailingEmpty | AI-winter-school-2024/java/benchmark/src/main/java/org/dice_research/hobbit/example/aiws24/BenchmarkController.java:197 | removing trailing empty pieces leaves a prefix that is empty or ends in a non-empty piece |
| Text.JavaSplit | AI-winter-school-2024/java/benchmark/src/main/java/org/dice_research/hobbit/example/aiws24/BenchmarkController.java:197 | `String.split` pieces never contain the separator, and a string without it splits into itself |
| Text.SplitAllJoin | AI-winter-school-2024/java/benchmark/src/main/java/org/dice_research/hobbit/example/aiws24/BenchmarkController.java:197 | splitting a join of separator-free pieces gives the pieces back |
| Text.JavaSplitJoin | AI-winter-school-2024/java/benchmark/src/main/java/org/dice_research/hobbit/example/aiws24/BenchmarkController.java:197 | `split` inverts joining two or more separator-free pieces whose last piece is non-empty |
| Text.Join | AI-winter-school-2024/java/baseline-system/src/main/java/org/dice_research/hobbit/example/aiws24/BaselineSystem.java:26 | joining pieces with a separator is what `split` takes apart: `SplitAllJoin` and `JavaSplitJoin` give the pieces back |
| Text.IsBlank | AI-winter-school-2024/java/benchmark/src/main/java/org/dice_research/hobbit/example/aiws24/BenchmarkController.java:128 | `trim().isEmpty()`: every character is at most U+0020; `NonBlankRowsKeeps` proves `NonBlankRows` keeps exactly the other lines |
| Text.DigitChar | AI-winter-school-2024/java/benchmark/src/main/java/org/dice_research/hobbit/example/aiws24/BenchmarkController.java:162 | a digit value prints as a digit character |
| Text.DigitValue | AI-winter-school-2024/java/benchmark/src/main/java/org/dice_research/hobbit/example/aiws24/BenchmarkController.java:200 | a digit character's value is below 10 and prints back as that character |
| Text.Decimal | AI-winter-school-2024/java/benchmark/src/main/java/org/dice_research/hobbit/example/aiws24/BenchmarkController.java:162 | `StringBuilder.append(int)` of a non-negative number is a non-empty string of digits |
| Text.DigitsValueDecimal | AI-winter-school-2024/java/benchmark/src/main/java/org/dice_research/hobbit/example/aiws24/BenchmarkController.java:162 | the digits printed for `n` have value `n` |
| Text.ParseInt | AI-winter-school-2024/java/benchmark/src/main/java/org/dice_research/hobbit/example/aiws24/BenchmarkController.java:200 | `Integer.parseInt` succeeds only on a non-empty string and only with a value in the 32-bit range |
| Text.ParseIntDecimal | AI-winter-school-2024/java/benchmark/src/main/java/org/dice_research/hobbit/example/aiws24/BenchmarkController.java:200 | `parseInt` reads back a printed non-negative id up to `Integer.MAX_VALUE` |
| Envelope.EncodeCommand | SAIL-winter-school-2024/python/benchmark/benchmark.py:226-238 | the envelope is built iff the session length fits 4 bytes and the command fits `bytes([c])`; it is longer than prefix plus id |
| Envelope.EncodeSystemCommand | SAIL-winter-school-2024/python/baseline-system/system.py:283-296 | the same condition for the system's `send_command`, which appends only non-empty data |
| Envelope.ParseHeader | SAIL-winter-school-2024/python/benchmark/benchmark.py:310-328 | too short iff under 4 bytes; an overrun iff the declared length passes the end; a parsed header leaves a shorter rest |
| Envelope.RouteBenchmark | SAIL-winter-school-2024/python/benchmark/benchmark.py:307-342 | messages that are short or overrun are dropped; only the own session is dispatched; LEARNING_FINISHED is routed iff the own session sent command 101 |
| Envelope.RouteSystem | SAIL-winter-school-2024/python/baseline-system/system.py:200-230 | termination is requested iff the own session sent command 15; other commands only come from the own session; short messages are ignored |
| Envelope.EncodersAgree | SAIL-winter-school-2024/python/baseline-system/system.py:289-290 | both encoders give the same bytes, because an empty payload adds nothing |
| Envelope.EncodeExample | SAIL-winter-school-2024/python/benchmark/benchmark.py:228-232 | session `s1` with command 15 is `00 00 00 02 73 31 0F`, and it parses back |
| Envelope.HeaderRoundTrip | SAIL-winter-school-2024/python/benchmark/benchmark.py:315-328 | parsing an envelope with an ASCII session id gives back the id, the command and the payload bytes |
| Envelope.NonAsciiSessionNeverMatches | SAIL-winter-school-2024/python/benchmark/benchmark.py:228-229 | with a character-count prefix, a non-ASCII session id is never parsed back as itself |
| Envelope.MissingCommandIsZero | SAIL-winter-school-2024/python/benchmark/benchmark.py:328 | a message that ends after the session id is command 0 in both routers |
| Envelope.StartBenchmarkRoundTrip | SAIL-winter-school-2024/python/benchmark/benchmark.py:329-333 | START_BENCHMARK with a system id, encoded by the benchmark, routes to that system id |
| Envelope.LearningFinishedRoundTrip | SAIL-winter-school-2024/python/benchmark/benchmark.py:334-336 | LEARNING_FINISHED sent by the system is routed as such by the benchmark |
| Envelope.TerminationRoundTrip | SAIL-winter-school-2024/python/baseline-system/system.py:220-224 | TASK_GENERATION_FINISHED sent by the benchmark requests termination in the system |
| Envelope.ForeignSessionIgnored | SAIL-winter-school-2024/python/benchmark/benchmark.py:323-326 | another session's command is never dispatched by either program |
| PySystem.Repeat | SAIL-winter-school-2024/python/baseline-system/system.py:141-144 | n releases in a row are n copies of the release |
| PySystem.ReadyMessages | SAIL-winter-school-2024/python/baseline-system/system.py:283-296 | `send_command(SYSTEM_READY)` publishes at most one message, and one exactly when the session length fits the 4-byte prefix |
| PySystem.Enabled | SAIL-winter-school-2024/python/baseline-system/system.py:119-327 | which callback can run: each of the four `declare_*` completions at most once and only on an open connection, an acquire only with a permit, a timeout only without one, a command only once the command queue is consumed |
| PySystem.Inv | SAIL-winter-school-2024/python/baseline-system/system.py:307-327 | the reachable-state invariant that `StepPreservesInv` proves: permits left plus taken equal the releases, releases are distinct channel completions, the counter is 0 before `run` and 1 after, SYSTEM_READY is published exactly after the barrier, termination permits match the own requests |
| PySystem.Step | SAIL-winter-school-2024/python/baseline-system/system.py:119-327 | a disabled event changes nothing; a channel that already released cannot release again; attempts move only on `run`; each command is acked once; termination is released once per own request; each channel completion releases the barrier once; a terminal failure releases it four times and drops the connection; a retry changes nothing; SYSTEM_READY goes out only on the fourth acquire with a connection; a timeout crashes |
| PySystem.StepPreservesInv | SAIL-winter-school-2024/python/baseline-system/system.py:313-319 | every event keeps the reachable-state invariant: permits left plus permits taken equal the releases, the attempt counter is 0 before `run` and 1 after, every release comes from a channel, the ready message is published once the barrier is passed, and termination permits match the own termination requests |
| PySystem.ReplayPreservesInv | SAIL-winter-school-2024/python/baseline-system/system.py:307-327 | the accounting holds after any sequence of events |
| PySystem.ReadyOnlyAfterBarrier | SAIL-winter-school-2024/python/baseline-system/system.py:232-323 | once anything is published, four permits were acquired, exactly four releases happened, every one of the four channels reported ready, and the connection is open |
| PySystem.AllChannelsReleased | SAIL-winter-school-2024/python/baseline-system/system.py:232-263 | four distinct channel completions are the completions of all four channels |
| PySystem.ReleasesAtMostFour | SAIL-winter-school-2024/python/baseline-system/system.py:232-263 | distinct channel completions number at most four |
| PySystem.RetriesNeverExhausted | SAIL-winter-school-2024/python/baseline-system/system.py:126-147 | from the start, the attempt counter never exceeds 1, the four-fold release never happens, and every connection error is a silent retry |
| PySystem.ExitOnlyAfterTermination | SAIL-winter-school-2024/python/baseline-system/system.py:326-327 | the system exits only after at least one own TASK_GENERATION_FINISHED |
| PySystem.AcquiresAfterLostConnection | SAIL-winter-school-2024/python/baseline-system/system.py:313-319 | with the connection gone and enough permits, the remaining acquires end in a crash that publishes nothing |
| PySystem.TerminalFailurePassesBarrierAndCrashes | SAIL-winter-school-2024/python/baseline-system/system.py:137-144 | a terminal connection error adds four permits, so the barrier completes and then crashes without a ready signal |
| PySystem.BaselineSystem.constructor | SAIL-winter-school-2024/python/baseline-system/system.py:30-51 | a new system is in the initial state for its session |
| PySystem.BaselineSystem.SendCommand | SAIL-winter-school-2024/python/baseline-system/system.py:283-296 | publishes the system envelope, or nothing when building it raises, and changes nothing else |
| PySystem.BaselineSystem.Run | SAIL-winter-school-2024/python/baseline-system/system.py:146-153 | `setup_connection` performs exactly the `Run` step |
| PySystem.BaselineSystem.OnConnected | SAIL-winter-school-2024/python/baseline-system/system.py:119-124 | performs exactly the `Connected` step |
| PySystem.BaselineSystem.OnConnectionError | SAIL-winter-school-2024/python/baseline-system/system.py:126-144 | performs exactly the `ConnectionError` step |
| PySystem.BaselineSystem.ChannelSetUp | SAIL-winter-school-2024/python/baseline-system/system.py:232-263 | each channel's completion performs exactly its `ChannelSetUp` step |
| PySystem.BaselineSystem.Acquire | SAIL-winter-school-2024/python/baseline-system/system.py:313-323 | one successful acquire, and on the last one the connection check and ready signal, are exactly the `Acquire` step |
| PySystem.BaselineSystem.AcquireTimeout | SAIL-winter-school-2024/python/baseline-system/system.py:315-316 | a 120 s timeout is exactly the `AcquireTimeout` step |
| PySystem.BaselineSystem.HandleCommand | SAIL-winter-school-2024/python/baseline-system/system.py:200-230 | `handle_command` performs exactly the `Command` step |
| PySystem.BaselineSystem.Terminate | SAIL-winter-school-2024/python/baseline-system/system.py:326-327 | the termination acquire performs exactly the `Terminate` step |
| PyBenchmark.SquaredDeviations | SAIL-winter-school-2024/python/benchmark/benchmark.py:161 | one squared deviation per runtime |
| PyBenchmark.Average | SAIL-winter-school-2024/python/benchmark/benchmark.py:156-160 | NaN iff there are no runtimes; otherwise the average times the count is the sum |
| PyBenchmark.Variance | SAIL-winter-school-2024/python/benchmark/benchmark.py:157-161 | NaN iff there are no runtimes |
| PyBenchmark.VarianceNonNegative | SAIL-winter-school-2024/python/benchmark/benchmark.py:159-161 | the mean squared deviation is never negative, so the `math.sqrt` it is passed to never raises |
| PyBenchmark.AggregationExample | SAIL-winter-school-2024/python/benchmark/benchmark.py:159-161 | runtimes 100, 200 and 300 give an average of 200 and a variance of 20000/3 |
| PyBenchmark.Complete | SAIL-winter-school-2024/python/benchmark/benchmark.py:139-147 | task i can be evaluated iff the three dictionary reads `answers[i]`, `timestamps_received[i]`, `timestamps_sent[i]` do not raise; `FirstIncomplete` and `Evaluation` are stated over it |
| PyBenchmark.Runtime | SAIL-winter-school-2024/python/benchmark/benchmark.py:147 | the runtime of one task, received minus sent over 1000; `Runtimes` and the `Evaluate` loop are proved to produce it for every task |
| PyBenchmark.FirstIncomplete | SAIL-winter-school-2024/python/benchmark/benchmark.py:139-142 | none iff every task in range is complete; otherwise the smallest incomplete task |
| PyBenchmark.FirstIncompleteIs | SAIL-winter-school-2024/python/benchmark/benchmark.py:139-142 | the first incomplete task is the one that all earlier tasks precede completed |
| PyBenchmark.Runtimes | SAIL-winter-school-2024/python/benchmark/benchmark.py:147 | one runtime per task, each `(received - sent) / 1000` |
| PyBenchmark.Evaluation | SAIL-winter-school-2024/python/benchmark/benchmark.py:132-170 | succeeds iff every task has an answer and both timestamps; a failure names an incomplete task; success has one runtime per task, error count 0 and the test size |
| PyBenchmark.UnansweredTaskIsNeverCounted | SAIL-winter-school-2024/python/benchmark/benchmark.py:139-149 | one unanswered task makes the whole evaluation raise instead of being counted |
| PyBenchmark.KpiResults | SAIL-winter-school-2024/python/benchmark/benchmark.py:162-170 | four KPIs, each with a data type |
| PyBenchmark.FloatText | SAIL-winter-school-2024/python/benchmark/benchmark.py:156-196 | a KPI value left at `float('nan')` renders as `nan`, a finite one through the abstract `str` |
| PyBenchmark.ContextEntry | SAIL-winter-school-2024/python/benchmark/benchmark.py:188-191 | the `@context` entry of KPI i, with `@type` only when a data type is given; `AppendContextEntries` is proved to append these in list order |
| PyBenchmark.ValueEntry | SAIL-winter-school-2024/python/benchmark/benchmark.py:196 | the value entry `"kpi{i}": "value"`; `AppendValueEntries` is proved to append these in list order |
| PyBenchmark.ResultDocument | SAIL-winter-school-2024/python/benchmark/benchmark.py:185-197 | the context head, the context entries, the experiment, the value entries and the closing brace; `BuildResultModel` is proved to build exactly this |
| PyBenchmark.EntriesAppend | SAIL-winter-school-2024/python/benchmark/benchmark.py:187-196 | for either kind of entry, the entries of two concatenated KPI lists are the entries of the first followed by those of the second, numbered on |
| PyBenchmark.EntriesSnoc | SAIL-winter-school-2024/python/benchmark/benchmark.py:187-196 | one more loop iteration appends exactly entry `kpi{i}` |
| PyBenchmark.AppendContextEntries | SAIL-winter-school-2024/python/benchmark/benchmark.py:187-191 | the first loop of `send_result` appends the context entries of all results |
| PyBenchmark.AppendValueEntries | SAIL-winter-school-2024/python/benchmark/benchmark.py:195-196 | the second loop appends the value entries of all results |
| PyBenchmark.BuildResultModel | SAIL-winter-school-2024/python/benchmark/benchmark.py:180-197 | the string built is the result document defined from the results and the experiment URI |
| PyBenchmark.SailBenchmark.constructor | SAIL-winter-school-2024/python/benchmark/benchmark.py:73-82 | no attempts, no connection, no task, empty dictionaries |
| PyBenchmark.SailBenchmark.SetupConnection | SAIL-winter-school-2024/python/benchmark/benchmark.py:275-281 | one more attempt, and a connection is being opened |
| PyBenchmark.SailBenchmark.OnConnected | SAIL-winter-school-2024/python/benchmark/benchmark.py:251-256 | the connection is open, and nothing else changes |
| PyBenchmark.SailBenchmark.OnConnectionError | SAIL-winter-school-2024/python/benchmark/benchmark.py:258-271 | below the bound a new connection is opened and the counter stays the same; otherwise nothing changes |
| PyBenchmark.SailBenchmark.SendCommand | SAIL-winter-school-2024/python/benchmark/benchmark.py:218-238 | publishes the envelope, or nothing when building it raises |
| PyBenchmark.SailBenchmark.DeclareQueuesStep5 | SAIL-winter-school-2024/python/benchmark/benchmark.py:388-391 | the last setup step publishes BENCHMARK_READY (or nothing when building it raises) and changes nothing else |
| PyBenchmark.SailBenchmark.Evaluate | SAIL-winter-school-2024/python/benchmark/benchmark.py:132-149 | the loop computes `Evaluation` of the current dictionaries |
| PyBenchmark.SailBenchmark.SendResult | SAIL-winter-school-2024/python/benchmark/benchmark.py:180-200 | publishes BENCHMARK_FINISHED carrying the result document |
| PyBenchmark.SailBenchmark.RunEvaluation | SAIL-winter-school-2024/python/benchmark/benchmark.py:113-118 | sends TASK_GENERATION_FINISHED; only a successful evaluation sends the result and stops the loop |
| PyBenchmark.SailBenchmark.SendTask | SAIL-winter-school-2024/python/benchmark/benchmark.py:120-130 | the next task is published and stamped, the counter moves by one, and the invariant holds |
| PyBenchmark.SailBenchmark.SendNextTask | SAIL-winter-school-2024/python/benchmark/benchmark.py:205-216 | the next task while one is left, otherwise the evaluation, with the invariant kept |
| PyBenchmark.SailBenchmark.HandleData | SAIL-winter-school-2024/python/benchmark/benchmark.py:362-378 | a parsed id is stored as its own answer with its receive time, then the loop moves on |
| PyBenchmark.SailBenchmark.Dispatch | SAIL-winter-school-2024/python/benchmark/benchmark.py:329-342 | the dispatch on a routed command: START_BENCHMARK records the system id and counts one training send, LEARNING_FINISHED performs `send_next_task`, anything else changes nothing, and every case acks once |
| PyBenchmark.SailBenchmark.HandleCommand | SAIL-winter-school-2024/python/benchmark/benchmark.py:307-342 | every message is acked once; START_BENCHMARK records the system id and sends the training data; LEARNING_FINISHED sends the next task; everything else changes nothing |
| JavaController.NonBlankRows | AI-winter-school-2024/java/benchmark/src/main/java/org/dice_research/hobbit/example/aiws24/BenchmarkController.java:128 | the rows kept are at most the rows read |
| JavaController.NonBlankRowsKeeps | AI-winter-school-2024/java/benchmark/src/main/java/org/dice_research/hobbit/example/aiws24/BenchmarkController.java:126-128 | a row is kept iff it is one of the rows read and is not blank after `trim()` |
| JavaController.Select | AI-winter-school-2024/java/benchmark/src/main/java/org/dice_research/hobbit/example/aiws24/BenchmarkController.java:129-133 | the rows whose draw picks one side, in order, never more than the rows; `SplitRowsSelects` and `SelectPartitions` state what they are |
| JavaController.SplitRows | AI-winter-school-2024/java/benchmark/src/main/java/org/dice_research/hobbit/example/aiws24/BenchmarkController.java:126-135 | train plus test rows are as many as the non-blank rows |
| JavaController.SplitRowsSnoc | AI-winter-school-2024/java/benchmark/src/main/java/org/dice_research/hobbit/example/aiws24/BenchmarkController.java:126-135 | one more non-blank line goes to the side its draw selects; a blank line does not consume a draw |
| JavaController.SampleRows | AI-winter-school-2024/java/benchmark/src/main/java/org/dice_research/hobbit/example/aiws24/BenchmarkController.java:122-135 | the loop computes `SplitRows` |
| JavaController.SplitRowsSelects | AI-winter-school-2024/java/benchmark/src/main/java/org/dice_research/hobbit/example/aiws24/BenchmarkController.java:129-133 | draw i sends the i-th non-blank row to training when it is true, and to test otherwise |
| JavaController.SelectPartitions | AI-winter-school-2024/java/benchmark/src/main/java/org/dice_research/hobbit/example/aiws24/BenchmarkController.java:129-133 | the two selections together are a permutation of the rows |
| JavaController.SplitRowsPartitions | AI-winter-school-2024/java/benchmark/src/main/java/org/dice_research/hobbit/example/aiws24/BenchmarkController.java:126-135 | every non-blank row goes to exactly one of the two lists |
| JavaController.TrainingMessage | AI-winter-school-2024/java/benchmark/src/main/java/org/dice_research/hobbit/example/aiws24/BenchmarkController.java:139-152 | the header twice joined by `;`, then `\n i;row` per training row; `TrainingMessageJoin` and `TrainingRoundTrip` prove what the system splits it into |
| JavaController.TaskMessage | AI-winter-school-2024/java/benchmark/src/main/java/org/dice_research/hobbit/example/aiws24/BenchmarkController.java:158-173 | `;header\n id;` then the row up to its last `;`; `TaskRoundTrip` proves the system extracts the id and that row prefix |
| JavaController.NextSendable | AI-winter-school-2024/java/benchmark/src/main/java/org/dice_research/hobbit/example/aiws24/BenchmarkController.java:155-184 | the first row from the counter on that contains `;`, skipping faulty rows |
| JavaController.ParseAnswer | AI-winter-school-2024/java/benchmark/src/main/java/org/dice_research/hobbit/example/aiws24/BenchmarkController.java:195-208 | an answer is stored iff it splits into two or more fields, the first parses as an int and the second as a double |
| JavaController.Runtimes | AI-winter-school-2024/java/benchmark/src/main/java/org/dice_research/hobbit/example/aiws24/BenchmarkController.java:246-254 | the stream throws iff a received id is negative; otherwise it keeps exactly the ids below the number of tasks, each with received minus sent; `RuntimesCoverAnswered` and `OutOfRangeIdCountedNotTimed` tie it to the answered tasks and the faulty count |
| JavaController.FaultyResponses | AI-winter-school-2024/java/benchmark/src/main/java/org/dice_research/hobbit/example/aiws24/BenchmarkController.java:259-260 | `timestampsSent.length - timestampsReceived.size()`; `FaultyCountsUnanswered` and `FewerFaultyThanUnanswered` state when it is and is not the number of unanswered tasks |
| JavaController.RuntimesCoverAnswered | AI-winter-school-2024/java/benchmark/src/main/java/org/dice_research/hobbit/example/aiws24/BenchmarkController.java:246-260 | while every answered id is a task id: the stream throws nothing, there is one runtime per answered task, runtimes plus faulty responses are all tasks, and the faulty count is the number of tasks without a runtime |
| JavaController.OutOfRangeIdCountedNotTimed | AI-winter-school-2024/java/benchmark/src/main/java/org/dice_research/hobbit/example/aiws24/BenchmarkController.java:246-260 | an answered id from `timestampsSent.length` on has no runtime, yet is counted as answered, so fewer responses are faulty than tasks are unanswered |
| JavaController.FewerFaultyThanUnanswered | AI-winter-school-2024/java/benchmark/src/main/java/org/dice_research/hobbit/example/aiws24/BenchmarkController.java:259-260 | with an answered id outside the task ids, `n - size()` is below the number of unanswered tasks |
| JavaController.Range | AI-winter-school-2024/java/benchmark/src/main/java/org/dice_research/hobbit/example/aiws24/BenchmarkController.java:259-260 | exactly the ids 0..n-1 of n tasks |
| JavaController.FaultyCountsUnanswered | AI-winter-school-2024/java/benchmark/src/main/java/org/dice_research/hobbit/example/aiws24/BenchmarkController.java:259-260 | when every received id is a task id, `faultyResponses` is the number of unanswered tasks |
| JavaController.ForeignIdHidesUnansweredTask | AI-winter-school-2024/java/benchmark/src/main/java/org/dice_research/hobbit/example/aiws24/BenchmarkController.java:259-260 | one task and one answer for id 5 report 0 faulty responses, though task 0 is unanswered |
| JavaController.StoreAnswer | AI-winter-school-2024/java/benchmark/src/main/java/org/dice_research/hobbit/example/aiws24/BenchmarkController.java:197-208 | a parsed answer adds its id to both maps with its value and receive time; an unparsed one leaves the state as it was; no other field changes |
| JavaController.NextTaskSent | AI-winter-school-2024/java/benchmark/src/main/java/org/dice_research/hobbit/example/aiws24/BenchmarkController.java:155-188 | one `sendNextTask`: the first row with `;` from the counter on is sent and stamped and the counter moves past it (skipped rows included); with none left the counter stops at the end and the all-answers signal is released; nothing else changes |
| JavaController.NextTaskAdvances | AI-winter-school-2024/java/benchmark/src/main/java/org/dice_research/hobbit/example/aiws24/BenchmarkController.java:155-188 | the task counter never decreases and never passes the number of test rows, the answer maps stay, and each call either sends exactly one task or releases the all-answers signal once |
| JavaController.BenchmarkController.constructor | AI-winter-school-2024/java/benchmark/src/main/java/org/dice_research/hobbit/example/aiws24/BenchmarkController.java:42-59 | empty data, no answers, counter 0, no permits |
| JavaController.BenchmarkController.LoadAndSplitData | AI-winter-school-2024/java/benchmark/src/main/java/org/dice_research/hobbit/example/aiws24/BenchmarkController.java:118-137 | fails iff the file has no lines; otherwise sets the header and the two splits, and gives one zeroed send slot per test row |
| JavaController.BenchmarkController.SendTrainingData | AI-winter-school-2024/java/benchmark/src/main/java/org/dice_research/hobbit/example/aiws24/BenchmarkController.java:139-153 | sends exactly the training message of the header and the training rows; no other field and not the send-slot array changes |
| JavaController.BenchmarkController.SendNextTask | AI-winter-school-2024/java/benchmark/src/main/java/org/dice_research/hobbit/example/aiws24/BenchmarkController.java:155-189 | performs exactly `NextTaskSent` on the fields and the send slots, keeping the counter within the test rows |
| JavaController.BenchmarkController.HandleSystemAnswer | AI-winter-school-2024/java/benchmark/src/main/java/org/dice_research/hobbit/example/aiws24/BenchmarkController.java:191-217 | a parsed answer records its value and receive time under its id, a malformed one stores nothing, and then exactly `NextTaskSent` follows: the next task goes out and is stamped, or the all-answers signal is released; every other field stays |
| JavaController.BenchmarkController.Evaluate | AI-winter-school-2024/java/benchmark/src/main/java/org/dice_research/hobbit/example/aiws24/BenchmarkController.java:245-262 | fails iff a received id is negative; otherwise records the selected runtimes, the test size and `sent.length - received.size()`; the send-slot array and `Valid` are kept |
| JavaController.BenchmarkController.ReceiveCommand | AI-winter-school-2024/java/benchmark/src/main/java/org/dice_research/hobbit/example/aiws24/BenchmarkController.java:302-311 | command 101 releases the learning signal, and any other command is passed on unchanged; nothing else, the send-slot array included, changes |
| JavaSystem.ExtractTask | AI-winter-school-2024/java/baseline-system/src/main/java/org/dice_research/hobbit/example/aiws24/BaselineSystem.java:96-106 | without an id, the message is passed through unchanged |
| JavaSystem.ExtractTaskSplits | AI-winter-school-2024/java/baseline-system/src/main/java/org/dice_research/hobbit/example/aiws24/BaselineSystem.java:97-104 | an extracted id is what lies between the first newline and the next `;`, and the data is what follows |
| JavaSystem.ExtractTaskNoId | AI-winter-school-2024/java/baseline-system/src/main/java/org/dice_research/hobbit/example/aiws24/BaselineSystem.java:97-105 | no id iff there is no newline followed later by `;` |
| JavaSystem.AnswerMessage | AI-winter-school-2024/java/baseline-system/src/main/java/org/dice_research/hobbit/example/aiws24/BaselineSystem.java:69-72 | the answer is `id;value`, and `null;value` without an id |
| JavaSystem.LineValue | AI-winter-school-2024/java/baseline-system/src/main/java/org/dice_research/hobbit/example/aiws24/BaselineSystem.java:31-34 | a line contributes iff it has a `;` and the text after the last one parses as a double |
| JavaSystem.Contributions | AI-winter-school-2024/java/baseline-system/src/main/java/org/dice_research/hobbit/example/aiws24/BaselineSystem.java:30-40 | at most one value per line |
| JavaSystem.ContributionsSnoc | AI-winter-school-2024/java/baseline-system/src/main/java/org/dice_research/hobbit/example/aiws24/BaselineSystem.java:30-40 | one more line adds its value exactly when it has one |
| JavaSystem.AddLine | AI-winter-school-2024/java/baseline-system/src/main/java/org/dice_research/hobbit/example/aiws24/BaselineSystem.java:31-38 | one loop pass: a line with a value adds it to the sum and one to the count; any other line changes neither |
| JavaSystem.Learned | AI-winter-school-2024/java/baseline-system/src/main/java/org/dice_research/hobbit/example/aiws24/BaselineSystem.java:41-45 | a message with at most one line, or whose lines after the first contribute nothing, leaves the learned value unchanged |
| JavaSystem.LearnedIsMean | AI-winter-school-2024/java/baseline-system/src/main/java/org/dice_research/hobbit/example/aiws24/BaselineSystem.java:36-45 | when the lines after the first contribute values, the learned value is their mean: the learned value times their count is their sum |
| JavaSystem.Accumulate | AI-winter-school-2024/java/baseline-system/src/main/java/org/dice_research/hobbit/example/aiws24/BaselineSystem.java:26-40 | the loop's sum and count are the sum and number of the values of all lines after the first |
| JavaSystem.BaselineSystem.constructor | AI-winter-school-2024/java/baseline-system/src/main/java/org/dice_research/hobbit/example/aiws24/BaselineSystem.java:21 | the learned value starts at 0.0, and nothing has been sent |
| JavaSystem.BaselineSystem.ReceiveGeneratedData | AI-winter-school-2024/java/baseline-system/src/main/java/org/dice_research/hobbit/example/aiws24/BaselineSystem.java:24-52 | the learned value becomes the mean of the values, or stays when there are none, and LEARNING_FINISHED is sent |
| JavaSystem.BaselineSystem.ReceiveGeneratedTask | AI-winter-school-2024/java/baseline-system/src/main/java/org/dice_research/hobbit/example/aiws24/BaselineSystem.java:63-79 | sends one answer with the learned value and changes nothing else |
| JavaSystem.BaselineSystem.HandleData | AI-winter-school-2024/java/baseline-system/src/main/java/org/dice_research/hobbit/example/aiws24/BaselineSystem.java:94-107 | answers with the id extracted from a task message |
| TaskProtocol.IndexOfIs | AI-winter-school-2024/java/baseline-system/src/main/java/org/dice_research/hobbit/example/aiws24/BaselineSystem.java:100 | a position holding `c`, with no `c` before it, is the `indexOf` result |
| TaskProtocol.TaskRoundTrip | AI-winter-school-2024/java/baseline-system/src/main/java/org/dice_research/hobbit/example/aiws24/BaselineSystem.java:96-106 | the system extracts the controller's task id and the row without its target column |
| TaskProtocol.DecimalHasOnlyDigits | AI-winter-school-2024/java/benchmark/src/main/java/org/dice_research/hobbit/example/aiws24/BenchmarkController.java:162 | a printed id contains no separator |
| TaskProtocol.AnswerRoundTrip | AI-winter-school-2024/java/benchmark/src/main/java/org/dice_research/hobbit/example/aiws24/BenchmarkController.java:197-202 | the controller parses the system's answer back to that task's id and the value |
| TaskProtocol.TaskAnswerRoundTrip | AI-winter-school-2024/java/benchmark/src/main/java/org/dice_research/hobbit/example/aiws24/BenchmarkController.java:158-202 | the id the controller sends comes back with the system's value |
| TaskProtocol.NullIdAnswerDropped | AI-winter-school-2024/java/baseline-system/src/main/java/org/dice_research/hobbit/example/aiws24/BaselineSystem.java:70-72 | an answer with no task id is never stored |
| TaskProtocol.TrainingLines | AI-winter-school-2024/java/benchmark/src/main/java/org/dice_research/hobbit/example/aiws24/BenchmarkController.java:144-151 | one numbered line per training row |
| TaskProtocol.JoinSnoc | AI-winter-school-2024/java/benchmark/src/main/java/org/dice_research/hobbit/example/aiws24/BenchmarkController.java:145 | appending a line after a newline extends the join |
| TaskProtocol.TrainingMessageJoin | AI-winter-school-2024/java/benchmark/src/main/java/org/dice_research/hobbit/example/aiws24/BenchmarkController.java:139-151 | the training message is the doubled header line and the numbered rows, joined by newlines |
| TaskProtocol.LastIndexOfAppend | AI-winter-school-2024/java/baseline-system/src/main/java/org/dice_research/hobbit/example/aiws24/BaselineSystem.java:31 | the last `;` of a string ending in text with a `;` lies in that text |
| TaskProtocol.NumberedLineValue | AI-winter-school-2024/java/baseline-system/src/main/java/org/dice_research/hobbit/example/aiws24/BaselineSystem.java:31-34 | a numbered line contributes its row's target: what the row alone contributes when it has a `;`, and the whole row parsed when it has none |
| TaskProtocol.TrainingContributions | AI-winter-school-2024/java/baseline-system/src/main/java/org/dice_research/hobbit/example/aiws24/BaselineSystem.java:30-40 | the numbered lines contribute exactly the rows' targets, and the same values as the rows themselves when every row has a `;` |
| TaskProtocol.RowTargetsAreContributions | AI-winter-school-2024/java/baseline-system/src/main/java/org/dice_research/hobbit/example/aiws24/BaselineSystem.java:30-40 | rows that all have a `;` have as targets exactly what they contribute as lines |
| TaskProtocol.TrainingRoundTrip | AI-winter-school-2024/java/baseline-system/src/main/java/org/dice_research/hobbit/example/aiws24/BaselineSystem.java:26-40 | for any rows without line breaks, the system splits the training message into the doubled header and one line per row, and the lines contribute exactly the rows' targets (for rows with a `;`, what the rows themselves contribute) |

## Left out

- RabbitMQ plumbing is not modelled: connections, channels, queue and exchange declarations, consumers, `basic_publish`, the IO loop and `close`. A publication is recorded as a message appended to a list, and each channel completion is one event.
- `setup_channel` and `stop_looping_on_close` are plumbing that changes none of the modelled state, so they are not modelled. `declare_queues_step5` is modelled as `PyBenchmark.SailBenchmark.DeclareQueuesStep5`, but the queue declarations that lead up to it are not.
- Envelope.EncodeCommand, Envelope.EncodeSystemCommand: a Dafny `char` cannot hold a lone surrogate, while a Python `str` can. A session id read by `os.getenv` can carry one (`surrogateescape` decoding of undecodable bytes). `encode('utf-8')` then raises, and `send_command` logs the error and publishes nothing. The encoders here return a message whenever the lengths fit, so that error path is not modelled.
- Threads and semaphores run in a chosen order. Python threads are modelled as direct calls. Semaphore values are counters. The 120-second acquire timeout is an event. `time.sleep` is left out.
- Clocks (`time.time_ns`, `System.currentTimeMillis`) are parameters.
- Random numbers are an oracle. The Java `Random(seed).nextDouble() < 0.9` draws are an oracle of booleans indexed by draw number. `prepare_data` (numpy split, pandas CSV reading, dataset choice) is not modelled: the benchmark starts with a given test size.
- pandas is not modelled. `send_train_data` is counted, not rendered. `send_task` records which row id was sent, not the CSV. `handle_data` receives the id already parsed by `read_csv`. `process_train_data` and `process_task` in `system.py` are not modelled.
- Floating point is modelled with reals. Python NaN is a separate constructor.
- Some library functions are function parameters with no properties assumed: `str` of a float, `math.sqrt`, `Double.parseDouble` and `Double.toString`.
- PyBenchmark.KpiResults: the KPI values are rendered through these abstract functions, so their text is not pinned down.
- JavaController.BenchmarkController.Evaluate: `avgRuntime` and `stdDevRuntime` are not computed; the model keeps the selected runtimes from which Java derives them.
- The first loop of Java `evaluate` (parsing expected values) has no observable effect and is not modelled.
- Jena graph building is not modelled.
- `RabbitMQUtils.readString` and `writeString` treat Java messages as strings.
- Text.ParseInt: accepts ASCII digits only, while `Integer.parseInt` also accepts other Unicode decimal digits.
- Java `long` timestamps and the `int` task counter are unbounded integers.
- `init`, environment and parameter loading, `executeBenchmark` sequencing, `waitFor…` and `sendTasksFinished` in the Java controller are framework glue and are not modelled. `System.exit` is not modelled either.
- The result document `send_result` builds for a KPI without a data type leaves a comma before the closing brace. This is never reached, because every KPI has a data type (`PyBenchmark.KpiResults`).
