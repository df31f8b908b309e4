/**
 * The Java baseline system (BaselineSystem.java): learning the mean target
 * value from the training message, splitting a task message into its id and
 * its data, and the answer it sends back.
 *
 * `Double.parseDouble` and `Double.toString` are the parameters
 * `parseDouble` and `formatDouble`; `null` is `None`.
 */
module JavaSystem {
  import opened Wrappers
  import opened Text
  import opened Reals

  const LEARNING_FINISHED_COMMAND: int := 101

  /**
   * The handler of task messages: the id is the text between the first
   * `'\n'` and the first `;` after it, the data everything after that `;`;
   * without both, the id is null and the message goes on whole.
   */
  function ExtractTask(message: string): (r: (Option<string>, string))
    ensures r.0.None? ==> r.1 == message
  {
    var startPos := IndexOf(message, '\n', 0);
    if startPos >= 0 then
      var endPos := IndexOf(message, ';', startPos);
      if endPos >= 0 then (Some(message[startPos + 1..endPos]), message[endPos + 1..])
      else (None, message)
    else (None, message)
  }

  /** Cutting a string at a line break and a later `;`. */
  lemma CutAt(m: string, s: nat, e: nat)
    requires s < e < |m| && m[s] == '\n' && m[e] == ';'
    ensures m == m[..s] + ("\n" + (m[s + 1..e] + (";" + m[e + 1..])))
  {
    assert m[e..] == ";" + m[e + 1..];
    assert m[s + 1..] == m[s + 1..e] + m[e..];
    assert m[s..] == "\n" + m[s + 1..];
    assert m == m[..s] + m[s..];
  }

  /** A slice of positions that all differ from `c` does not contain `c`. */
  lemma NotInSlice(m: string, lo: nat, hi: nat, c: char)
    requires lo <= hi <= |m| && forall j :: lo <= j < hi ==> m[j] != c
    ensures c !in m[lo..hi]
  {
    var t := m[lo..hi];
    assert forall k :: 0 <= k < |t| ==> t[k] == m[lo + k];
  }

  /**
   * With an id, the message is some text without `'\n'`, the `'\n'`, the id
   * (which has no `;`), the `;` and the forwarded data.
   */
  lemma ExtractTaskSplits(message: string)
    requires ExtractTask(message).0.Some?
    ensures var (taskId, data) := ExtractTask(message);
            var p := |message| - |data| - |taskId.value| - 2;
            0 <= p && message == message[..p] + ("\n" + (taskId.value + (";" + data))) &&
            '\n' !in message[..p] && ';' !in taskId.value
  {
    var s := IndexOf(message, '\n', 0);
    var e := IndexOf(message, ';', s);
    assert ExtractTask(message) == (Some(message[s + 1..e]), message[e + 1..]);
    CutFacts(message, s, e);
  }

  /** The pieces of a string cut at a first line break `s` and the first `;` at or after it. */
  lemma CutFacts(m: string, s: nat, e: nat)
    requires s < e < |m| && m[s] == '\n' && m[e] == ';'
    requires forall j :: 0 <= j < s ==> m[j] != '\n'
    requires forall j :: s <= j < e ==> m[j] != ';'
    ensures var id, data := m[s + 1..e], m[e + 1..];
            |m| - |data| - |id| - 2 == s && m == m[..s] + ("\n" + (id + (";" + data))) &&
            '\n' !in m[..s] && ';' !in id
  {
    CutAt(m, s, e);
    NotInSlice(m, 0, s, '\n');
    assert m[0..s] == m[..s];
    NotInSlice(m, s + 1, e, ';');
  }

  /** The id is null exactly when no `'\n'` is followed, anywhere later, by a `;`. */
  lemma ExtractTaskNoId(message: string)
    ensures ExtractTask(message).0.None? <==>
            forall i, j :: 0 <= i < j < |message| && message[i] == '\n' ==> message[j] != ';'
  {
    var startPos := IndexOf(message, '\n', 0);
    if startPos >= 0 {
      var endPos := IndexOf(message, ';', startPos);
      if endPos < 0 {
        forall i, j | 0 <= i < j < |message| && message[i] == '\n'
          ensures message[j] != ';'
        {
          assert startPos <= i;
        }
      }
    }
  }

  /** `receiveGeneratedTask`'s message: the id (or "null"), `;`, the formatted prediction. */
  function AnswerMessage(taskId: Option<string>, result: real, formatDouble: real -> string): (r: string)
    ensures taskId.Some? ==> r == taskId.value + ";" + formatDouble(result)
    ensures taskId.None? ==> r == "null;" + formatDouble(result)
  {
    var id := match taskId case Some(t) => t case None => "null";
    id + ";" + formatDouble(result)
  }

  /** What a training line contributes: the double after its last `;`, if there is one and it parses. */
  function LineValue(line: string, parseDouble: string -> Option<real>): (r: Option<real>)
    ensures r.Some? <==> ';' in line && parseDouble(line[LastIndexOf(line, ';') + 1..]).Some?
  {
    var pos := LastIndexOf(line, ';');
    if pos >= 0 then parseDouble(line[pos + 1..]) else None
  }

  /** The values of the lines that contribute, in order. */
  function Contributions(lines: seq<string>, parseDouble: string -> Option<real>): (r: seq<real>)
    ensures |r| <= |lines|
  {
    if lines == [] then []
    else
      var init := Contributions(lines[..|lines| - 1], parseDouble);
      match LineValue(lines[|lines| - 1], parseDouble)
      case Some(v) => init + [v]
      case None => init
  }

  lemma ContributionsSnoc(lines: seq<string>, line: string, parseDouble: string -> Option<real>)
    ensures Contributions(lines + [line], parseDouble) ==
            Contributions(lines, parseDouble) + (match LineValue(line, parseDouble) case Some(v) => [v] case None => [])
  {
    assert (lines + [line])[..|lines|] == lines;
  }

  /** The values a training message contributes: those of its lines after the first. */
  function TrainingValues(message: string, parseDouble: string -> Option<real>): (r: seq<real>)
    ensures |JavaSplit(message, '\n')| <= 1 ==> r == []
    ensures |JavaSplit(message, '\n')| > 1 ==> r == Contributions(JavaSplit(message, '\n')[1..], parseDouble)
  {
    var lines := JavaSplit(message, '\n');
    if |lines| <= 1 then [] else Contributions(lines[1..], parseDouble)
  }

  /** The value learned from a training message, given the value before it: the mean of what it contributes. */
  function Learned(message: string, parseDouble: string -> Option<real>, before: real): (r: real)
    ensures JavaSplit(message, '\n') == [] || '\n' !in message ==> r == before
    ensures |JavaSplit(message, '\n')| <= 1 ==> r == before
    ensures TrainingValues(message, parseDouble) == [] ==> r == before
  {
    var values := TrainingValues(message, parseDouble);
    if |values| > 0 then Mean(values) else before
  }

  /** When the message contributes something, the learned value is their mean: its multiple by their count is their sum. */
  lemma {:induction false} LearnedIsMean(message: string, parseDouble: string -> Option<real>, before: real)
    ensures var values := TrainingValues(message, parseDouble);
            |values| > 0 ==> Learned(message, parseDouble, before) * |values| as real == Sum(values)
  {
    var values := TrainingValues(message, parseDouble);
    if |values| > 0 {
      var m := Learned(message, parseDouble, before);
      assert m == Mean(values);
      assert m * |values| as real == Sum(values) by {
        assert Mean(values) * |values| as real == Sum(values);
      }
    }
  }

  /** One pass of the loop of `receiveGeneratedData`: a line adds its value, if it has one. */
  method AddLine(line: string, parseDouble: string -> Option<real>, sum: real, count: nat)
    returns (sum': real, count': nat)
    ensures LineValue(line, parseDouble).Some? ==>
              sum' == sum + LineValue(line, parseDouble).value && count' == count + 1
    ensures LineValue(line, parseDouble).None? ==> sum' == sum && count' == count
  {
    sum', count' := sum, count;
    var pos := LastIndexOf(line, ';');
    if pos >= 0 {
      var parsed := parseDouble(line[pos + 1..]);
      if parsed.Some? {
        sum' := sum + parsed.value;
        count' := count + 1;
      }
    }
  }

  /** The loop of `receiveGeneratedData`: sum and count of what lines 1.. contribute. */
  method Accumulate(lines: seq<string>, parseDouble: string -> Option<real>) returns (sum: real, count: nat)
    ensures var values := if |lines| > 1 then Contributions(lines[1..], parseDouble) else [];
            sum == Sum(values) && count == |values|
  {
    sum := 0.0;
    count := 0;
    if |lines| <= 1 {
      return;
    }
    var rest := lines[1..];
    ghost var values: seq<real> := [];
    var i := 0;
    while i < |rest|
      invariant 0 <= i <= |rest|
      invariant values == Contributions(rest[..i], parseDouble)
      invariant sum == Sum(values) && count == |values|
    {
      var line := rest[i];
      assert rest[..i + 1] == rest[..i] + [line];
      ContributionsSnoc(rest[..i], line, parseDouble);
      ghost var v := LineValue(line, parseDouble);
      if v.Some? {
        SumSnoc(values, v.value);
        values := values + [v.value];
      }
      sum, count := AddLine(line, parseDouble, sum, count);
      i := i + 1;
    }
    assert rest[..i] == rest;
  }

  class BaselineSystem {
    const parseDouble: string -> Option<real>
    const formatDouble: real -> string

    var learnedValue: real
    /** the commands sent to the command queue, and the answers sent to the evaluation storage */
    var commandsSent: seq<int>
    var answersSent: seq<string>

    constructor (parseDouble: string -> Option<real>, formatDouble: real -> string)
      ensures this.parseDouble == parseDouble && this.formatDouble == formatDouble
      ensures learnedValue == 0.0 && commandsSent == [] && answersSent == []
    {
      this.parseDouble := parseDouble;
      this.formatDouble := formatDouble;
      learnedValue := 0.0;
      commandsSent := [];
      answersSent := [];
    }

    /**
     * `receiveGeneratedData`: the mean of the contributing lines after the
     * first, kept as it was when none contributes; LEARNING_FINISHED follows
     * in every case.
     */
    method ReceiveGeneratedData(message: string)
      modifies this
      ensures learnedValue == Learned(message, parseDouble, old(learnedValue))
      ensures commandsSent == old(commandsSent) + [LEARNING_FINISHED_COMMAND]
      ensures answersSent == old(answersSent)
    {
      var lines := JavaSplit(message, '\n');
      var sum, count := Accumulate(lines, parseDouble);
      if count > 0 {
        learnedValue := sum / count as real;
      }
      commandsSent := commandsSent + [LEARNING_FINISHED_COMMAND];
    }

    /** `receiveGeneratedTask`: answer with the learned value, whatever the data. */
    method ReceiveGeneratedTask(taskId: Option<string>, csvData: string)
      modifies this
      ensures answersSent == old(answersSent) + [AnswerMessage(taskId, learnedValue, formatDouble)]
      ensures learnedValue == old(learnedValue) && commandsSent == old(commandsSent)
    {
      var result := learnedValue;
      var messageBuilder := match taskId case Some(t) => t case None => "null";
      messageBuilder := messageBuilder + ";";
      messageBuilder := messageBuilder + formatDouble(result);
      answersSent := answersSent + [messageBuilder];
    }

    /** The handler of task messages installed by `init`. */
    method HandleData(message: string)
      modifies this
      ensures answersSent == old(answersSent) + [AnswerMessage(ExtractTask(message).0, learnedValue, formatDouble)]
      ensures learnedValue == old(learnedValue) && commandsSent == old(commandsSent)
    {
      var (taskId, data) := ExtractTask(message);
      ReceiveGeneratedTask(taskId, data);
    }
  }
}
