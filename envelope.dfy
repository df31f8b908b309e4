/**
 * The command envelope both Python participants hand-roll:
 *   [4-byte big-endian length][UTF-8 session id][command byte][payload]
 * `EncodeCommand` is benchmark.py's `send_command`, `EncodeSystemCommand` is
 * system.py's; `ParseHeader` is the parsing prefix both `handle_command`
 * callbacks share, and `RouteBenchmark` / `RouteSystem` are their dispatch.
 * As in the source, the length prefix counts the characters of the session
 * id, not its bytes.
 */
module Envelope {
  import opened Wrappers
  import opened Bytes

  const SYSTEM_READY: int := 1
  const BENCHMARK_READY: int := 2
  const TASK_GENERATOR_START: int := 8
  const BENCHMARK_FINISHED: int := 11
  const TASK_GENERATION_FINISHED: int := 15
  const START_BENCHMARK: int := 17
  const LEARNING_FINISHED: int := 101

  /**
   * benchmark.py `send_command(command_id, data)`: the bytes it publishes, or
   * None where building them raises (a length that does not fit four bytes, a
   * command id that is not a byte), which the source catches and logs.
   */
  function EncodeCommand(sessionId: string, commandId: int, data: Option<string>): (r: Option<seq<byte>>)
    ensures r.Some? <==> |sessionId| < TWO_32 && 0 <= commandId < 0x100
    ensures r.Some? ==> |r.value| > 4 + |sessionId|
  {
    if |sessionId| >= TWO_32 || !(0 <= commandId < 0x100) then None
    else
      var payload := if data.Some? then Encode(data.value) else [];
      Some(BigEndian32(|sessionId|) + Encode(sessionId) + [commandId] + payload)
  }

  /** system.py `send_command`: the payload is appended only when it is present and non-empty. */
  function EncodeSystemCommand(sessionId: string, commandId: int, data: Option<string>): (r: Option<seq<byte>>)
    ensures r.Some? <==> |sessionId| < TWO_32 && 0 <= commandId < 0x100
  {
    if |sessionId| >= TWO_32 || !(0 <= commandId < 0x100) then None
    else
      var payload := if data.Some? && |data.value| > 0 then Encode(data.value) else [];
      Some(BigEndian32(|sessionId|) + Encode(sessionId) + [commandId] + payload)
  }

  /** The outcome of the parsing both `handle_command` callbacks do before they dispatch. */
  datatype Header =
    | TooShort                          // fewer than 4 bytes: warned about and ignored
    | LengthOverrun(declared: int)      // the declared id length runs past the end: ignored
    | BadSessionId                      // the id bytes are not UTF-8: the decode raises
    | Parsed(sessionId: string, commandId: byte, rest: seq<byte>)

  function DeclaredLength(body: seq<byte>): int
    requires |body| >= 4
  {
    FromBigEndian32(body[..4])
  }

  function ParseHeader(body: seq<byte>): (r: Header)
    ensures r == TooShort <==> |body| < 4
    ensures r.LengthOverrun? <==> |body| >= 4 && |body| < DeclaredLength(body) + 4
    ensures r.Parsed? ==> |r.rest| < |body|
  {
    if |body| < 4 then TooShort
    else
      var idEnd := DeclaredLength(body) + 4;
      if |body| < idEnd then LengthOverrun(idEnd - 4)
      else match Decode(body[4..idEnd])
        case None => BadSessionId
        case Some(sid) =>
          // int.from_bytes of the one-byte slice; an empty slice reads as 0
          var commandId := if |body| > idEnd then body[idEnd] else 0;
          var rest := if |body| > idEnd then body[idEnd + 1..] else [];
          Parsed(sid, commandId, rest)
  }

  /** What benchmark.py's `handle_command` does with a message. */
  datatype BenchmarkAction =
    | Dropped                           // short or inconsistent: no dispatch
    | Failed                            // a decode raised; caught and printed
    | Foreign(sessionId: string)        // another session's command
    | StartBenchmark(systemId: string)  // store the system id, send the training data
    | LearningFinished                  // send the first task
    | UnknownCommand(commandId: int)

  function RouteBenchmark(body: seq<byte>, own: string): (r: BenchmarkAction)
    ensures r == Dropped <==> ParseHeader(body).TooShort? || ParseHeader(body).LengthOverrun?
    ensures (r.StartBenchmark? || r.LearningFinished? || r.UnknownCommand?) ==>
              ParseHeader(body).Parsed? && ParseHeader(body).sessionId == own
    ensures r.StartBenchmark? ==> ParseHeader(body).commandId == START_BENCHMARK
    ensures r.LearningFinished? <==>
              ParseHeader(body).Parsed? && ParseHeader(body).sessionId == own &&
              ParseHeader(body).commandId == LEARNING_FINISHED
  {
    match ParseHeader(body)
    case TooShort => Dropped
    case LengthOverrun(_) => Dropped
    case BadSessionId => Failed
    case Parsed(sid, cmd, rest) =>
      if sid != own then Foreign(sid)
      else if cmd == START_BENCHMARK then
        match Decode(rest)
        case None => Failed
        case Some(systemId) => StartBenchmark(systemId)
      else if cmd == LEARNING_FINISHED then LearningFinished
      else UnknownCommand(cmd)
  }

  /** What system.py's `handle_command` does with a message. */
  datatype SystemAction =
    | Ignored                           // short, inconsistent or another session's
    | DecodeFailed                      // the session id decode raised
    | TerminationRequested              // TASK_GENERATION_FINISHED: release the termination wait
    | OtherCommand(commandId: int)      // logged as unknown

  function RouteSystem(body: seq<byte>, own: string): (r: SystemAction)
    ensures r.TerminationRequested? <==>
              ParseHeader(body).Parsed? && ParseHeader(body).sessionId == own &&
              ParseHeader(body).commandId == TASK_GENERATION_FINISHED
    ensures r.OtherCommand? ==> ParseHeader(body).Parsed? && ParseHeader(body).sessionId == own
    ensures |body| < 4 ==> r == Ignored
  {
    match ParseHeader(body)
    case TooShort => Ignored
    case LengthOverrun(_) => Ignored
    case BadSessionId => DecodeFailed
    case Parsed(sid, cmd, _) =>
      if sid != own then Ignored
      else if cmd == TASK_GENERATION_FINISHED then TerminationRequested
      else OtherCommand(cmd)
  }

  // ---------------------------------------------------------------- properties

  /** The two encoders write the same bytes: an empty payload encodes to no bytes. */
  lemma EncodersAgree(sessionId: string, commandId: int, data: Option<string>)
    ensures EncodeCommand(sessionId, commandId, data) == EncodeSystemCommand(sessionId, commandId, data)
  {
    if data.Some? && data.value == [] {
      assert Encode(data.value) == [];
    }
  }

  /** The example envelope: session "s1", command 15, no payload. */
  lemma EncodeExample()
    ensures EncodeCommand("s1", TASK_GENERATION_FINISHED, None) == Some([0x00, 0x00, 0x00, 0x02, 0x73, 0x31, 0x0F])
    ensures ParseHeader([0x00, 0x00, 0x00, 0x02, 0x73, 0x31, 0x0F]) == Parsed("s1", 15, [])
  {
    var b: seq<byte> := [0x00, 0x00, 0x00, 0x02, 0x73, 0x31, 0x0F];
    assert Encode("1") == [0x31] by {
      assert "1"[1..] == [];
    }
    assert Encode("s1") == [0x73, 0x31] by {
      assert "s1"[1..] == "1";
    }
    assert BigEndian32(2) == [0, 0, 0, 2];
    assert b == BigEndian32(2) + Encode("s1") + [0x0F] + [];
    assert |"s1"| == 2;
    assert b[..4] == [0, 0, 0, 2];
    assert b[4..6] == Encode("s1");
    DecodeEncode("s1");
  }

  function PayloadBytes(data: Option<string>): seq<byte> {
    if data.Some? then Encode(data.value) else []
  }

  /**
   * For an ASCII session id the header parses back to the session id, the
   * command and the payload bytes that were encoded.
   */
  lemma HeaderRoundTrip(sessionId: string, commandId: int, data: Option<string>)
    requires IsAscii(sessionId) && |sessionId| < TWO_32 && 0 <= commandId < 0x100
    ensures ParseHeader(EncodeCommand(sessionId, commandId, data).value) ==
              Parsed(sessionId, commandId, PayloadBytes(data))
  {
    var n := |sessionId|;
    var e := Encode(sessionId);
    var p := PayloadBytes(data);
    var body := BigEndian32(n) + e + [commandId] + p;
    assert body == EncodeCommand(sessionId, commandId, data).value;
    assert body[..4] == BigEndian32(n);
    BigEndian32RoundTrip(n);
    assert |e| == n;
    assert body[4..n + 4] == e;
    DecodeEncode(sessionId);
    assert body[n + 4] == commandId;
    assert body[n + 5..] == p;
  }

  /**
   * The length prefix counts characters: a session id with a non-ASCII
   * character never matches the session it was encoded for, so the own
   * commands of such a session are never dispatched.
   */
  lemma NonAsciiSessionNeverMatches(sessionId: string, commandId: int, data: Option<string>)
    requires !IsAscii(sessionId) && |sessionId| < TWO_32 && 0 <= commandId < 0x100
    ensures var h := ParseHeader(EncodeCommand(sessionId, commandId, data).value);
            !(h.Parsed? && h.sessionId == sessionId)
  {
    var n := |sessionId|;
    var body := EncodeCommand(sessionId, commandId, data).value;
    assert body[..4] == BigEndian32(n);
    BigEndian32RoundTrip(n);
    assert DeclaredLength(body) == n;
    ParsedSession(body);
    if |body| >= n + 4 {
      var idBytes := body[4..n + 4];
      match Decode(idBytes)
      case None =>
      case Some(s) =>
        EncodeDecode(idBytes);
        assert |Encode(s)| == n < |Encode(sessionId)|;
    }
  }

  /** A parsed header's session id is the decoding of the declared number of bytes after the prefix. */
  lemma ParsedSession(body: seq<byte>)
    ensures ParseHeader(body).Parsed? ==>
              |body| >= 4 && DeclaredLength(body) + 4 <= |body| &&
              Decode(body[4..DeclaredLength(body) + 4]) == Some(ParseHeader(body).sessionId)
  {
  }

  /** The bytes of an envelope cut off right after the session id. */
  function HeaderOnly(sessionId: string): seq<byte>
    requires |sessionId| < TWO_32
  {
    BigEndian32(|sessionId|) + Encode(sessionId)
  }

  lemma HeaderOnlyParses(sessionId: string)
    requires IsAscii(sessionId) && |sessionId| < TWO_32
    ensures ParseHeader(HeaderOnly(sessionId)) == Parsed(sessionId, 0, [])
  {
    var n := |sessionId|;
    var body := HeaderOnly(sessionId);
    assert body[..4] == BigEndian32(n);
    BigEndian32RoundTrip(n);
    assert DeclaredLength(body) == n;
    assert |body| == n + 4;
    assert body[4..n + 4] == Encode(sessionId);
    DecodeEncode(sessionId);
  }

  /**
   * A message that ends right after the session id reads command 0 and takes
   * the unknown-command branch in both participants.
   */
  lemma MissingCommandIsZero(sessionId: string)
    requires IsAscii(sessionId) && |sessionId| < TWO_32
    ensures ParseHeader(HeaderOnly(sessionId)) == Parsed(sessionId, 0, [])
    ensures RouteBenchmark(HeaderOnly(sessionId), sessionId) == UnknownCommand(0)
    ensures RouteSystem(HeaderOnly(sessionId), sessionId) == OtherCommand(0)
  {
    HeaderOnlyParses(sessionId);
  }

  /** The benchmark's START_BENCHMARK with a system id reaches the benchmark's handler with that id. */
  lemma StartBenchmarkRoundTrip(sessionId: string, systemId: string)
    requires IsAscii(sessionId) && |sessionId| < TWO_32
    ensures RouteBenchmark(EncodeCommand(sessionId, START_BENCHMARK, Some(systemId)).value, sessionId) ==
              StartBenchmark(systemId)
  {
    HeaderRoundTrip(sessionId, START_BENCHMARK, Some(systemId));
    DecodeEncode(systemId);
  }

  /** The system's LEARNING_FINISHED for its session reaches the benchmark's task loop. */
  lemma LearningFinishedRoundTrip(sessionId: string)
    requires IsAscii(sessionId) && |sessionId| < TWO_32
    ensures RouteBenchmark(EncodeSystemCommand(sessionId, LEARNING_FINISHED, None).value, sessionId) ==
              LearningFinished
  {
    EncodersAgree(sessionId, LEARNING_FINISHED, None);
    HeaderRoundTrip(sessionId, LEARNING_FINISHED, None);
  }

  /** The benchmark's TASK_GENERATION_FINISHED for the session releases the system's termination wait. */
  lemma TerminationRoundTrip(sessionId: string)
    requires IsAscii(sessionId) && |sessionId| < TWO_32
    ensures RouteSystem(EncodeCommand(sessionId, TASK_GENERATION_FINISHED, None).value, sessionId) ==
              TerminationRequested
  {
    HeaderRoundTrip(sessionId, TASK_GENERATION_FINISHED, None);
  }

  /** An envelope encoded for another session is never dispatched by either participant. */
  lemma ForeignSessionIgnored(sessionId: string, own: string, commandId: int, data: Option<string>)
    requires IsAscii(sessionId) && |sessionId| < TWO_32 && 0 <= commandId < 0x100
    requires sessionId != own
    ensures RouteBenchmark(EncodeCommand(sessionId, commandId, data).value, own) == Foreign(sessionId)
    ensures RouteSystem(EncodeCommand(sessionId, commandId, data).value, own) == Ignored
  {
    HeaderRoundTrip(sessionId, commandId, data);
  }
}
