/**
 * The setup and termination protocol of the Python baseline system
 * (system.py), as an event-driven state machine over its counters.
 *
 * The events are the callbacks that pika and the main thread run:
 * `run` starting (it calls `setup_connection`), `on_connected`,
 * `on_connection_error`, the four `declare_*` callbacks that each release
 * `communication_mutex` once, one turn of the `for x in range(4)` acquire
 * loop (an acquire that finds a permit, or one that waits 120 seconds
 * without), `handle_command`, and the final `termination_mutex.acquire`.
 * `Step` is the specification; the class `BaselineSystem` holds the fields
 * the source updates and is proved against it.
 */
module PySystem {
  import opened Wrappers
  import opened Bytes
  import opened Envelope

  const MAX_CONNECTION_ATTEMPTS: int := 5
  /** The number of acquires `run` performs, one per communication channel. */
  const SETUP_CHANNELS: nat := 4

  datatype Connection = NoConnection | Opening | Open

  datatype Channel = CommandQueue | TrainReceive | TaskReceive | AnswerSend

  /** Why one call of `communication_mutex.release()` happened. */
  datatype Release = ChannelReady(channel: Channel) | ConnectionLost

  datatype Crash = SetupTimeout | NoConnectionAfterSetup

  /** Where the main thread is in `run`. */
  datatype Phase =
    | Idle
    | AwaitingChannels(acquired: nat)   // inside the acquire loop
    | AwaitingTermination               // SYSTEM_READY sent, blocked on termination_mutex
    | Exited
    | Crashed(reason: Crash, acquiredBefore: nat)

  datatype State = State(
    sessionId: string,
    attempts: int,                  // connection_attempt_counts
    connection: Connection,         // self.connection
    communicationPermits: nat,      // the value of communication_mutex
    terminationPermits: nat,        // the value of termination_mutex
    phase: Phase,
    releases: seq<Release>,         // every release of communication_mutex, in order
    published: seq<seq<byte>>,      // the command messages published
    acks: nat,                      // basic_ack calls on the command channel
    terminationRequests: nat)       // TASK_GENERATION_FINISHED messages for this session

  datatype Event =
    | Run
    | Connected
    | ConnectionError
    | ChannelSetUp(channel: Channel)
    | Acquire
    | AcquireTimeout
    | Command(body: seq<byte>)
    | Terminate

  function Init(sessionId: string): State {
    State(sessionId, 0, NoConnection, 0, 0, Idle, [], [], 0, 0)
  }

  /** The messages `send_command(SYSTEM_READY_SIGNAL)` publishes: none when encoding raises. */
  function ReadyMessages(sessionId: string): (r: seq<seq<byte>>)
    ensures |r| <= 1 && (r != [] <==> |sessionId| < TWO_32)
  {
    match EncodeSystemCommand(sessionId, SYSTEM_READY, None)
    case Some(b) => [b]
    case None => []
  }

  /** When the environment can deliver an event at all. */
  predicate Enabled(s: State, e: Event) {
    match e
    case Run => s.phase == Idle
    case Connected => s.connection == Opening
    case ConnectionError => s.connection == Opening
    // each declare_* callback is registered once, so each channel releases at most once
    case ChannelSetUp(ch) => s.connection == Open && ChannelReady(ch) !in s.releases
    case Acquire => s.phase.AwaitingChannels? && s.communicationPermits > 0
    case AcquireTimeout => s.phase.AwaitingChannels? && s.communicationPermits == 0
    case Command(_) => ChannelReady(CommandQueue) in s.releases
    case Terminate => s.phase == AwaitingTermination && s.terminationPermits > 0
  }

  function Repeat<T>(x: T, n: nat): (r: seq<T>)
    ensures |r| == n && forall k :: 0 <= k < n ==> r[k] == x
  {
    if n == 0 then [] else [x] + Repeat(x, n - 1)
  }

  /** One event; a disabled event changes nothing. */
  function Step(s: State, e: Event): (r: State)
    ensures !Enabled(s, e) ==> r == s
    ensures r.sessionId == s.sessionId
    // the attempt counter moves only in setup_connection
    ensures r.attempts == if Enabled(s, e) && e == Run then s.attempts + 1 else s.attempts
    // every delivered command is acknowledged exactly once
    ensures r.acks == if Enabled(s, e) && e.Command? then s.acks + 1 else s.acks
    // the termination signal is released once per own TASK_GENERATION_FINISHED and only then
    ensures r.terminationRequests ==
              if Enabled(s, e) && e.Command? && RouteSystem(e.body, s.sessionId) == TerminationRequested
              then s.terminationRequests + 1 else s.terminationRequests
    // each channel completion releases the barrier exactly once; a terminal failure four times
    ensures Enabled(s, e) && e.ChannelSetUp? ==>
              r.releases == s.releases + [ChannelReady(e.channel)] &&
              r.communicationPermits == s.communicationPermits + 1
    ensures e.ChannelSetUp? && ChannelReady(e.channel) in s.releases ==> r == s
    ensures Enabled(s, e) && e == ConnectionError && s.attempts >= MAX_CONNECTION_ATTEMPTS ==>
              r.connection == NoConnection &&
              r.releases == s.releases + Repeat(ConnectionLost, 4) &&
              r.communicationPermits == s.communicationPermits + 4
    ensures Enabled(s, e) && e == ConnectionError && s.attempts < MAX_CONNECTION_ATTEMPTS ==> r == s
    // SYSTEM_READY goes out only on the fourth successful acquire, with a connection
    ensures r.published != s.published ==>
              e == Acquire && s.phase.AwaitingChannels? && s.phase.acquired + 1 >= SETUP_CHANNELS &&
              s.communicationPermits > 0 && s.connection != NoConnection &&
              r.published == s.published + ReadyMessages(s.sessionId) && r.phase == AwaitingTermination
    ensures Enabled(s, e) && e == AcquireTimeout ==>
              r.phase == Crashed(SetupTimeout, s.phase.acquired) && r.published == s.published
  {
    if !Enabled(s, e) then s
    else match e
      case Run =>
        s.(attempts := s.attempts + 1, connection := Opening, phase := AwaitingChannels(0))
      case Connected =>
        s.(connection := Open)
      case ConnectionError =>
        if s.attempts < MAX_CONNECTION_ATTEMPTS then
          s   // a new SelectConnection; the counter is not incremented
        else
          s.(connection := NoConnection,
             communicationPermits := s.communicationPermits + 4,
             releases := s.releases + Repeat(ConnectionLost, 4))
      case ChannelSetUp(ch) =>
        s.(communicationPermits := s.communicationPermits + 1,
           releases := s.releases + [ChannelReady(ch)])
      case Acquire =>
        var k := s.phase.acquired + 1;
        var t := s.(communicationPermits := s.communicationPermits - 1);
        if k < SETUP_CHANNELS then t.(phase := AwaitingChannels(k))
        else if s.connection == NoConnection then t.(phase := Crashed(NoConnectionAfterSetup, k))
        else t.(phase := AwaitingTermination, published := s.published + ReadyMessages(s.sessionId))
      case AcquireTimeout =>
        s.(phase := Crashed(SetupTimeout, s.phase.acquired))
      case Command(body) =>
        if RouteSystem(body, s.sessionId) == TerminationRequested then
          s.(acks := s.acks + 1,
             terminationPermits := s.terminationPermits + 1,
             terminationRequests := s.terminationRequests + 1)
        else s.(acks := s.acks + 1)
      case Terminate =>
        s.(terminationPermits := s.terminationPermits - 1, phase := Exited)
  }

  function Replay(s: State, es: seq<Event>): State
    decreases |es|
  {
    if es == [] then s else Replay(Step(s, es[0]), es[1..])
  }

  // ---------------------------------------------------------------- invariant

  function Acquired(p: Phase): nat {
    match p
    case Idle => 0
    case AwaitingChannels(k) => k
    case AwaitingTermination => SETUP_CHANNELS
    case Exited => SETUP_CHANNELS
    case Crashed(_, k) => k
  }

  /** What holds in every state reachable from `Init`. */
  predicate Inv(s: State) {
    // the semaphore: permits left plus permits taken is what was released
    && s.communicationPermits + Acquired(s.phase) == |s.releases|
    && (s.phase.AwaitingChannels? ==> s.phase.acquired < SETUP_CHANNELS)
    // setup_connection runs once, so the counter never passes 1
    && s.attempts == (if s.phase == Idle then 0 else 1)
    && (s.phase == Idle ==> s.connection == NoConnection && s.releases == [])
    && (s.phase != Idle ==> s.connection != NoConnection)
    && (|s.releases| > 0 ==> s.connection == Open)
    && (forall k :: 0 <= k < |s.releases| ==> s.releases[k].ChannelReady?)
    && (forall i, j :: 0 <= i < j < |s.releases| ==> s.releases[i] != s.releases[j])
    && (s.phase.Crashed? ==> s.phase.reason == SetupTimeout && s.phase.acquiredBefore < SETUP_CHANNELS)
    && (if s.phase == AwaitingTermination || s.phase == Exited
        then s.published == ReadyMessages(s.sessionId) else s.published == [])
    && s.terminationPermits + (if s.phase == Exited then 1 else 0) == s.terminationRequests
  }

  lemma StepPreservesInv(s: State, e: Event)
    requires Inv(s)
    ensures Inv(Step(s, e))
  {
    var r := Step(s, e);
    if Enabled(s, e) && e.ChannelSetUp? {
      assert forall k :: 0 <= k < |r.releases| ==> r.releases[k] == (s.releases + [ChannelReady(e.channel)])[k];
      assert forall i :: 0 <= i < |s.releases| ==> r.releases[i] != r.releases[|s.releases|];
    }
  }

  lemma {:induction false} ReplayPreservesInv(s: State, es: seq<Event>)
    requires Inv(s)
    ensures Inv(Replay(s, es))
    decreases |es|
  {
    if es != [] {
      StepPreservesInv(s, es[0]);
      ReplayPreservesInv(Step(s, es[0]), es[1..]);
    }
  }

  /** Four distinct channel completions are the completions of all four channels. */
  lemma AllChannelsReleased(rs: seq<Release>)
    requires |rs| >= SETUP_CHANNELS
    requires forall k :: 0 <= k < |rs| ==> rs[k].ChannelReady?
    requires forall i, j :: 0 <= i < j < |rs| ==> rs[i] != rs[j]
    ensures forall ch: Channel :: ChannelReady(ch) in rs
  {
    var a, b, c, d := rs[0].channel, rs[1].channel, rs[2].channel, rs[3].channel;
    assert a != b && a != c && a != d && b != c && b != d && c != d;
    forall ch: Channel
      ensures ChannelReady(ch) in rs
    {
      // the four distinct channels of the first four completions cover the four channels
      assert ch == a || ch == b || ch == c || ch == d by {
        assert a.CommandQueue? || a.TrainReceive? || a.TaskReceive? || a.AnswerSend?;
        assert b.CommandQueue? || b.TrainReceive? || b.TaskReceive? || b.AnswerSend?;
        assert c.CommandQueue? || c.TrainReceive? || c.TaskReceive? || c.AnswerSend?;
        assert d.CommandQueue? || d.TrainReceive? || d.TaskReceive? || d.AnswerSend?;
      }
      if ch == a { assert rs[0] == ChannelReady(ch); }
      else if ch == b { assert rs[1] == ChannelReady(ch); }
      else if ch == c { assert rs[2] == ChannelReady(ch); }
      else { assert rs[3] == ChannelReady(ch); }
    }
  }

  /**
   * SYSTEM_READY has been published only if four acquires went through,
   * every one of the four channels reported ready exactly once, and the
   * connection is open.
   */
  lemma ReadyOnlyAfterBarrier(sessionId: string, es: seq<Event>)
    ensures var s := Replay(Init(sessionId), es);
            s.published != [] ==>
              Acquired(s.phase) == SETUP_CHANNELS && |s.releases| == SETUP_CHANNELS &&
              (forall ch: Channel :: ChannelReady(ch) in s.releases) &&
              s.connection == Open &&
              s.published == ReadyMessages(sessionId)
  {
    var s := Replay(Init(sessionId), es);
    ReplayPreservesInv(Init(sessionId), es);
    ReplayKeepsSession(Init(sessionId), es);
    if s.published != [] {
      AllChannelsReleased(s.releases);
      ReleasesAtMostFour(s.releases);
    }
  }

  /** Distinct channel completions number at most four. */
  lemma ReleasesAtMostFour(rs: seq<Release>)
    requires forall k :: 0 <= k < |rs| ==> rs[k].ChannelReady?
    requires forall i, j :: 0 <= i < j < |rs| ==> rs[i] != rs[j]
    ensures |rs| <= SETUP_CHANNELS
  {
    if |rs| > SETUP_CHANNELS {
      var extra := rs[SETUP_CHANNELS].channel;
      assert rs[SETUP_CHANNELS] == ChannelReady(extra);
      AllChannelsReleased(rs[..SETUP_CHANNELS]);
      assert false;
    }
  }

  lemma {:induction false} ReplayKeepsSession(s: State, es: seq<Event>)
    ensures Replay(s, es).sessionId == s.sessionId
    decreases |es|
  {
    if es != [] {
      ReplayKeepsSession(Step(s, es[0]), es[1..]);
    }
  }

  /**
   * As written, `on_connection_error` never increments the counter, and
   * `setup_connection` runs once: the counter stays at 1, a failed attempt is
   * retried without bound, and the terminal branch that releases the barrier
   * four times is never reached.
   */
  lemma RetriesNeverExhausted(sessionId: string, es: seq<Event>)
    ensures var s := Replay(Init(sessionId), es);
            s.attempts <= 1 && ConnectionLost !in s.releases &&
            (s.connection == Opening ==> Step(s, ConnectionError) == s)
  {
    var s := Replay(Init(sessionId), es);
    ReplayPreservesInv(Init(sessionId), es);
    assert forall k :: 0 <= k < |s.releases| ==> s.releases[k] != ConnectionLost;
  }

  /** The process leaves normally only after a TASK_GENERATION_FINISHED for its session. */
  lemma ExitOnlyAfterTermination(sessionId: string, es: seq<Event>)
    ensures var s := Replay(Init(sessionId), es);
            s.phase == Exited ==> s.terminationRequests >= 1
  {
    ReplayPreservesInv(Init(sessionId), es);
  }

  /** The number of acquires still missing in the acquire loop. */
  function AcquiresLeft(p: Phase): nat {
    if p.AwaitingChannels? && p.acquired < SETUP_CHANNELS then SETUP_CHANNELS - p.acquired else 0
  }

  lemma {:induction false} AcquiresAfterLostConnection(s: State, n: nat)
    requires s.phase.AwaitingChannels? && s.phase.acquired < SETUP_CHANNELS
    requires n == SETUP_CHANNELS - s.phase.acquired
    requires s.connection == NoConnection && s.communicationPermits >= n
    ensures var r := Replay(s, Repeat(Acquire, n));
            r.phase == Crashed(NoConnectionAfterSetup, SETUP_CHANNELS) && r.published == s.published
    decreases n
  {
    var t := Step(s, Acquire);
    assert Repeat(Acquire, n)[1..] == Repeat(Acquire, n - 1);
    if n > 1 {
      AcquiresAfterLostConnection(t, n - 1);
    } else {
      assert Repeat(Acquire, n - 1) == [];
    }
  }

  /**
   * The terminal-failure branch (reached if the counter were at the bound):
   * it clears the connection and releases four permits, so the acquire loop
   * passes the barrier and `run` raises instead of sending SYSTEM_READY.
   */
  lemma TerminalFailurePassesBarrierAndCrashes(s: State)
    requires s.connection == Opening && s.attempts >= MAX_CONNECTION_ATTEMPTS
    requires s.phase.AwaitingChannels? && s.phase.acquired < SETUP_CHANNELS
    ensures var t := Step(s, ConnectionError);
            var r := Replay(t, Repeat(Acquire, SETUP_CHANNELS - s.phase.acquired));
            t.communicationPermits == s.communicationPermits + 4 &&
            r.phase == Crashed(NoConnectionAfterSetup, SETUP_CHANNELS) && r.published == s.published
  {
    var t := Step(s, ConnectionError);
    AcquiresAfterLostConnection(t, SETUP_CHANNELS - s.phase.acquired);
  }

  // ---------------------------------------------------------------- the object

  /** The fields of `SailWinterSchoolBaselineSystem` that the protocol updates. */
  class BaselineSystem {
    const sessionId: string
    var connectionAttemptCounts: int
    var connection: Connection
    var communicationMutex: nat
    var terminationMutex: nat
    var phase: Phase
    ghost var releases: seq<Release>
    var published: seq<seq<byte>>
    var acks: nat
    ghost var terminationRequests: nat

    ghost function Model(): State
      reads this
    {
      State(sessionId, connectionAttemptCounts, connection, communicationMutex, terminationMutex,
            phase, releases, published, acks, terminationRequests)
    }

    constructor (sessionId: string)
      ensures Model() == Init(sessionId)
    {
      this.sessionId := sessionId;
      connectionAttemptCounts := 0;
      connection := NoConnection;
      communicationMutex := 0;
      terminationMutex := 0;
      phase := Idle;
      releases := [];
      published := [];
      acks := 0;
      terminationRequests := 0;
    }

    /** `send_command(command_id)` with no payload. */
    method SendCommand(commandId: int)
      modifies this
      ensures published == old(published) + (match EncodeSystemCommand(sessionId, commandId, None)
                                             case Some(b) => [b] case None => [])
      ensures Model() == old(Model()).(published := published)
    {
      var content := EncodeSystemCommand(sessionId, commandId, None);
      if content.Some? {
        published := published + [content.value];
      }
    }

    /** `run` up to its acquire loop: `setup_connection` starts the first attempt. */
    method Run()
      requires Enabled(Model(), Event.Run)
      modifies this
      ensures Model() == Step(old(Model()), Event.Run)
    {
      connectionAttemptCounts := connectionAttemptCounts + 1;
      connection := Opening;
      phase := AwaitingChannels(0);
    }

    /** `on_connected`: the channels are opened next. */
    method OnConnected()
      requires Enabled(Model(), Connected)
      modifies this
      ensures Model() == Step(old(Model()), Connected)
    {
      connection := Open;
    }

    /** `on_connection_error`: retry while under the bound, otherwise give up and free the barrier. */
    method OnConnectionError()
      requires Enabled(Model(), ConnectionError)
      modifies this
      ensures Model() == Step(old(Model()), ConnectionError)
    {
      if connectionAttemptCounts < MAX_CONNECTION_ATTEMPTS {
        connection := Opening;
      } else {
        connection := NoConnection;
        // release four times, once for each communication type
        communicationMutex, releases := communicationMutex + 1, releases + [ConnectionLost];
        communicationMutex, releases := communicationMutex + 1, releases + [ConnectionLost];
        communicationMutex, releases := communicationMutex + 1, releases + [ConnectionLost];
        communicationMutex, releases := communicationMutex + 1, releases + [ConnectionLost];
        assert releases == old(releases) + Repeat(ConnectionLost, 4);
      }
    }

    /** One of the four `declare_*` callbacks finishing its channel's setup. */
    method ChannelSetUp(ch: Channel)
      requires Enabled(Model(), Event.ChannelSetUp(ch))
      modifies this
      ensures Model() == Step(old(Model()), Event.ChannelSetUp(ch))
    {
      communicationMutex := communicationMutex + 1;
      releases := releases + [ChannelReady(ch)];
    }

    /** One turn of the acquire loop that finds a permit; the fourth checks the connection and sends SYSTEM_READY. */
    method Acquire()
      requires Enabled(Model(), Event.Acquire)
      modifies this
      ensures Model() == Step(old(Model()), Event.Acquire)
    {
      communicationMutex := communicationMutex - 1;
      var k := phase.acquired + 1;
      if k < SETUP_CHANNELS {
        phase := AwaitingChannels(k);
      } else if connection == NoConnection {
        phase := Crashed(NoConnectionAfterSetup, k);
      } else {
        SendCommand(SYSTEM_READY);
        phase := AwaitingTermination;
      }
    }

    /** One turn of the acquire loop that waits 120 seconds without a permit: `run` raises. */
    method AcquireTimeout()
      requires Enabled(Model(), Event.AcquireTimeout)
      modifies this
      ensures Model() == Step(old(Model()), Event.AcquireTimeout)
    {
      phase := Crashed(SetupTimeout, phase.acquired);
    }

    /** `handle_command`: whatever the outcome, the message is acknowledged once. */
    method HandleCommand(body: seq<byte>)
      requires Enabled(Model(), Command(body))
      modifies this
      ensures Model() == Step(old(Model()), Command(body))
    {
      var action := RouteSystem(body, sessionId);
      if action == TerminationRequested {
        terminationMutex := terminationMutex + 1;
        terminationRequests := terminationRequests + 1;
      }
      acks := acks + 1;
    }

    /** `termination_mutex.acquire()` returning: `run` leaves. */
    method Terminate()
      requires Enabled(Model(), Event.Terminate)
      modifies this
      ensures Model() == Step(old(Model()), Event.Terminate)
    {
      terminationMutex := terminationMutex - 1;
      phase := Exited;
    }
  }
}
