/**
  The node-side agent of the fleet's command-and-control protocol: class `Client`
  of client/utils/client_com.py.

  The two ZMQ sockets are abstracted away. What the agent sends on its messaging
  (DEALER) socket is recorded in an outbox, a sequence of multipart messages; the
  sync (SUB) socket only receives. The clock, the frames a poll returns and whether
  a non-blocking send would block are inputs of the operations that use them.
*/
module ClientCom {
  import opened Wrappers

  // ---------------------------------------------------------------------------
  // Frames
  // ---------------------------------------------------------------------------

  /** A frame on the wire. Frames are taken to be valid UTF-8, so `str.encode`
      and `bytes.decode` are the identity on this type. */
  type Frame = string

  /** A multipart message: frame 0 names the message type, the rest is payload. */
  type Message = seq<Frame>

  const Heartbeat: Message := ["heartbeat", "alive"]
  const Pong: Message := ["pong", "ok"]
  const UnknownCommandError: Message := ["error", "unknown_command"]

  // ---------------------------------------------------------------------------
  // Settings, endpoints and the node identity (Client.__init__)
  // ---------------------------------------------------------------------------

  /** The `server` section of the YAML settings; each value is its `str` form. */
  datatype ServerSettings = ServerSettings(host: Option<string>, messagingPort: Option<string>, syncPort: Option<string>)

  /** The parts of the YAML settings the client reads. */
  datatype Settings = Settings(server: Option<ServerSettings>, heartbeatInterval: Option<real>)

  const DefaultHeartbeatInterval: real := 5.0

  /** What `__init__` derives before it touches a socket. */
  datatype Config = Config(
    messagingEndpoint: string,
    syncEndpoint: string,
    heartbeatInterval: real,
    hostname: string,
    clientId: Frame)

  /** The `ValueError` raised for a hostname that is not of the form `rpi-<ID>`. */
  datatype InitError = HostnameMismatch(hostname: string)

  /** Whether `c` matches the pattern letter `i` under `re.IGNORECASE`: Python's
      matcher also accepts dotted capital I (U+0130) and dotless small i (U+0131). */
  predicate MatchesLetterI(c: char) {
    c == 'i' || c == 'I' || c == '\U{130}' || c == '\U{131}'
  }

  /** `h` starts with `rpi-`, compared case-insensitively. */
  predicate HasNodePrefix(h: string) {
    |h| >= 4
    && (h[0] == 'r' || h[0] == 'R')
    && (h[1] == 'p' || h[1] == 'P')
    && MatchesLetterI(h[2])
    && h[3] == '-'
  }

  /** The longest prefix of `s` that holds no newline: what a greedy `.` run consumes. */
  function FirstLine(s: string): (r: string)
    ensures r <= s
    ensures '\n' !in r
    ensures |r| < |s| ==> s[|r|] == '\n'
  {
    if |s| == 0 || s[0] == '\n' then "" else [s[0]] + FirstLine(s[1..])
  }

  /** The group captured by `re.match(r"rpi-(.+)", h, re.IGNORECASE)`, or None when
      the hostname does not match. */
  function NodeId(h: string): (g: Option<string>)
    ensures g.Some? <==> HasNodePrefix(h) && |h| > 4 && h[4] != '\n'
    ensures g.Some? ==> g.value != [] && '\n' !in g.value && g.value <= h[4..]
    ensures g.Some? ==> |g.value| == |h| - 4 || h[4 + |g.value|] == '\n'
  {
    if HasNodePrefix(h) && FirstLine(h[4..]) != "" then Some(FirstLine(h[4..])) else None
  }

  /** `f"tcp://{host}:{port}"`; the host and the port can be read back from it. */
  function Endpoint(host: string, port: string): (e: string)
    ensures |e| == 7 + |host| + |port|
    ensures e[..6] == "tcp://" && e[6..6 + |host|] == host && e[6 + |host|] == ':'
    ensures e[7 + |host|..] == port
  {
    "tcp://" + host + ":" + port
  }

  /** The settings, endpoints and identity `__init__` derives from the settings and
      the machine's hostname; a hostname that does not match raises. */
  function Configure(settings: Settings, machineHostname: string): (r: Result<Config, InitError>)
    ensures r.Failure? <==> NodeId(machineHostname).None?
    ensures r.Failure? ==> r.error == HostnameMismatch(machineHostname)
    ensures r.Success? ==>
      && r.value.hostname == machineHostname[4..]
      && NodeId(machineHostname) == Some(r.value.clientId)
    ensures r.Success? ==>
      var server := settings.server.GetOr(ServerSettings(None, None, None));
      && r.value.messagingEndpoint == Endpoint(server.host.GetOr(""), server.messagingPort.GetOr(""))
      && r.value.syncEndpoint == Endpoint(server.host.GetOr(""), server.syncPort.GetOr(""))
    ensures r.Success? ==>
      r.value.heartbeatInterval == if settings.heartbeatInterval.Some? then settings.heartbeatInterval.value
                                   else DefaultHeartbeatInterval
  {
    var server := settings.server.GetOr(ServerSettings(None, None, None));
    var host := server.host.GetOr("");
    var messagingEndpoint := Endpoint(host, server.messagingPort.GetOr(""));
    var syncEndpoint := Endpoint(host, server.syncPort.GetOr(""));
    var interval := settings.heartbeatInterval.GetOr(DefaultHeartbeatInterval);
    match NodeId(machineHostname)
    case None => Failure(HostnameMismatch(machineHostname))
    case Some(id) => Success(Config(messagingEndpoint, syncEndpoint, interval, machineHostname[4..], id))
  }

  /** The stored `hostname` field and the socket identity `client_id` agree exactly
      when the hostname has no newline; otherwise the identity is its first line. */
  lemma ClientIdIsHostname(settings: Settings, machineHostname: string)
    requires Configure(settings, machineHostname).Success?
    ensures var c := Configure(settings, machineHostname).value;
      (c.clientId == c.hostname <==> '\n' !in c.hostname) && c.clientId <= c.hostname
  {
  }

  /** Examples of the hostname rule. */
  lemma NodeIdExamples()
    ensures NodeId("rpi-a05") == Some("a05")
    ensures NodeId("RPi-7") == Some("7")
    ensures NodeId("rpi-") == None
    ensures NodeId("tile-3") == None
    ensures NodeId("xrpi-3") == None
  {
    assert FirstLine("5") == "5" && FirstLine("05") == "05" && FirstLine("a05") == "a05";
    assert FirstLine("7") == "7";
  }

  /** The two endpoints share the host and differ exactly when the ports differ. */
  lemma EndpointsDifferOnlyInPort(host: string, messagingPort: string, syncPort: string)
    ensures Endpoint(host, messagingPort)[..7 + |host|] == Endpoint(host, syncPort)[..7 + |host|]
    ensures Endpoint(host, messagingPort) == Endpoint(host, syncPort) <==> messagingPort == syncPort
  {
  }

  // ---------------------------------------------------------------------------
  // Outbound framing (Client.send)
  // ---------------------------------------------------------------------------

  /** A payload argument of `send`: a `str` or a `bytes` frame. */
  datatype Payload = Text(text: string) | Raw(frame: Frame)

  /** A `str` payload is encoded; a `bytes` payload is passed through unchanged. */
  function Encoded(p: Payload): Frame {
    match p
    case Text(s) => s
    case Raw(b) => b
  }

  /** `m` is the message `send(msgType, payload...)` emits: the type first, then
      every payload frame, encoded, in its original order. */
  predicate FramedAs(m: Message, msgType: string, payload: seq<Payload>) {
    && |m| == |payload| + 1
    && m[0] == msgType
    && forall i :: 0 <= i < |payload| ==> m[i + 1] == Encoded(payload[i])
  }

  /** The frame list `send` builds by appending one frame per payload argument. */
  method BuildFrames(msgType: string, payload: seq<Payload>) returns (frames: Message)
    ensures FramedAs(frames, msgType, payload)
  {
    frames := [msgType];
    for i := 0 to |payload|
      invariant |frames| == i + 1 && frames[0] == msgType
      invariant forall k :: 0 <= k < i ==> frames[k + 1] == Encoded(payload[k])
    {
      var frame := Encoded(payload[i]);
      frames := frames + [frame];
    }
  }

  /** The framing determines the message: `send` emits exactly one frame list. */
  lemma FramingIsUnique(m1: Message, m2: Message, msgType: string, payload: seq<Payload>)
    requires FramedAs(m1, msgType, payload) && FramedAs(m2, msgType, payload)
    ensures m1 == m2
  {
    forall i | 0 <= i < |m1|
      ensures m1[i] == m2[i]
    {
      if i > 0 {
        assert m1[i] == Encoded(payload[i - 1]) == m2[i];
      }
    }
  }

  // ---------------------------------------------------------------------------
  // Inbound dispatch (Client._handle_server_message)
  // ---------------------------------------------------------------------------

  /** A registered callable, known only by its identity. */
  datatype Handler = Handler(name: string)

  /** What handling one inbound frame list did. */
  datatype Outcome =
    | Ignored                                      // empty frame list
    | Invoked(handler: Handler, command: string, args: seq<string>, raised: bool)
    | Ponged                                       // built-in `ping`
    | UnknownCommand(command: string)

  /** The dispatch decision for `frames`. A registered callback always wins, also
      for `ping`; whether it raised (the exception is caught) is an input. */
  function Dispatch(callbacks: map<string, Handler>, frames: Message, callbackRaises: bool): (o: Outcome)
    ensures o.Ignored? <==> frames == []
    ensures o.Invoked? <==> frames != [] && frames[0] in callbacks
    ensures o.Invoked? ==>
      o == Invoked(callbacks[frames[0]], frames[0], frames[1..], callbackRaises)
    ensures o.Ponged? <==> frames != [] && frames[0] !in callbacks && frames[0] == "ping"
    ensures o.UnknownCommand? <==> frames != [] && frames[0] !in callbacks && frames[0] != "ping"
    ensures o.UnknownCommand? ==> o.command == frames[0]
  {
    if frames == [] then Ignored
    else
      var command := frames[0];
      var args := frames[1..];
      if command in callbacks then Invoked(callbacks[command], command, args, callbackRaises)
      else if command == "ping" then Ponged
      else UnknownCommand(command)
  }

  /** The built-in reply an outcome calls for; none after a callback ran. */
  function Reply(o: Outcome): (r: Option<Message>)
    ensures r.Some? <==> o.Ponged? || o.UnknownCommand?
    ensures r.Some? ==> r.value in {Pong, UnknownCommandError}
    ensures o.Ponged? ==> r == Some(Pong)
    ensures o.UnknownCommand? ==> r == Some(UnknownCommandError)
  {
    match o
    case Ponged => Some(Pong)
    case UnknownCommand(_) => Some(UnknownCommandError)
    case _ => None
  }

  /** What a `zmq.NOBLOCK` send of `reply` adds to the outbox: nothing when the
      send would block (`zmq.Again` is caught) or there is nothing to send. */
  function Deliver(reply: Option<Message>, wouldBlock: bool): (sent: seq<Message>)
    ensures |sent| <= 1
    ensures sent != [] <==> reply.Some? && !wouldBlock
    ensures sent != [] ==> sent == [reply.value]
  {
    if reply.Some? && !wouldBlock then [reply.value] else []
  }

  /** The whole reaction to one frame list: at most one message is sent, and which. */
  lemma DispatchReaction(callbacks: map<string, Handler>, frames: Message, callbackRaises: bool, replyBlocks: bool)
    ensures var sent := Deliver(Reply(Dispatch(callbacks, frames, callbackRaises)), replyBlocks);
      && (frames == [] ==> sent == [])
      && (frames != [] && frames[0] in callbacks ==> sent == [])
      && (frames != [] && frames[0] !in callbacks && frames[0] == "ping" ==>
            sent == if replyBlocks then [] else [Pong])
      && (frames != [] && frames[0] !in callbacks && frames[0] != "ping" ==>
            sent == if replyBlocks then [] else [UnknownCommandError])
  {
  }

  /** What `send(msgType, payload...)` emits is dispatched, on the receiving side's
      handler table, with the encoded payload as arguments. */
  lemma SendThenDispatch(callbacks: map<string, Handler>, m: Message, msgType: string, payload: seq<Payload>, raises: bool)
    requires FramedAs(m, msgType, payload)
    requires msgType in callbacks
    ensures Dispatch(callbacks, m, raises) == Invoked(callbacks[msgType], msgType, m[1..], raises)
    ensures |m[1..]| == |payload| && forall i :: 0 <= i < |payload| ==> m[1..][i] == Encoded(payload[i])
  {
  }

  /** Registering `command` makes it dispatch to the new handler and leaves every
      other command's dispatch as it was. */
  lemma RegisterThenDispatch(callbacks: map<string, Handler>, command: string, f: Handler, frames: Message, raises: bool)
    ensures frames != [] && frames[0] == command ==>
      Dispatch(callbacks[command := f], frames, raises) == Invoked(f, command, frames[1..], raises)
    ensures frames != [] && frames[0] != command ==>
      Dispatch(callbacks[command := f], frames, raises) == Dispatch(callbacks, frames, raises)
  {
  }

  // ---------------------------------------------------------------------------
  // One iteration of the event loop (Client._run)
  // ---------------------------------------------------------------------------

  /** Whether an iteration at clock reading `now` attempts a heartbeat. */
  predicate HeartbeatDue(now: real, last: real, interval: real) {
    now - last >= interval
  }

  /** The value of `last_heartbeat` after an iteration at `now`: moved to `now`
      whenever a heartbeat was attempted, whether or not its send would block. */
  function NextHeartbeat(now: real, last: real, interval: real): real {
    if HeartbeatDue(now, last, interval) then now else last
  }

  /** What polling one socket produced in an iteration. */
  datatype Delivery =
    | NoEvent                                       // the socket is not among the poll events
    | Again                                         // `recv_multipart` raised `zmq.Again`
    | Received(frames: Message, replyBlocks: bool, callbackRaises: bool)

  /** The outcomes and the sends of handling one delivery. */
  function HandleDelivery(callbacks: map<string, Handler>, d: Delivery): (seq<Outcome>, seq<Message>)
  {
    match d
    case Received(frames, replyBlocks, raises) =>
      var o := Dispatch(callbacks, frames, raises);
      ([o], Deliver(Reply(o), replyBlocks))
    case _ => ([], [])
  }

  /** What one iteration did. */
  datatype StepResult = StepResult(
    heartbeatAttempted: bool,
    lastHeartbeat: real,
    handled: seq<Outcome>,
    sent: seq<Message>)

  /** One iteration: the heartbeat decision, then the messaging socket, then the
      sync socket, both through the same handler. `zmq.Again` on the messaging
      socket means `continue`, so the sync socket waits for the next iteration. */
  function Step(callbacks: map<string, Handler>, interval: real, last: real, now: real,
                heartbeatBlocks: bool, messaging: Delivery, sync: Delivery): (s: StepResult)
    ensures s.heartbeatAttempted <==> now - last >= interval
    ensures s.lastHeartbeat == if s.heartbeatAttempted then now else last
    ensures messaging.Again? ==> s.handled == []
  {
    var due := HeartbeatDue(now, last, interval);
    var beat: seq<Message> := if due && !heartbeatBlocks then [Heartbeat] else [];
    var next := NextHeartbeat(now, last, interval);
    if messaging.Again? then StepResult(due, next, [], beat)
    else
      var (o1, s1) := HandleDelivery(callbacks, messaging);
      var (o2, s2) := HandleDelivery(callbacks, sync);
      StepResult(due, next, o1 + o2, beat + s1 + s2)
  }

  /** The parts an iteration's sends are made of, in order. */
  lemma StepParts(callbacks: map<string, Handler>, interval: real, last: real, now: real,
                  heartbeatBlocks: bool, messaging: Delivery, sync: Delivery)
    ensures var s := Step(callbacks, interval, last, now, heartbeatBlocks, messaging, sync);
      var beat: seq<Message> := if HeartbeatDue(now, last, interval) && !heartbeatBlocks then [Heartbeat] else [];
      && s.lastHeartbeat == NextHeartbeat(now, last, interval)
      && s.handled == (if messaging.Again? then []
                       else HandleDelivery(callbacks, messaging).0 + HandleDelivery(callbacks, sync).0)
      && s.sent == (if messaging.Again? then beat
                    else beat + HandleDelivery(callbacks, messaging).1 + HandleDelivery(callbacks, sync).1)
  {
  }

  /** A heartbeat leaves in an iteration exactly when one is due and its send
      would not block (no reply to a command is ever a heartbeat), and then it
      leaves before any reply: the decision is taken before any frame is handled. */
  lemma HeartbeatSentIffDue(callbacks: map<string, Handler>, interval: real, last: real, now: real,
                            heartbeatBlocks: bool, messaging: Delivery, sync: Delivery)
    ensures var s := Step(callbacks, interval, last, now, heartbeatBlocks, messaging, sync);
      && ((Heartbeat in s.sent) <==> HeartbeatDue(now, last, interval) && !heartbeatBlocks)
      && (HeartbeatDue(now, last, interval) && !heartbeatBlocks ==> s.sent[0] == Heartbeat)
      && |s.handled| <= 2 && |s.sent| <= 3
  {
  }

  /** Handling one delivery never sends a heartbeat. */
  lemma DeliveredReplyIsNotHeartbeat(callbacks: map<string, Handler>, d: Delivery)
    ensures Heartbeat !in HandleDelivery(callbacks, d).1
  {
  }

  /** When both sockets deliver, the messaging frames are handled first, and their
      reply, if any, leaves before the reply to the sync frames; both replies go out
      on the messaging socket. */
  lemma StepHandlesMessagingThenSync(callbacks: map<string, Handler>, interval: real, last: real, now: real,
                                     heartbeatBlocks: bool, messaging: Delivery, sync: Delivery)
    requires messaging.Received? && sync.Received?
    ensures var s := Step(callbacks, interval, last, now, heartbeatBlocks, messaging, sync);
      var o1 := Dispatch(callbacks, messaging.frames, messaging.callbackRaises);
      var o2 := Dispatch(callbacks, sync.frames, sync.callbackRaises);
      && s.handled == [o1, o2]
      && s.sent == (if s.heartbeatAttempted && !heartbeatBlocks then [Heartbeat] else [])
                   + Deliver(Reply(o1), messaging.replyBlocks) + Deliver(Reply(o2), sync.replyBlocks)
  {
  }

  /** `last_heartbeat` starts at 0, so the first iteration attempts a heartbeat
      whenever the clock reads at least the interval (a Unix time does). */
  lemma FirstIterationAttemptsHeartbeat(callbacks: map<string, Handler>, interval: real, now: real,
                                        heartbeatBlocks: bool, messaging: Delivery, sync: Delivery)
    requires now >= interval
    ensures var s := Step(callbacks, interval, 0.0, now, heartbeatBlocks, messaging, sync);
      s.heartbeatAttempted && s.lastHeartbeat == now
      && (!heartbeatBlocks ==> s.sent[0] == Heartbeat)
  {
  }

  /** The clock readings at which successive iterations attempt a heartbeat. */
  function HeartbeatAttempts(readings: seq<real>, last: real, interval: real): seq<real>
  {
    if readings == [] then []
    else
      var now := readings[0];
      (if HeartbeatDue(now, last, interval) then [now] else [])
        + HeartbeatAttempts(readings[1..], NextHeartbeat(now, last, interval), interval)
  }

  /** Every attempt in `h` is at least `interval` after the one before it, the
      first at least `interval` after `last`. */
  predicate Spaced(h: seq<real>, last: real, interval: real) {
    && (|h| > 0 ==> h[0] - last >= interval)
    && forall i :: 0 <= i < |h| - 1 ==> h[i + 1] - h[i] >= interval
  }

  /** Over any run, attempted heartbeats are at least one interval apart, and the
      first is at least one interval after the starting `last_heartbeat`. */
  lemma {:induction false} HeartbeatAttemptsSpaced(readings: seq<real>, last: real, interval: real)
    ensures Spaced(HeartbeatAttempts(readings, last, interval), last, interval)
  {
    if readings != [] {
      var now := readings[0];
      var next := NextHeartbeat(now, last, interval);
      HeartbeatAttemptsSpaced(readings[1..], next, interval);
      var tail := HeartbeatAttempts(readings[1..], next, interval);
      var h := HeartbeatAttempts(readings, last, interval);
      if HeartbeatDue(now, last, interval) {
        assert h == [now] + tail;
        forall i | 0 <= i < |h| - 1
          ensures h[i + 1] - h[i] >= interval
        {
          if i > 0 {
            assert h[i + 1] == tail[i] && h[i] == tail[i - 1];
          }
        }
      } else {
        assert h == tail && next == last;
      }
    }
  }

  /** The inputs of one iteration of the event loop. */
  datatype Iteration = Iteration(now: real, heartbeatBlocks: bool, messaging: Delivery, sync: Delivery)

  /** The clock readings of a run of iterations. */
  function Readings(run: seq<Iteration>): (r: seq<real>)
    ensures |r| == |run| && forall i :: 0 <= i < |run| ==> r[i] == run[i].now
  {
    if run == [] then [] else [run[0].now] + Readings(run[1..])
  }

  /** The clock readings at which `Step`, threaded through a run with each
      iteration's `lastHeartbeat` passed to the next, attempts a heartbeat. */
  function StepAttempts(callbacks: map<string, Handler>, interval: real, last: real, run: seq<Iteration>): seq<real>
    decreases run
  {
    if run == [] then []
    else
      var it := run[0];
      var s := Step(callbacks, interval, last, it.now, it.heartbeatBlocks, it.messaging, it.sync);
      (if s.heartbeatAttempted then [it.now] else [])
        + StepAttempts(callbacks, interval, s.lastHeartbeat, run[1..])
  }

  /** Threading `Step` through a run attempts heartbeats at exactly the readings
      `HeartbeatAttempts` gives, so those attempts are spaced at least one interval
      apart. */
  lemma {:induction false} StepAttemptsAreHeartbeatAttempts(callbacks: map<string, Handler>, interval: real,
                                                             last: real, run: seq<Iteration>)
    ensures StepAttempts(callbacks, interval, last, run) == HeartbeatAttempts(Readings(run), last, interval)
    ensures Spaced(StepAttempts(callbacks, interval, last, run), last, interval)
    decreases run
  {
    if run != [] {
      var it := run[0];
      var s := Step(callbacks, interval, last, it.now, it.heartbeatBlocks, it.messaging, it.sync);
      StepAttemptsAreHeartbeatAttempts(callbacks, interval, s.lastHeartbeat, run[1..]);
      assert Readings(run)[1..] == Readings(run[1..]);
      assert s.lastHeartbeat == NextHeartbeat(it.now, last, interval);
    }
    HeartbeatAttemptsSpaced(Readings(run), last, interval);
  }

  // ---------------------------------------------------------------------------
  // The client object
  // ---------------------------------------------------------------------------

  class Client {
    const messagingEndpoint: string
    const syncEndpoint: string
    const heartbeatInterval: real
    const hostname: string
    const clientId: Frame

    /** `running`: set by `start`, cleared by `stop`, the loop's guard. */
    var running: bool
    /** The callback table `on` fills. */
    var callbacks: map<string, Handler>
    /** The messages sent on the messaging socket, oldest first. */
    var outbox: seq<Message>

    /** The state `__init__` leaves once it has derived `cfg`. */
    constructor (cfg: Config)
      ensures messagingEndpoint == cfg.messagingEndpoint && syncEndpoint == cfg.syncEndpoint
      ensures heartbeatInterval == cfg.heartbeatInterval
      ensures hostname == cfg.hostname && clientId == cfg.clientId
      ensures !running && callbacks == map[] && outbox == []
    {
      messagingEndpoint := cfg.messagingEndpoint;
      syncEndpoint := cfg.syncEndpoint;
      heartbeatInterval := cfg.heartbeatInterval;
      hostname := cfg.hostname;
      clientId := cfg.clientId;
      running := false;
      callbacks := map[];
      outbox := [];
    }

    /** `start`: sets `running`; when it is already set nothing changes. */
    method Start()
      modifies this`running
      ensures running
      ensures old(running) ==> unchanged(this)
    {
      if running {
        return;
      }
      running := true;
    }

    /** `stop`: clears `running`; when it is already clear nothing changes. */
    method Stop()
      modifies this`running
      ensures !running
      ensures !old(running) ==> unchanged(this)
    {
      if !running {
        return;
      }
      running := false;
    }

    /** `on(command, func)`: registers `f` for `command`, replacing any earlier
        handler for it and leaving every other entry as it was. */
    method On(command: string, f: Handler)
      modifies this`callbacks
      ensures callbacks == old(callbacks)[command := f]
      ensures command in callbacks && callbacks[command] == f
      ensures forall c :: c != command ==> (c in callbacks <==> c in old(callbacks))
      ensures forall c :: c != command && c in callbacks ==> callbacks[c] == old(callbacks)[c]
    {
      callbacks := callbacks[command := f];
    }

    /** `send(msgType, payload...)`: a blocking send of exactly one message. */
    method Send(msgType: string, payload: seq<Payload>)
      modifies this`outbox
      ensures |outbox| == |old(outbox)| + 1 && outbox[..|old(outbox)|] == old(outbox)
      ensures FramedAs(outbox[|old(outbox)|], msgType, payload)
    {
      var frames := BuildFrames(msgType, payload);
      outbox := outbox + [frames];
    }

    /** A `zmq.NOBLOCK` send of `m`, dropped when it would block. */
    method TrySend(m: Message, wouldBlock: bool)
      modifies this`outbox
      ensures outbox == old(outbox) + Deliver(Some(m), wouldBlock)
    {
      if !wouldBlock {
        outbox := outbox + [m];
      }
    }

    /** `_handle_server_message(frames)`. */
    method HandleServerMessage(frames: Message, replyBlocks: bool, callbackRaises: bool) returns (o: Outcome)
      modifies this`outbox
      ensures o == Dispatch(callbacks, frames, callbackRaises)
      ensures outbox == old(outbox) + Deliver(Reply(o), replyBlocks)
    {
      if frames == [] {
        return Ignored;
      }
      var command := frames[0];
      var args := frames[1..];
      if command in callbacks {
        return Invoked(callbacks[command], command, args, callbackRaises);
      }
      if command == "ping" {
        o := Ponged;
        TrySend(Pong, replyBlocks);
      } else {
        o := UnknownCommand(command);
        TrySend(UnknownCommandError, replyBlocks);
      }
    }

    /** What `_run` does with one socket's poll result: frames that arrived go to
        `_handle_server_message`; no event, or `zmq.Again`, handles nothing. */
    method Receive(d: Delivery) returns (handled: seq<Outcome>)
      modifies this`outbox
      ensures handled == HandleDelivery(callbacks, d).0
      ensures outbox == old(outbox) + HandleDelivery(callbacks, d).1
    {
      handled := [];
      if d.Received? {
        var o := HandleServerMessage(d.frames, d.replyBlocks, d.callbackRaises);
        handled := [o];
      }
    }
  }

  /** Builds a client as `__init__` does, or reports the `ValueError` it raises. */
  method NewClient(settings: Settings, machineHostname: string) returns (r: Result<Client, InitError>)
    ensures r.Failure? <==> Configure(settings, machineHostname).Failure?
    ensures r.Failure? ==> r.error == HostnameMismatch(machineHostname)
    ensures r.Success? ==>
      var cfg := Configure(settings, machineHostname).value;
      && fresh(r.value)
      && r.value.messagingEndpoint == cfg.messagingEndpoint && r.value.syncEndpoint == cfg.syncEndpoint
      && r.value.heartbeatInterval == cfg.heartbeatInterval
      && r.value.hostname == cfg.hostname && r.value.clientId == cfg.clientId
      && !r.value.running && r.value.callbacks == map[] && r.value.outbox == []
  {
    match Configure(settings, machineHostname)
    case Failure(e) =>
      r := Failure(e);
    case Success(cfg) =>
      var c := new Client(cfg);
      r := Success(c);
  }

  /** The state `_run` keeps across iterations of its loop. */
  class EventLoop {
    const client: Client
    var lastHeartbeat: real

    /** `_run` before its first iteration: `last_heartbeat = 0`. */
    constructor (client: Client)
      ensures this.client == client && lastHeartbeat == 0.0
    {
      this.client := client;
      lastHeartbeat := 0.0;
    }

    /** One pass of `while self.running:` at clock reading `now`. */
    method Iterate(now: real, heartbeatBlocks: bool, messaging: Delivery, sync: Delivery) returns (handled: seq<Outcome>)
      requires client.running
      modifies this`lastHeartbeat, client`outbox
      ensures var s := Step(client.callbacks, client.heartbeatInterval, old(lastHeartbeat), now,
                            heartbeatBlocks, messaging, sync);
        && lastHeartbeat == s.lastHeartbeat
        && handled == s.handled
        && client.outbox == old(client.outbox) + s.sent
    {
      StepParts(client.callbacks, client.heartbeatInterval, lastHeartbeat, now, heartbeatBlocks, messaging, sync);
      Beat(now, heartbeatBlocks);
      if messaging.Again? {
        return [];
      }
      var fromMessaging := client.Receive(messaging);
      var fromSync := client.Receive(sync);
      handled := fromMessaging + fromSync;
    }

    /** The heartbeat block of `_run`: a non-blocking heartbeat when one is due. */
    method Beat(now: real, heartbeatBlocks: bool)
      modifies this`lastHeartbeat, client`outbox
      ensures lastHeartbeat == NextHeartbeat(now, old(lastHeartbeat), client.heartbeatInterval)
      ensures client.outbox == old(client.outbox) +
        if HeartbeatDue(now, old(lastHeartbeat), client.heartbeatInterval) && !heartbeatBlocks then [Heartbeat] else []
    {
      if now - lastHeartbeat >= client.heartbeatInterval {
        client.TrySend(Heartbeat, heartbeatBlocks);
        lastHeartbeat := now;
      }
    }
  }
}
