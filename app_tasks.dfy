/** The decision logic of the task loops in app_tasks.c: one iteration of
    the MQTT task (reconnect with backoff, the `connecting` watchdog,
    subscribe retry, command intake, telemetry publish) and one cycle of the
    display task's frame aggregation.

    Time is the tick count in milliseconds. What an iteration learns from
    outside — the clock, the network results, the frame the mailbox holds,
    the length the telemetry `snprintf` reports — is an input. */
module AppTasks {
  import opened Common
  import opened AppConfig
  import opened AppCtx
  import opened MatrixControl
  import opened MqttApp

  /** `CONNECTING_TIMEOUT` of the watchdog. */
  const CONNECTING_TIMEOUT_MS: nat := 15000

  /** Minimum spacing of connection attempts. */
  const RETRY_BACKOFF_MS: nat := 3000

  /** Size of the telemetry payload buffer. */
  const TELE_BUF: nat := 240

  /** What one iteration of the MQTT task gets from outside: the tick count,
      the results of the network calls it may make, the frame the mailbox
      peek returns (None when it is empty) and the value the telemetry
      `snprintf` returns. */
  datatype Env = Env(
    now: nat,
    allocOk: bool,
    dnsOk: bool,
    connectErr: int,
    subscribeErr: int,
    frame: Option<Frame>,
    payloadLen: int,
    publishErr: int,
    ackAt: Option<nat>,
    ackErr: int)

  /** What the MQTT task works on: the client with its command buffer, its
      local `connecting_since`, and the brightness controller commands go to. */
  datatype TaskState = TaskState(rx: Rx, since: nat, ctrl: Brightness)

  /** The state after one iteration, with what happened in it: a connect
      attempt, a command taken, a frame published, or a failed publish that
      dropped the connection. */
  datatype Iteration = Iteration(s: TaskState, attempted: bool, took: bool, published: bool, dropped: bool)

  // ---------------------------------------------------------------------
  // The MQTT task, one branch at a time
  // ---------------------------------------------------------------------

  datatype Watch = Watch(c: ClientState, since: nat)

  /** Not connected but `connecting`: the first such iteration records the
      time; once more than the timeout has passed since then, `connecting`
      is cleared so that the next iteration retries. */
  function Watchdog(c: ClientState, since: nat, now: nat): (r: Watch)
    ensures r.since == if since == 0 then now else since
    ensures r.c.connecting <==> c.connecting && !(since != 0 && now - since > CONNECTING_TIMEOUT_MS)
    ensures r.c == c.(connecting := r.c.connecting)
  {
    if since == 0 then Watch(c, now)
    else if now - since > CONNECTING_TIMEOUT_MS then Watch(c.(connecting := false), since)
    else Watch(c, since)
  }

  datatype Attempt = Attempt(c: ClientState, attempted: bool)

  /** Neither connected nor connecting: a connect is attempted only when
      more than the backoff has passed since the last attempt, and the time
      of this attempt is recorded before it is made. */
  function Backoff(c: ClientState, e: Env): (r: Attempt)
    requires !c.connected
    ensures r.attempted <==> e.now - c.lastAttempt > RETRY_BACKOFF_MS
    ensures r.c.lastAttempt == if r.attempted then e.now else c.lastAttempt
    ensures !r.attempted ==> r.c == c
    ensures !r.c.connected
    ensures r.c == c.(hasClient := r.c.hasClient, lastAttempt := r.c.lastAttempt)
  {
    if e.now - c.lastAttempt > RETRY_BACKOFF_MS then
      Attempt(ConnectOnce(c.(lastAttempt := e.now), e.allocOk, e.dnsOk, e.connectErr).c, true)
    else Attempt(c, false)
  }

  /** Connected: a pending subscribe is tried, and `need_subscribe` is
      cleared only when it succeeds. */
  function Resubscribe(c: ClientState, subscribeErr: int): (r: ClientState)
    requires c.connected
    ensures r.needSubscribe <==> c.needSubscribe && !(c.hasClient && subscribeErr == ERR_OK)
    ensures r == c.(needSubscribe := r.needSubscribe)
  {
    if c.needSubscribe && SubscribeCmd(c, subscribeErr).ok then c.(needSubscribe := false) else c
  }

  datatype Intake = Intake(c: ClientState, ctrl: Brightness, took: bool)

  /** Connected: a pending command is taken into 96- and 256-byte buffers
      and handed to the brightness controller. */
  function TakeAndApply(rx: Rx, ctrl: Brightness): (r: Intake)
    ensures r.took == rx.c.cmdReady
    ensures r.c == rx.c.(cmdReady := false)
    ensures !r.took ==> r.ctrl == ctrl
    ensures r.took ==> r.ctrl == ApplyCmd(ctrl, Some(Snprintf(rx.buf, CMD_BUF)))
    ensures InRange(ctrl) ==> InRange(r.ctrl)
  {
    var tk := TakeCmd(rx, TOPIC_BUF, CMD_BUF);
    Intake(tk.c, if tk.ok then ApplyCmd(ctrl, Some(tk.payload)) else ctrl, tk.ok)
  }

  /** A frame is worth publishing: there is one, it is not the last one
      sent, and its payload fit the 240-byte buffer. */
  predicate Sendable(c: ClientState, e: Env) {
    e.frame.Some? && e.frame.value.seqNum != c.lastSentSeq && 0 < e.payloadLen < TELE_BUF
  }

  datatype Tx = Tx(c: ClientState, published: bool, dropped: bool)

  /** Connected: the telemetry publish. Nothing happens unless the frame is
      sendable; a failed publish marks the client disconnected, not
      connecting and not subscribed. */
  function Transmit(c: ClientState, e: Env): (r: Tx)
    ensures !Sendable(c, e) ==> r == Tx(c, false, false)
    ensures r.published <==> Sendable(c, e) && c.hasClient && c.connected && e.publishErr == ERR_OK
                             && AckInTime(e.ackAt) && e.ackErr == ERR_OK
    ensures r.dropped <==> Sendable(c, e) && !r.published
    ensures r.c.lastSentSeq == if r.published then e.frame.value.seqNum else c.lastSentSeq
    ensures r.dropped ==> !r.c.connected && !r.c.connecting && !r.c.needSubscribe
    ensures !r.dropped ==> r.c.connected == c.connected && r.c.connecting == c.connecting
                           && r.c.needSubscribe == c.needSubscribe
    ensures r.c.cmdReady == c.cmdReady && r.c.cmdLen == c.cmdLen
    ensures r.c.lastAttempt == c.lastAttempt && r.c.hasClient == c.hasClient
  {
    if !Sendable(c, e) then Tx(c, false, false)
    else
      var p := PublishFrame(c, MQTT_QOS, e.frame.value.seqNum, e.publishErr, e.ackAt, e.ackErr);
      if p.ok then Tx(p.c, true, false)
      else Tx(p.c.(connected := false, connecting := false, needSubscribe := false), false, true)
  }

  /** One iteration of `vTaskMqtt`: the connection event is acknowledged;
      without a connection the watchdog or the backoff runs; with one,
      subscribe, command intake and telemetry run in that order. */
  function MqttStep(s: TaskState, e: Env): (r: Iteration)
    ensures r.s.rx.buf == s.rx.buf && r.s.rx.c.cmdLen == s.rx.c.cmdLen
    ensures !r.s.rx.c.connEvent
    ensures !s.rx.c.connecting ==> !r.s.rx.c.connecting
    ensures r.attempted <==> !s.rx.c.connected && !s.rx.c.connecting && e.now - s.rx.c.lastAttempt > RETRY_BACKOFF_MS
    ensures r.s.rx.c.lastAttempt == if r.attempted then e.now else s.rx.c.lastAttempt
    ensures r.s.since == if !s.rx.c.connected && s.rx.c.connecting then (if s.since == 0 then e.now else s.since) else 0
    ensures !s.rx.c.connected && s.rx.c.connecting && s.since != 0 && e.now - s.since > CONNECTING_TIMEOUT_MS
            ==> !r.s.rx.c.connecting
    ensures r.took <==> s.rx.c.connected && s.rx.c.cmdReady
    ensures r.s.rx.c.cmdReady <==> s.rx.c.cmdReady && !r.took
    ensures !r.took ==> r.s.ctrl == s.ctrl
    ensures InRange(s.ctrl) ==> InRange(r.s.ctrl)
    ensures r.published ==> s.rx.c.connected && e.frame.Some? && e.frame.value.seqNum != s.rx.c.lastSentSeq
    ensures r.s.rx.c.lastSentSeq == if r.published then e.frame.value.seqNum else s.rx.c.lastSentSeq
    ensures r.dropped ==> s.rx.c.connected && !r.s.rx.c.connected && !r.s.rx.c.connecting && !r.s.rx.c.needSubscribe
    ensures s.rx.c.connected && s.rx.c.needSubscribe && !(s.rx.c.hasClient && e.subscribeErr == ERR_OK) && !r.dropped
            ==> r.s.rx.c.needSubscribe
  {
    var c := s.rx.c.(connEvent := false);
    if !c.connected then
      if c.connecting then
        var w := Watchdog(c, s.since, e.now);
        Iteration(TaskState(Rx(w.c, s.rx.buf), w.since, s.ctrl), false, false, false, false)
      else
        var a := Backoff(c, e);
        Iteration(TaskState(Rx(a.c, s.rx.buf), 0, s.ctrl), a.attempted, false, false, false)
    else
      var c1 := Resubscribe(c, e.subscribeErr);
      var i := TakeAndApply(Rx(c1, s.rx.buf), s.ctrl);
      var t := Transmit(i.c, e);
      Iteration(TaskState(Rx(t.c, s.rx.buf), 0, i.ctrl), false, i.took, t.published, t.dropped)
  }

  /** The iteration acknowledges the connection event first, so a raised
      event makes no difference to it. */
  lemma EventIgnored(s: TaskState, e: Env)
    ensures MqttStep(s.(rx := s.rx.(c := s.rx.c.(connEvent := false))), e) == MqttStep(s, e)
  {
  }

  // ---------------------------------------------------------------------
  // Runs: task iterations interleaved with the client's callbacks
  // ---------------------------------------------------------------------

  /** What can happen between two observations of the client: an iteration
      of the task, or one of lwIP's callbacks. */
  datatype Event =
    | Iterate(e: Env)
    | Connection(status: int)
    | PublishBegin(topic: seq<char>)
    | Data(data: seq<char>, flags: bv8)

  /** The command buffer has its size and `cmd_len` stays below it. */
  predicate Shaped(s: TaskState) {
    |s.rx.buf| == CMD_BUF && s.rx.c.cmdLen < CMD_BUF
  }

  /** lwIP hands the data callback at most 65535 bytes. */
  predicate EventOk(ev: Event) {
    ev.Data? ==> |ev.data| < 0x1_0000
  }

  predicate EventsOk(evs: seq<Event>) {
    forall i :: 0 <= i < |evs| ==> EventOk(evs[i])
  }

  /** One event; a callback attempts, takes and publishes nothing. */
  function Apply(s: TaskState, ev: Event): (r: Iteration)
    requires Shaped(s) && EventOk(ev)
    ensures Shaped(r.s)
    ensures !ev.Iterate? ==> !r.attempted && !r.published
    ensures !ev.Iterate? ==> r.s.rx.c.lastAttempt == s.rx.c.lastAttempt && r.s.rx.c.lastSentSeq == s.rx.c.lastSentSeq
    ensures !ev.Iterate? ==> r.s.since == s.since && r.s.rx.c.connecting == s.rx.c.connecting
  {
    match ev
    case Iterate(e) => MqttStep(s, e)
    case Connection(status) =>
      Iteration(s.(rx := Rx(OnConnection(s.rx.c, status), s.rx.buf)), false, false, false, false)
    case PublishBegin(topic) =>
      Iteration(s.(rx := OnPublishBegin(s.rx, topic)), false, false, false, false)
    case Data(d, flags) =>
      Iteration(s.(rx := OnData(s.rx, d, flags)), false, false, false, false)
  }

  function Run(s: TaskState, evs: seq<Event>): TaskState
    requires Shaped(s) && EventsOk(evs)
    decreases |evs|
  {
    if evs == [] then s else Run(Apply(s, evs[0]).s, evs[1..])
  }

  /** The times of the connect attempts of a run, in order. */
  function Attempts(s: TaskState, evs: seq<Event>): seq<int>
    requires Shaped(s) && EventsOk(evs)
    decreases |evs|
  {
    if evs == [] then []
    else
      var it := Apply(s, evs[0]);
      (if it.attempted then [evs[0].e.now] else []) + Attempts(it.s, evs[1..])
  }

  /** Connect attempts are more than the backoff apart, the first one more
      than the backoff after the last attempt before the run, and the client
      remembers the latest one. */
  lemma {:induction false} AttemptsSpaced(s: TaskState, evs: seq<Event>)
    requires Shaped(s) && EventsOk(evs)
    decreases |evs|
    ensures var a := Attempts(s, evs);
      && (a != [] ==> a[0] - s.rx.c.lastAttempt > RETRY_BACKOFF_MS)
      && (forall i :: 0 < i < |a| ==> a[i] - a[i - 1] > RETRY_BACKOFF_MS)
      && Run(s, evs).rx.c.lastAttempt == if a == [] then s.rx.c.lastAttempt else a[|a| - 1]
  {
    if evs != [] {
      var it := Apply(s, evs[0]);
      AttemptsSpaced(it.s, evs[1..]);
      var rest := Attempts(it.s, evs[1..]);
      if it.attempted {
        var a := [evs[0].e.now] + rest;
        assert Attempts(s, evs) == a;
        forall i | 0 < i < |a|
          ensures a[i] - a[i - 1] > RETRY_BACKOFF_MS
        {
          if i > 1 {
            assert a[i] == rest[i - 1] && a[i - 1] == rest[i - 2];
          }
        }
      } else {
        assert Attempts(s, evs) == rest;
      }
    }
  }

  /** After boot (`last_attempt` is 0) the first connect waits for more
      than the backoff. */
  lemma FirstAttemptAfterBackoff(s: TaskState, evs: seq<Event>)
    requires Shaped(s) && EventsOk(evs) && s.rx.c.lastAttempt == 0
    requires Attempts(s, evs) != []
    ensures Attempts(s, evs)[0] > RETRY_BACKOFF_MS
  {
    AttemptsSpaced(s, evs);
  }

  /** The sequence numbers the run publishes, in order. */
  function Published(s: TaskState, evs: seq<Event>): seq<uint32>
    requires Shaped(s) && EventsOk(evs)
    decreases |evs|
  {
    if evs == [] then []
    else
      var it := Apply(s, evs[0]);
      (if it.published then [evs[0].e.frame.value.seqNum] else []) + Published(it.s, evs[1..])
  }

  /** A frame is never published twice in a row: each publish carries a
      sequence number different from the previous one (and from the last
      one sent before the run), and the client remembers the latest. */
  lemma {:induction false} NoRepeatedPublish(s: TaskState, evs: seq<Event>)
    requires Shaped(s) && EventsOk(evs)
    decreases |evs|
    ensures var p := Published(s, evs);
      && (p != [] ==> p[0] != s.rx.c.lastSentSeq)
      && (forall i :: 0 < i < |p| ==> p[i] != p[i - 1])
      && Run(s, evs).rx.c.lastSentSeq == if p == [] then s.rx.c.lastSentSeq else p[|p| - 1]
  {
    if evs != [] {
      var it := Apply(s, evs[0]);
      NoRepeatedPublish(it.s, evs[1..]);
      var rest := Published(it.s, evs[1..]);
      if it.published {
        var p := [evs[0].e.frame.value.seqNum] + rest;
        assert Published(s, evs) == p;
        forall i | 0 < i < |p|
          ensures p[i] != p[i - 1]
        {
          if i > 1 {
            assert p[i] == rest[i - 1] && p[i - 1] == rest[i - 2];
          }
        }
      } else {
        assert Published(s, evs) == rest;
      }
    }
  }

  /** Nothing in the firmware raises `connecting`: from a state where it is
      clear (as `mqtt_app_init` leaves it) it stays clear, so the watchdog
      never starts and `connecting_since` stays 0. */
  lemma {:induction false} WatchdogNeverRuns(s: TaskState, evs: seq<Event>)
    requires Shaped(s) && EventsOk(evs)
    requires !s.rx.c.connecting && s.since == 0
    decreases |evs|
    ensures !Run(s, evs).rx.c.connecting && Run(s, evs).since == 0
  {
    if evs != [] {
      WatchdogNeverRuns(Apply(s, evs[0]).s, evs[1..]);
    }
  }

  // ---------------------------------------------------------------------
  // The MQTT task as the firmware runs it
  // ---------------------------------------------------------------------

  /** `vTaskMqtt`'s view: the client and the controller it shares with the
      other tasks, and its local `connecting_since`. */
  class MqttTask {
    const client: Client
    const ctrl: Controller
    var since: nat

    constructor (client: Client, ctrl: Controller)
      ensures this.client == client && this.ctrl == ctrl && since == 0
    {
      this.client := client;
      this.ctrl := ctrl;
      since := 0;
    }

    function State(): TaskState
      reads this, client, client.cmdBuf, ctrl
    {
      TaskState(client.Inbox(), since, ctrl.State())
    }

    /** One pass of the task's loop body. */
    method Iterate(e: Env) returns (attempted: bool, took: bool, published: bool, dropped: bool)
      requires client.Valid()
      modifies this, client, ctrl
      ensures client.Valid()
      ensures Iteration(State(), attempted, took, published, dropped) == MqttStep(old(State()), e)
    {
      ghost var s0 := State();
      if client.connEvent {
        client.connEvent := false;
      }
      assert State() == s0.(rx := s0.rx.(c := s0.rx.c.(connEvent := false)));
      EventIgnored(s0, e);
      attempted, took, published, dropped := Body(e);
    }

    /** The loop body once the connection event is acknowledged. */
    method Body(e: Env) returns (attempted: bool, took: bool, published: bool, dropped: bool)
      requires client.Valid() && !client.connEvent
      modifies this, client, ctrl
      ensures client.Valid()
      ensures Iteration(State(), attempted, took, published, dropped) == MqttStep(old(State()), e)
    {
      if !client.connected {
        attempted := Offline(e);
        took, published, dropped := false, false, false;
      } else {
        attempted := false;
        took, published, dropped := Online(e);
      }
    }

    /** The loop body without a connection, once the event is acknowledged. */
    method Offline(e: Env) returns (attempted: bool)
      requires !client.connected && !client.connEvent
      requires client.Valid()
      modifies this, client
      ensures client.Valid()
      ensures Iteration(State(), attempted, false, false, false) == MqttStep(old(State()), e)
    {
      if client.connecting {
        Watch(e.now);
        attempted := false;
      } else {
        attempted := Reconnect(e);
      }
    }

    /** The loop body with a connection, once the event is acknowledged. */
    method Online(e: Env) returns (took: bool, published: bool, dropped: bool)
      requires client.connected && !client.connEvent
      requires client.Valid()
      modifies this, client, ctrl
      ensures client.Valid()
      ensures Iteration(State(), false, took, published, dropped) == MqttStep(old(State()), e)
    {
      ghost var s0 := State();
      ghost var i := TakeAndApply(Rx(Resubscribe(s0.rx.c, e.subscribeErr), s0.rx.buf), s0.ctrl);
      since := 0;
      took := Serve(e.subscribeErr);
      assert client.State() == i.c && ctrl.State() == i.ctrl;
      published, dropped := SendTelemetry(e);
      ghost var t := Transmit(i.c, e);
      assert State() == TaskState(Rx(t.c, s0.rx.buf), 0, i.ctrl);
    }

    /** The watchdog branch. */
    method Watch(now: nat)
      requires !client.connected && client.connecting
      requires client.Valid()
      modifies this, client
      ensures client.Valid()
      ensures since == Watchdog(old(client.State()), old(since), now).since
      ensures client.State() == Watchdog(old(client.State()), old(since), now).c
    {
      if since == 0 {
        since := now;
      } else if now - since > CONNECTING_TIMEOUT_MS {
        client.connecting := false;
      }
    }

    /** The backoff branch. */
    method Reconnect(e: Env) returns (attempted: bool)
      requires !client.connected
      requires client.Valid()
      modifies this, client
      ensures client.Valid()
      ensures since == 0
      ensures Attempt(client.State(), attempted) == Backoff(old(client.State()), e)
    {
      since := 0;
      attempted := false;
      if e.now - client.lastAttempt > RETRY_BACKOFF_MS {
        client.lastAttempt := e.now;
        var connectOk := client.ConnectOnceCall(e.allocOk, e.dnsOk, e.connectErr);
        attempted := true;
      }
    }

    /** Subscribe, then command intake. */
    method Serve(subscribeErr: int) returns (took: bool)
      requires client.connected
      requires client.Valid()
      modifies client, ctrl
      ensures client.Valid()
      ensures var i := TakeAndApply(Rx(Resubscribe(old(client.State()), subscribeErr), client.cmdBuf[..]), old(ctrl.State()));
        client.State() == i.c && ctrl.State() == i.ctrl && took == i.took
    {
      if client.needSubscribe {
        var ok := client.SubscribeCmdCall(subscribeErr);
        if ok {
          client.needSubscribe := false;
        }
      }
      var topic, payload;
      took, topic, payload := client.TakeCmdCall(TOPIC_BUF, CMD_BUF);
      if took {
        ctrl.ApplyCmdPayload(Some(payload));
      }
    }

    /** The telemetry branch. */
    method SendTelemetry(e: Env) returns (published: bool, dropped: bool)
      requires client.Valid()
      modifies client
      ensures client.Valid()
      ensures Tx(client.State(), published, dropped) == Transmit(old(client.State()), e)
    {
      published, dropped := false, false;
      if e.frame.None? || e.frame.value.seqNum == client.lastSentSeq {
        return;
      }
      if e.payloadLen <= 0 || e.payloadLen >= TELE_BUF {
        return;
      }
      var ok := client.PublishFrameCall(MQTT_QOS, e.frame.value.seqNum, e.publishErr, e.ackAt, e.ackErr);
      if ok {
        published := true;
      } else {
        client.connected := false;
        client.connecting := false;
        client.needSubscribe := false;
        dropped := true;
      }
    }
  }

  // ---------------------------------------------------------------------
  // Frame aggregation in the display task
  // ---------------------------------------------------------------------

  /** What one display cycle reads: temperature and humidity (blocking
      receives), the lux and percent mailbox peeks (None when empty), and
      the tick count. */
  datatype Reading = Reading(temp: real, hum: real, luxPeek: Option<real>, percPeek: Option<real>, now: nat)

  /** The display task's locals: the last lux and percent it read, and the
      frame it keeps building. */
  datatype Display = Display(lux: real, perc: real, frame: Frame)

  /** The locals before the loop: zero readings, the zeroed frame. */
  const DISPLAY_INITIAL := Display(0.0, 0.0, Frame(0.0, 0.0, 0.0, 0.0, 0, 0))

  /** The value a peek leaves in a local: the peeked value, or the last one. */
  function Peeked(last: real, peek: Option<real>): real {
    if peek.Some? then peek.value else last
  }

  /** One display cycle: the frame takes this cycle's readings, the
      sequence number (a `uint32_t`) goes up by one and the tick is
      stamped. */
  function Aggregate(d: Display, r: Reading): (n: Display)
    ensures n.lux == Peeked(d.lux, r.luxPeek) && n.perc == Peeked(d.perc, r.percPeek)
    ensures n.frame == Frame(n.lux, n.perc, r.temp, r.hum, (d.frame.seqNum + 1) % U32, r.now)
  {
    var lux := Peeked(d.lux, r.luxPeek);
    var perc := Peeked(d.perc, r.percPeek);
    Display(lux, perc, Frame(lux, perc, r.temp, r.hum, (d.frame.seqNum + 1) % U32, r.now))
  }

  /** Cycles in order, the latest last. */
  function AggregateAll(d: Display, rs: seq<Reading>): Display
    decreases |rs|
  {
    if rs == [] then d else Aggregate(AggregateAll(d, rs[..|rs| - 1]), rs[|rs| - 1])
  }

  /** The latest value among the peeks that succeeded, or `dflt` when none did. */
  function LatestLux(dflt: real, rs: seq<Reading>): real
    decreases |rs|
  {
    if rs == [] then dflt
    else if rs[|rs| - 1].luxPeek.Some? then rs[|rs| - 1].luxPeek.value
    else LatestLux(dflt, rs[..|rs| - 1])
  }

  function LatestPerc(dflt: real, rs: seq<Reading>): real
    decreases |rs|
  {
    if rs == [] then dflt
    else if rs[|rs| - 1].percPeek.Some? then rs[|rs| - 1].percPeek.value
    else LatestPerc(dflt, rs[..|rs| - 1])
  }

  /** The k-th frame built after boot carries sequence number k (modulo
      2^32): frames are numbered 1, 2, 3, … */
  lemma {:induction false} FramesNumbered(rs: seq<Reading>)
    decreases |rs|
    ensures AggregateAll(DISPLAY_INITIAL, rs).frame.seqNum == |rs| % U32
  {
    if rs != [] {
      FramesNumbered(rs[..|rs| - 1]);
    }
  }

  /** A failed peek reuses the last value read: every frame carries the
      latest lux and percent that any peek returned. */
  lemma {:induction false} PeeksReused(d: Display, rs: seq<Reading>)
    decreases |rs|
    ensures AggregateAll(d, rs).lux == LatestLux(d.lux, rs)
    ensures AggregateAll(d, rs).perc == LatestPerc(d.perc, rs)
    ensures rs != [] ==> AggregateAll(d, rs).frame.lux == LatestLux(d.lux, rs)
    ensures rs != [] ==> AggregateAll(d, rs).frame.luxPercLum == LatestPerc(d.perc, rs)
  {
    if rs != [] {
      PeeksReused(d, rs[..|rs| - 1]);
    }
  }

  /** `vTaskDisplay`'s locals. */
  class DisplayTask {
    var lux: real
    var perc: real
    var frame: Frame

    function State(): Display
      reads this
    {
      Display(lux, perc, frame)
    }

    constructor ()
      ensures State() == DISPLAY_INITIAL
    {
      lux, perc := 0.0, 0.0;
      frame := Frame(0.0, 0.0, 0.0, 0.0, 0, 0);
    }

    /** One pass of the loop body up to the mailbox write; `out` is the
        frame written to the mailbox. */
    method Cycle(r: Reading) returns (out: Frame)
      modifies this
      ensures State() == Aggregate(old(State()), r)
      ensures out == frame
    {
      if r.luxPeek.Some? {
        lux := r.luxPeek.value;
      }
      if r.percPeek.Some? {
        perc := r.percPeek.value;
      }
      frame := frame.(lux := lux, luxPercLum := perc, temp := r.temp, hum := r.hum);
      frame := frame.(seqNum := (frame.seqNum + 1) % U32);
      frame := frame.(tick := r.now);
      out := frame;
    }
  }
}
