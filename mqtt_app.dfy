/** The MQTT client state of mqtt_app.c: connection flags raised by lwIP's
    callbacks, a single-slot capture of the last inbound command, and the
    publish of one telemetry frame with its ack wait. Network calls (client
    allocation, DNS, connect, subscribe, publish) and the ack are inputs:
    their results and timing are whatever the caller passes in.

    Every operation is first a function on a `ClientState` snapshot (and the
    256-byte command buffer as a sequence); the `Client` class performs it
    on its fields and its buffer array and is proved to agree. */
module MqttApp {
  import opened Common
  import opened AppConfig

  /** Sizes of the fixed buffers of `mqtt_app_t`. */
  const CMD_BUF: nat := 256
  const TOPIC_BUF: nat := 96
  const DEVICE_ID_BUF: nat := 32

  /** lwIP's `err_t` codes and MQTT constants the code compares against. */
  const ERR_OK: int := 0
  const ERR_INPROGRESS: int := -5
  const MQTT_CONNECT_ACCEPTED: int := 0
  const MQTT_DATA_FLAG_LAST: bv8 := 1

  /** `conn_status` before any connection callback. */
  const NO_STATUS: int := -999

  /** The ack wait sleeps 5 ms between polls of `pub_done`. */
  const ACK_POLL_MS: nat := 5

  /** The last poll of `pub_done`: the first multiple of the poll interval
      past the ack timeout (2005 ms). */
  const LAST_POLL_MS: nat := (MQTT_ACK_TIMEOUT_MS / ACK_POLL_MS + 1) * ACK_POLL_MS

  /** The fields of `mqtt_app_t` except the command buffer; `hasClient` says
      whether `client` is non-NULL. */
  datatype ClientState = ClientState(
    hasClient: bool,
    connected: bool,
    connecting: bool,
    needSubscribe: bool,
    connEvent: bool,
    connStatus: int,
    cmdReady: bool,
    cmdLen: nat,
    cmdTopic: seq<char>,
    pubDone: bool,
    pubErr: int,
    deviceId: seq<char>,
    topicTele: seq<char>,
    topicCmd: seq<char>,
    lastAttempt: nat,
    lastSentSeq: uint32)

  /** The client state together with the contents of `cmd_buf`. */
  datatype Rx = Rx(c: ClientState, buf: seq<char>)

  /** The state after a call that reports success or failure. */
  datatype Call = Call(c: ClientState, ok: bool)

  /** What `mqtt_app_take_cmd` leaves and copies out. */
  datatype Taken = Taken(c: ClientState, ok: bool, topic: seq<char>, payload: seq<char>)

  // ---------------------------------------------------------------------
  // Identity and topics
  // ---------------------------------------------------------------------

  /** A topic as `make_topics` formats it into a 96-byte buffer: the prefix,
      the device id, then `tail` ("/telemetry" or "/cmd"). */
  function Topic(id: seq<char>, tail: seq<char>): (t: seq<char>)
    ensures NoNul(id) && |id| < DEVICE_ID_BUF && NoNul(tail) && |tail| <= 10 ==> t == TOPIC_PREFIX + "/" + id + tail
  {
    var full := TOPIC_PREFIX + "/" + id + tail;
    if NoNul(id) && NoNul(tail) then
      NoNulAppend(TOPIC_PREFIX + "/", id);
      NoNulAppend(TOPIC_PREFIX + "/" + id, tail);
      Snprintf(full, TOPIC_BUF)
    else Snprintf(full, TOPIC_BUF)
  }

  /** The telemetry topic. */
  function TeleTopic(id: seq<char>): seq<char> {
    Topic(id, "/telemetry")
  }

  /** The command topic. */
  function CmdTopic(id: seq<char>): seq<char> {
    Topic(id, "/cmd")
  }

  /** The device id `mqtt_app_init` keeps: the override when it is a
      non-empty string, otherwise the board's unique id, cut to 31
      characters either way. */
  function DeviceId(idArg: Option<seq<char>>, boardId: seq<char>): (id: seq<char>)
    ensures NoNul(id) && |id| < DEVICE_ID_BUF
    ensures idArg.Some? && CStr(idArg.value) != [] && |CStr(idArg.value)| < DEVICE_ID_BUF ==> id == CStr(idArg.value)
  {
    if idArg.Some? && CStr(idArg.value) != [] then Snprintf(idArg.value, DEVICE_ID_BUF)
    else Snprintf(boardId, DEVICE_ID_BUF)
  }

  /** The state `mqtt_app_init` leaves: everything zeroed, then the id, the
      topics, the client (if it could be allocated) and `conn_status = -999`. */
  function Initial(idArg: Option<seq<char>>, boardId: seq<char>, allocOk: bool): ClientState {
    var id := DeviceId(idArg, boardId);
    ClientState(allocOk, false, false, false, false, NO_STATUS, false, 0, [], false, 0,
                id, TeleTopic(id), CmdTopic(id), 0, 0)
  }

  /** Every device's telemetry topic differs from every device's command
      topic, and each topic names one device. */
  lemma TopicsDistinct(a: seq<char>, b: seq<char>)
    requires NoNul(a) && |a| < DEVICE_ID_BUF && NoNul(b) && |b| < DEVICE_ID_BUF
    ensures TeleTopic(a) != CmdTopic(b)
    ensures TeleTopic(a) == TeleTopic(b) ==> a == b
    ensures CmdTopic(a) == CmdTopic(b) ==> a == b
  {
    var ta := TeleTopic(a);
    var cb := CmdTopic(b);
    assert ta[|ta| - 1] == 'y' && cb[|cb| - 1] == 'd';
    if TeleTopic(a) == TeleTopic(b) {
      SameMiddle(TOPIC_PREFIX + "/", a, b, "/telemetry");
    }
    if CmdTopic(a) == CmdTopic(b) {
      SameMiddle(TOPIC_PREFIX + "/", a, b, "/cmd");
    }
  }

  /** Equal texts with the same head and tail have the same middle. */
  lemma SameMiddle(h: seq<char>, a: seq<char>, b: seq<char>, t: seq<char>)
    requires h + a + t == h + b + t
    ensures a == b
  {
    var s := h + a + t;
    assert |a| == |b|;
    assert a == s[|h|..|h| + |a|];
    assert b == (h + b + t)[|h|..|h| + |b|];
  }

  // ---------------------------------------------------------------------
  // Command capture
  // ---------------------------------------------------------------------

  /** `memcpy(buf + at, d, |d|)`. */
  function Write(buf: seq<char>, at: nat, d: seq<char>): (r: seq<char>)
    requires at + |d| <= |buf|
    ensures |r| == |buf|
    ensures forall j :: 0 <= j < |buf| ==> r[j] == if at <= j < at + |d| then d[j - at] else buf[j]
  {
    buf[..at] + d + buf[at + |d|..]
  }

  /** Storing one more character right after a write extends the write. */
  lemma WriteNext(buf: seq<char>, at: nat, d: seq<char>, x: char)
    requires at + |d| < |buf|
    ensures Write(buf, at, d)[at + |d| := x] == Write(buf, at, d + [x])
  {
    var l := Write(buf, at, d)[at + |d| := x];
    var r := Write(buf, at, d + [x]);
    assert |l| == |r|;
    forall j | 0 <= j < |l|
      ensures l[j] == r[j]
    {
    }
  }

  function Zeros(n: nat): (r: seq<char>)
    ensures |r| == n && forall j :: 0 <= j < n ==> r[j] == '\0'
  {
    seq(n, _ => '\0')
  }

  /** The buffer holds `cmd_len` characters and NULs after them. */
  predicate BufOk(rx: Rx) {
    && |rx.buf| == CMD_BUF
    && rx.c.cmdLen < CMD_BUF
    && forall j :: rx.c.cmdLen <= j < CMD_BUF ==> rx.buf[j] == '\0'
  }

  /** The command text captured so far. */
  function Captured(rx: Rx): seq<char>
    requires BufOk(rx)
  {
    rx.buf[..rx.c.cmdLen]
  }

  /** `mqtt_incoming_publish_cb`: a new inbound message starts. It is
      ignored while a command is pending; otherwise the topic is kept (cut
      to 95 characters) and the buffer emptied. */
  function OnPublishBegin(rx: Rx, topic: seq<char>): (r: Rx)
    requires |rx.buf| == CMD_BUF
    ensures rx.c.cmdReady ==> r == rx
    ensures !rx.c.cmdReady ==> BufOk(r) && Captured(r) == [] && r.c.cmdTopic == Snprintf(topic, TOPIC_BUF)
  {
    if rx.c.cmdReady then rx
    else Rx(rx.c.(cmdTopic := Snprintf(topic, TOPIC_BUF), cmdLen := 0), Zeros(CMD_BUF))
  }

  /** How many bytes of a `dlen`-byte fragment still fit after `len`. */
  function Room(len: nat, dlen: nat): (n: nat)
    requires len < CMD_BUF
    ensures n == Min(dlen, CMD_BUF - 1 - len)
  {
    var can := CMD_BUF - 1 - len;
    if dlen < can then dlen else can
  }

  /** Whether a fragment's flags carry MQTT_DATA_FLAG_LAST. */
  predicate Last(flags: bv8) {
    flags & MQTT_DATA_FLAG_LAST != 0
  }

  /** `mqtt_incoming_data_cb`: one fragment of the payload. It is ignored
      while a command is pending; otherwise as much of it as fits before the
      last byte is appended and NUL-terminated, and the LAST flag marks the
      command ready. */
  function OnData(rx: Rx, data: seq<char>, flags: bv8): (r: Rx)
    requires |rx.buf| == CMD_BUF && rx.c.cmdLen < CMD_BUF && |data| < 0x1_0000
    ensures rx.c.cmdReady ==> r == rx
    ensures |r.buf| == CMD_BUF && r.c.cmdLen < CMD_BUF
    ensures !rx.c.cmdReady ==> r.c.cmdReady == Last(flags)
  {
    if rx.c.cmdReady then rx
    else
      var len := rx.c.cmdLen;
      var n := Room(len, |data|);
      var buf := if n > 0 then Write(rx.buf, len, data[..n] + ['\0']) else rx.buf;
      Rx(rx.c.(cmdLen := len + n, cmdReady := Last(flags)), buf)
  }

  /** A fragment is appended to the captured text, cut to 255 characters,
      and the buffer stays NUL-filled past it. */
  lemma OnDataCaptures(rx: Rx, data: seq<char>, flags: bv8)
    requires BufOk(rx) && !rx.c.cmdReady && |data| < 0x1_0000
    ensures BufOk(OnData(rx, data, flags))
    ensures Captured(OnData(rx, data, flags)) == Fit(Captured(rx) + data, CMD_BUF - 1)
  {
    var len := rx.c.cmdLen;
    var n := Room(len, |data|);
    var r := OnData(rx, data, flags);
    FitAppend(Captured(rx), data, CMD_BUF - 1);
    assert r.buf[..len + n] == Captured(rx) + data[..n];
  }

  /** `mqtt_pub_cb`: the publish ack records its error code. */
  function OnAck(c: ClientState, err: int): ClientState {
    c.(pubErr := err, pubDone := true)
  }

  /** Fragments of one message, in order; only the last carries LAST. */
  function Feed(rx: Rx, frags: seq<seq<char>>): Rx
    requires |rx.buf| == CMD_BUF && rx.c.cmdLen < CMD_BUF
    requires forall i :: 0 <= i < |frags| ==> |frags[i]| < 0x1_0000
    decreases |frags|
  {
    if frags == [] then rx
    else
      var flags: bv8 := if |frags| == 1 then MQTT_DATA_FLAG_LAST else 0;
      Feed(OnData(rx, frags[0], flags), frags[1..])
  }

  function Concat(frags: seq<seq<char>>): seq<char> {
    if frags == [] then [] else frags[0] + Concat(frags[1..])
  }

  /** Feeding fragments appends their concatenation, cut to 255 characters,
      and the last one makes the command ready. */
  lemma {:induction false} FeedCaptures(rx: Rx, frags: seq<seq<char>>)
    requires BufOk(rx) && !rx.c.cmdReady && frags != []
    requires forall i :: 0 <= i < |frags| ==> |frags[i]| < 0x1_0000
    decreases |frags|
    ensures BufOk(Feed(rx, frags)) && Feed(rx, frags).c.cmdReady
    ensures Captured(Feed(rx, frags)) == Fit(Captured(rx) + Concat(frags), CMD_BUF - 1)
  {
    var flags: bv8 := if |frags| == 1 then MQTT_DATA_FLAG_LAST else 0;
    var rx1 := OnData(rx, frags[0], flags);
    assert Feed(rx, frags) == Feed(rx1, frags[1..]);
    OnDataCaptures(rx, frags[0], flags);
    if |frags| > 1 {
      assert !Last(flags);
      FeedCaptures(rx1, frags[1..]);
      FitFit(Captured(rx) + frags[0], Concat(frags[1..]), CMD_BUF - 1);
      ConcatStep(Captured(rx), frags);
    } else {
      assert Concat(frags) == frags[0] + Concat([]);
    }
  }

  lemma ConcatStep(a: seq<char>, frags: seq<seq<char>>)
    requires frags != []
    ensures a + frags[0] + Concat(frags[1..]) == a + Concat(frags)
  {
  }

  /** `mqtt_app_take_cmd` with output buffers of the given sizes. */
  function TakeCmd(rx: Rx, topicSz: nat, payloadSz: nat): (r: Taken)
    ensures r.ok == rx.c.cmdReady
    ensures !r.ok ==> r.c == rx.c
    ensures r.ok ==> r.c == rx.c.(cmdReady := false)
    ensures NoNul(r.topic) && NoNul(r.payload)
    ensures r.ok && payloadSz > 0 ==> |r.payload| < payloadSz
  {
    if !rx.c.cmdReady then Taken(rx.c, false, [], [])
    else Taken(rx.c.(cmdReady := false), true, Snprintf(rx.c.cmdTopic, topicSz), Snprintf(rx.buf, payloadSz))
  }

  /** A message delivered as fragments with no NUL among them is handed to
      the next `take_cmd` (with 256-byte outputs) as its first 255
      characters, with its topic; and the pending command shields it from
      later messages until it is taken. */
  lemma CommandDelivered(rx: Rx, topic: seq<char>, frags: seq<seq<char>>)
    requires |rx.buf| == CMD_BUF && rx.c.cmdLen < CMD_BUF && !rx.c.cmdReady
    requires frags != [] && forall i :: 0 <= i < |frags| ==> |frags[i]| < 0x1_0000
    requires NoNul(Concat(frags))
    ensures var r := Feed(OnPublishBegin(rx, topic), frags);
      && r.c.cmdReady
      && TakeCmd(r, TOPIC_BUF, CMD_BUF).ok
      && TakeCmd(r, TOPIC_BUF, CMD_BUF).payload == Fit(Concat(frags), CMD_BUF - 1)
      && TakeCmd(r, TOPIC_BUF, CMD_BUF).topic == Snprintf(topic, TOPIC_BUF)
  {
    var r0 := OnPublishBegin(rx, topic);
    FeedCaptures(r0, frags);
    var r := Feed(r0, frags);
    assert [] + Concat(frags) == Concat(frags);
    PayloadOfCapture(r, CMD_BUF);
    FeedKeepsTopic(r0, frags);
  }

  /** The data callback never touches the captured topic. */
  lemma {:induction false} FeedKeepsTopic(rx: Rx, frags: seq<seq<char>>)
    requires |rx.buf| == CMD_BUF && rx.c.cmdLen < CMD_BUF
    requires forall i :: 0 <= i < |frags| ==> |frags[i]| < 0x1_0000
    decreases |frags|
    ensures Feed(rx, frags).c.cmdTopic == rx.c.cmdTopic
  {
    if frags != [] {
      var flags: bv8 := if |frags| == 1 then MQTT_DATA_FLAG_LAST else 0;
      FeedKeepsTopic(OnData(rx, frags[0], flags), frags[1..]);
    }
  }

  /** `take_cmd` copies out exactly the captured text when it holds no NUL
      and the output has room for it. */
  lemma PayloadOfCapture(rx: Rx, payloadSz: nat)
    requires BufOk(rx) && NoNul(Captured(rx)) && payloadSz > rx.c.cmdLen
    ensures Snprintf(rx.buf, payloadSz) == Captured(rx)
  {
    CStrOfTerminated(rx.buf, Captured(rx));
  }

  // ---------------------------------------------------------------------
  // Calls made by the MQTT task
  // ---------------------------------------------------------------------

  /** `mqtt_connection_cb`. */
  function OnConnection(c: ClientState, status: int): (r: ClientState)
    ensures r.connected <==> status == MQTT_CONNECT_ACCEPTED
    ensures r.needSubscribe <==> c.needSubscribe || status == MQTT_CONNECT_ACCEPTED
    ensures r.connEvent && r.connStatus == status
    ensures r.(connected := c.connected, needSubscribe := c.needSubscribe, connEvent := c.connEvent, connStatus := c.connStatus) == c
  {
    var ok := status == MQTT_CONNECT_ACCEPTED;
    var c1 := c.(connected := ok);
    var c2 := if ok then c1.(needSubscribe := true) else c1;
    c2.(connStatus := status, connEvent := true)
  }

  /** `mqtt_app_connect_once`: allocate the client if there is none, resolve
      the broker, clear `connected` and start the connection; success means
      only that the connect call was accepted. */
  function ConnectOnce(c: ClientState, allocOk: bool, dnsOk: bool, connectErr: int): (r: Call)
    ensures r.ok <==> (c.hasClient || allocOk) && dnsOk && connectErr == ERR_OK
    ensures r.c.hasClient == (c.hasClient || allocOk)
    ensures r.c.connected == (c.connected && !((c.hasClient || allocOk) && dnsOk))
    ensures r.c == c.(hasClient := r.c.hasClient, connected := r.c.connected)
  {
    if !c.hasClient && !allocOk then Call(c, false)
    else
      var c1 := c.(hasClient := true);
      if !dnsOk then Call(c1, false)
      else Call(c1.(connected := false), connectErr == ERR_OK)
  }

  /** `mqtt_app_subscribe_cmd`: refused without a connected client. */
  function SubscribeCmd(c: ClientState, subscribeErr: int): (r: Call)
    ensures r.c == c
    ensures r.ok <==> c.hasClient && c.connected && subscribeErr == ERR_OK
  {
    if !c.hasClient || !c.connected then Call(c, false)
    else Call(c, subscribeErr == ERR_OK)
  }

  /** Whether the ack is seen by the wait loop: it arrives at or before the
      last poll. `ackAt` is when `pub_done` is set, in ms after the publish. */
  predicate AckInTime(ackAt: Option<nat>) {
    ackAt.Some? && ackAt.value <= LAST_POLL_MS
  }

  /** `mqtt_app_publish_frame`: refused without a connected client; then
      the publish call, and for QoS > 0 the wait for a successful ack. */
  function PublishFrame(c: ClientState, qos: nat, seqNum: uint32, publishErr: int, ackAt: Option<nat>, ackErr: int): (r: Call)
    ensures r.ok <==> c.hasClient && c.connected && publishErr == ERR_OK
                      && (qos == 0 || (AckInTime(ackAt) && ackErr == ERR_OK))
    ensures r.c.lastSentSeq == if r.ok then seqNum else c.lastSentSeq
    ensures r.c == c.(pubDone := r.c.pubDone, pubErr := r.c.pubErr, lastSentSeq := r.c.lastSentSeq)
  {
    if !c.hasClient || !c.connected then Call(c, false)
    else
      var c1 := c.(pubDone := false, pubErr := ERR_INPROGRESS);
      if publishErr != ERR_OK then Call(c1, false)
      else if qos > 0 then
        if AckInTime(ackAt) then
          var c2 := OnAck(c1, ackErr);
          if ackErr == ERR_OK then Call(c2.(lastSentSeq := seqNum), true) else Call(c2, false)
        else Call(c1, false)
      else Call(c1.(lastSentSeq := seqNum), true)
  }

  /** Starting with the state `mqtt_app_init` leaves, no operation of the
      client ever raises `connecting`. */
  lemma NothingRaisesConnecting(c: ClientState, rx: Rx, status: int, allocOk: bool, dnsOk: bool, err: int,
                                seqNum: uint32, ackAt: Option<nat>, topic: seq<char>, data: seq<char>, flags: bv8,
                                topicSz: nat, payloadSz: nat)
    requires !c.connecting && !rx.c.connecting && |rx.buf| == CMD_BUF && rx.c.cmdLen < CMD_BUF && |data| < 0x1_0000
    ensures !OnConnection(c, status).connecting
    ensures !ConnectOnce(c, allocOk, dnsOk, err).c.connecting
    ensures !SubscribeCmd(c, err).c.connecting
    ensures !PublishFrame(c, MQTT_QOS, seqNum, err, ackAt, err).c.connecting
    ensures !OnAck(c, err).connecting
    ensures !OnPublishBegin(rx, topic).c.connecting
    ensures !OnData(rx, data, flags).c.connecting
    ensures !TakeCmd(rx, topicSz, payloadSz).c.connecting
  {
  }

  // ---------------------------------------------------------------------
  // The client as the firmware runs it
  // ---------------------------------------------------------------------

  /** `mqtt_app_t`. */
  class Client {
    var hasClient: bool
    var connected: bool
    var connecting: bool
    var needSubscribe: bool
    var connEvent: bool
    var connStatus: int
    var cmdReady: bool
    var cmdLen: nat
    const cmdBuf: array<char>
    var cmdTopic: seq<char>
    var pubDone: bool
    var pubErr: int
    var deviceId: seq<char>
    var topicTele: seq<char>
    var topicCmd: seq<char>
    var lastAttempt: nat
    var lastSentSeq: uint32

    /** The command buffer has its fixed size, and everything from
        `cmd_len` on is NUL, so the buffer always holds a terminated C
        string. */
    predicate Valid()
      reads this, cmdBuf
    {
      cmdBuf.Length == CMD_BUF && cmdLen < CMD_BUF && BufOk(Inbox())
    }

    function State(): ClientState
      reads this
    {
      ClientState(hasClient, connected, connecting, needSubscribe, connEvent, connStatus,
                  cmdReady, cmdLen, cmdTopic, pubDone, pubErr, deviceId, topicTele, topicCmd,
                  lastAttempt, lastSentSeq)
    }

    function Inbox(): Rx
      reads this, cmdBuf
    {
      Rx(State(), cmdBuf[..])
    }

    /** `mqtt_app_init`; `idArg` is the optional override, `boardId` what
        the board reports, `allocOk` whether `mqtt_client_new` succeeded. */
    constructor Init(idArg: Option<seq<char>>, boardId: seq<char>, allocOk: bool)
      ensures Valid() && fresh(cmdBuf)
      ensures State() == Initial(idArg, boardId, allocOk)
      ensures cmdBuf[..] == Zeros(CMD_BUF)
    {
      cmdBuf := new char[CMD_BUF](_ => '\0');
      cmdReady := false;
      cmdLen := 0;
      cmdTopic := [];
      pubDone := false;
      pubErr := 0;
      connecting := false;
      var id: seq<char>;
      if idArg.Some? && CStr(idArg.value) != [] {
        id := Snprintf(idArg.value, DEVICE_ID_BUF);
      } else {
        id := Snprintf(boardId, DEVICE_ID_BUF);
      }
      deviceId := id;
      topicTele := TeleTopic(id);
      topicCmd := CmdTopic(id);
      hasClient := allocOk;
      connected := false;
      needSubscribe := false;
      connEvent := false;
      connStatus := NO_STATUS;
      lastAttempt := 0;
      lastSentSeq := 0;
    }

    /** `mqtt_connection_cb`. */
    method OnConnectionCb(status: int)
      requires Valid()
      modifies this
      ensures Valid()
      ensures State() == OnConnection(old(State()), status)
    {
      var ok := status == MQTT_CONNECT_ACCEPTED;
      connected := ok;
      if ok {
        needSubscribe := true;
      }
      connStatus := status;
      connEvent := true;
    }

    /** `mqtt_incoming_publish_cb`. */
    method OnIncomingPublish(topic: seq<char>)
      requires Valid()
      modifies this, cmdBuf
      ensures Valid()
      ensures Inbox() == OnPublishBegin(old(Inbox()), topic)
    {
      if cmdReady {
        return;
      }
      cmdTopic := Snprintf(topic, TOPIC_BUF);
      cmdLen := 0;
      forall i | 0 <= i < cmdBuf.Length {
        cmdBuf[i] := '\0';
      }
      assert cmdBuf[..] == Zeros(CMD_BUF);
    }

    /** `mqtt_incoming_data_cb`: `memcpy` of what fits, then the NUL. */
    method OnIncomingData(data: seq<char>, flags: bv8)
      requires Valid() && |data| < 0x1_0000
      modifies this, cmdBuf
      ensures Valid()
      ensures Inbox() == OnData(old(Inbox()), data, flags)
    {
      if cmdReady {
        return;
      }
      ghost var r := OnData(Inbox(), data, flags);
      OnDataCaptures(Inbox(), data, flags);
      var len := cmdLen;
      var n := Room(len, |data|);
      if n > 0 {
        Memcpy(len, data[..n]);
        cmdLen := len + n;
        cmdBuf[cmdLen] := '\0';
        WriteNext(old(cmdBuf[..]), len, data[..n], '\0');
      }
      if Last(flags) {
        cmdReady := true;
      }
      assert State() == r.c;
      assert Inbox() == r;
    }

    /** `memcpy(&cmd_buf[at], d, |d|)`. */
    method Memcpy(at: nat, d: seq<char>)
      requires at + |d| <= cmdBuf.Length
      modifies cmdBuf
      ensures cmdBuf[..] == Write(old(cmdBuf[..]), at, d)
    {
      var i := 0;
      while i < |d|
        invariant 0 <= i <= |d|
        invariant cmdBuf[..] == Write(old(cmdBuf[..]), at, d[..i])
      {
        WriteNext(old(cmdBuf[..]), at, d[..i], d[i]);
        cmdBuf[at + i] := d[i];
        assert d[..i] + [d[i]] == d[..i + 1];
        i := i + 1;
      }
      assert d[..i] == d;
    }

    /** `mqtt_pub_cb`. */
    method OnPublishAck(err: int)
      requires Valid()
      modifies this
      ensures Valid()
      ensures State() == OnAck(old(State()), err)
    {
      pubErr := err;
      pubDone := true;
    }

    /** `mqtt_app_connect_once`; the allocation, DNS and connect results are
        inputs. */
    method ConnectOnceCall(allocOk: bool, dnsOk: bool, connectErr: int) returns (ok: bool)
      requires Valid()
      modifies this
      ensures Valid()
      ensures Call(State(), ok) == ConnectOnce(old(State()), allocOk, dnsOk, connectErr)
    {
      if !hasClient {
        hasClient := allocOk;
        if !hasClient {
          return false;
        }
      }
      if !dnsOk {
        return false;
      }
      connected := false;
      ok := connectErr == ERR_OK;
    }

    /** `mqtt_app_subscribe_cmd`; the subscribe result is an input. */
    method SubscribeCmdCall(subscribeErr: int) returns (ok: bool)
      ensures Call(State(), ok) == SubscribeCmd(State(), subscribeErr)
    {
      if !hasClient || !connected {
        return false;
      }
      ok := subscribeErr == ERR_OK;
    }

    /** `mqtt_app_publish_frame` at QoS `qos` (`MQTT_QOS` in the firmware).
        The publish result is an input; the ack callback runs once `ackAt`
        ms have passed (never when `ackAt` is None). */
    method PublishFrameCall(qos: nat, seqNum: uint32, publishErr: int, ackAt: Option<nat>, ackErr: int) returns (ok: bool)
      requires Valid()
      modifies this
      ensures Valid()
      ensures Call(State(), ok) == PublishFrame(old(State()), qos, seqNum, publishErr, ackAt, ackErr)
    {
      if !hasClient || !connected {
        return false;
      }
      pubDone := false;
      pubErr := ERR_INPROGRESS;
      if publishErr != ERR_OK {
        return false;
      }
      if qos > 0 {
        var seen := AwaitAck(ackAt, ackErr);
        if !seen {
          return false;
        }
        if pubErr == ERR_OK {
          lastSentSeq := seqNum;
          return true;
        }
        return false;
      }
      lastSentSeq := seqNum;
      ok := true;
    }

    /** The wait for the ack: `pub_done` is polled every 5 ms, and the wait
        gives up once more than the ack timeout has passed. */
    method AwaitAck(ackAt: Option<nat>, ackErr: int) returns (seen: bool)
      requires !pubDone
      requires Valid()
      modifies this
      ensures Valid()
      ensures seen == AckInTime(ackAt)
      ensures State() == if seen then OnAck(old(State()), ackErr) else old(State())
    {
      var elapsed: nat := 0;
      if ackAt.Some? && ackAt.value <= elapsed {
        OnPublishAck(ackErr);
      }
      while !pubDone
        invariant elapsed % ACK_POLL_MS == 0 && elapsed <= LAST_POLL_MS
        invariant pubDone <==> ackAt.Some? && ackAt.value <= elapsed
        invariant State() == if pubDone then OnAck(old(State()), ackErr) else old(State())
        decreases LAST_POLL_MS - elapsed
      {
        if elapsed > MQTT_ACK_TIMEOUT_MS {
          return false;
        }
        elapsed := elapsed + ACK_POLL_MS;
        if ackAt.Some? && ackAt.value <= elapsed {
          OnPublishAck(ackErr);
        }
      }
      seen := true;
    }

    /** `mqtt_app_take_cmd`; the outputs are the C strings written into
        buffers of `topicSz` and `payloadSz` bytes. */
    method TakeCmdCall(topicSz: nat, payloadSz: nat) returns (ok: bool, topic: seq<char>, payload: seq<char>)
      requires Valid()
      modifies this
      ensures Valid()
      ensures Taken(State(), ok, topic, payload) == TakeCmd(old(Inbox()), topicSz, payloadSz)
    {
      if !cmdReady {
        return false, [], [];
      }
      topic := Snprintf(cmdTopic, topicSz);
      payload := Snprintf(cmdBuf[..], payloadSz);
      cmdReady := false;
      ok := true;
    }
  }
}
