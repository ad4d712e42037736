/** The line protocol on the USB serial port (serial_rpc.c): a line
    assembler fed one character per poll, a session that must authenticate
    with a password before it may send commands, and telemetry lines sent
    to an authenticated peer at most once per period and only for a new
    frame.

    The text of the replies is not modelled, only which reply is sent and
    the values it carries. The character read, the tick count and the frame
    the mailbox holds are inputs. */
module SerialRpc {
  import opened Common
  import opened AppConfig
  import opened AppCtx
  import opened JsonSimple
  import opened MatrixControl

  /** Sizes of the line, op and password buffers. */
  const LINE_BUF: nat := 256
  const OP_BUF: nat := 16
  const PASS_BUF: nat := 64

  // ---------------------------------------------------------------------
  // Line assembly
  // ---------------------------------------------------------------------

  /** The characters held so far, and the line handed out by this call. */
  datatype LineRead = LineRead(pending: seq<char>, line: Option<seq<char>>)

  /** `serial_read_line` with an output buffer of `outSz` bytes; `ch` is
      what the poll returned (None on timeout). `\r` is dropped, `\n` hands
      out the held text and starts over, anything else is kept while fewer
      than 255 characters are held. */
  function ReadLine(pending: seq<char>, ch: Option<char>, outSz: nat): (r: LineRead)
    requires |pending| < LINE_BUF
    ensures |r.pending| < LINE_BUF
    ensures r.line.Some? <==> ch == Some('\n')
    ensures r.line.Some? ==> r.pending == [] && r.line.value == Snprintf(pending, outSz) && NoNul(r.line.value)
    ensures ch.None? || ch == Some('\r') ==> r.pending == pending
    ensures ch.Some? && ch.value != '\n' && ch.value != '\r' ==>
      r.pending == pending + Fit([ch.value], LINE_BUF - 1 - |pending|)
  {
    if ch.None? || ch.value == '\r' then LineRead(pending, None)
    else if ch.value == '\n' then LineRead([], Some(Snprintf(pending, outSz)))
    else if |pending| + 1 < LINE_BUF then LineRead(pending + [ch.value], None)
    else LineRead(pending, None)
  }

  /** The text without its carriage returns. */
  function Strip(cs: seq<char>): (r: seq<char>)
    ensures '\r' !in r
  {
    if cs == [] then [] else (if cs[0] == '\r' then [] else [cs[0]]) + Strip(cs[1..])
  }

  /** The held text after a series of polls that return no `\n`. */
  function Accumulate(pending: seq<char>, cs: seq<char>): (r: seq<char>)
    requires |pending| < LINE_BUF && '\n' !in cs
    decreases |cs|
    ensures |r| < LINE_BUF
  {
    if cs == [] then pending
    else Accumulate(ReadLine(pending, Some(cs[0]), LINE_BUF).pending, cs[1..])
  }

  /** The assembler keeps the first 255 characters of the line, carriage
      returns dropped. */
  lemma {:induction false} AccumulateKeeps(pending: seq<char>, cs: seq<char>)
    requires |pending| < LINE_BUF && '\n' !in cs
    decreases |cs|
    ensures Accumulate(pending, cs) == Fit(pending + Strip(cs), LINE_BUF - 1)
  {
    if cs != [] {
      var c := cs[0];
      var p1 := ReadLine(pending, Some(c), LINE_BUF).pending;
      AccumulateKeeps(p1, cs[1..]);
      var rest := Strip(cs[1..]);
      assert Strip(cs) == (if c == '\r' then [] else [c]) + rest;
      if c != '\r' {
        if |pending| + 1 < LINE_BUF {
          assert pending + Strip(cs) == p1 + rest;
        } else {
          assert (pending + Strip(cs))[..LINE_BUF - 1] == pending;
          assert (p1 + rest)[..LINE_BUF - 1] == pending;
        }
      }
    }
  }

  /** A line of at most 255 characters (carriage returns aside) without a
      NUL, followed by `\n`, is handed out whole into the 256-byte line
      buffer, and the assembler starts over empty. */
  lemma ReadsWholeLine(cs: seq<char>)
    requires '\n' !in cs && NoNul(cs) && |Strip(cs)| < LINE_BUF
    ensures ReadLine(Accumulate([], cs), Some('\n'), LINE_BUF) == LineRead([], Some(Strip(cs)))
  {
    AccumulateKeeps([], cs);
    assert [] + Strip(cs) == Strip(cs);
    StripNoNul(cs);
  }

  lemma {:induction false} StripNoNul(cs: seq<char>)
    requires NoNul(cs)
    ensures NoNul(Strip(cs))
  {
    if cs != [] {
      StripNoNul(cs[1..]);
      NoNulAppend(if cs[0] == '\r' then [] else [cs[0]], Strip(cs[1..]));
    }
  }

  // ---------------------------------------------------------------------
  // Line handling
  // ---------------------------------------------------------------------

  /** The lines the task prints: the startup `info` line, `hello` with its
      `need_auth` flag, an `ack` or `err` with its message, the `auth`
      result, and a telemetry line with the frame and the controller
      state. */
  datatype Msg =
    | Info(msg: seq<char>)
    | Hello(needAuth: bool)
    | Ack(msg: seq<char>)
    | AuthResult(ok: bool)
    | Err(msg: seq<char>)
    | Telemetry(frame: Frame, mode: Mode, target: uint8, current: uint8)

  /** Whether the peer has authenticated, and the brightness controller its
      commands go to. */
  datatype Session = Session(authed: bool, ctrl: Brightness)

  datatype Handled = Handled(s: Session, out: seq<Msg>)

  /** `json_get_string` into `sz` bytes as a condition: it succeeds only
      when it copies at least one character. */
  function Got(line: seq<char>, key: seq<char>, sz: nat): Option<seq<char>>
    requires sz >= 1
  {
    match ScanString(line, key, sz)
    case Copied(t) => if t != [] then Some(t) else None
    case NoString => None
  }

  /** The op of a line, as read into the 16-byte `op` buffer. */
  function Op(line: seq<char>): Option<seq<char>> {
    Got(line, "op", OP_BUF)
  }

  /** The password of an `auth` line: `"password"`, else `"pass"`. */
  function Password(line: seq<char>): Option<seq<char>> {
    var p := Got(line, "password", PASS_BUF);
    if p.Some? then p else Got(line, "pass", PASS_BUF)
  }

  /** A line without an op is a command when it mentions one of these keys
      anywhere (plain substring search for the quoted key). */
  predicate Implicit(line: seq<char>) {
    KeyIndex(line, "mode").Some? || KeyIndex(line, "brightness").Some? || KeyIndex(line, "percent").Some?
  }

  /** One line received. */
  function HandleLine(s: Session, line: seq<char>): (r: Handled)
    ensures line == [] ==> r == Handled(s, [])
    ensures r.s.ctrl != s.ctrl ==> s.authed && r.s.authed
    ensures r.s.ctrl != s.ctrl ==> r.s.ctrl == ApplyCmd(s.ctrl, Some(line))
    ensures r.s.authed && !s.authed ==> Op(line) == Some("auth") && Password(line) == Some(SERIAL_ACCESS_PASSWORD)
    ensures line != [] && Op(line) == Some("logout") ==> !r.s.authed
    ensures line != [] && Op(line) == Some("auth") ==>
      r.s.authed == (if Password(line).Some? then Password(line).value == SERIAL_ACCESS_PASSWORD else s.authed)
    ensures line != [] && Op(line) == Some("cmd") ==>
      r.s == (if s.authed then s.(ctrl := ApplyCmd(s.ctrl, Some(line))) else s)
    ensures line != [] && Op(line).Some? && Op(line).value !in {"hello", "logout", "auth", "cmd"} ==>
      r == Handled(s, [Err("unknown op")])
    ensures line != [] && Op(line).None? ==>
      r.s == (if s.authed && Implicit(line) then s.(ctrl := ApplyCmd(s.ctrl, Some(line))) else s)
    ensures InRange(s.ctrl) ==> InRange(r.s.ctrl)
  {
    if line == [] then Handled(s, [])
    else match Op(line)
      case Some(o) =>
        if o == "hello" then Handled(s, [Hello(!s.authed)])
        else if o == "logout" then Handled(s.(authed := false), [Ack("logout ok"), Hello(true)])
        else if o == "auth" then
          match Password(line)
          case None => Handled(s, [AuthResult(false)])
          case Some(p) =>
            var ok := p == SERIAL_ACCESS_PASSWORD;
            Handled(s.(authed := ok), [AuthResult(ok)] + (if ok then [Ack("auth ok")] else []))
        else if o == "cmd" then
          if !s.authed then Handled(s, [Err("not authenticated")])
          else Handled(s.(ctrl := ApplyCmd(s.ctrl, Some(line))), [Ack("cmd applied")])
        else Handled(s, [Err("unknown op")])
      case None =>
        if s.authed && Implicit(line) then
          Handled(s.(ctrl := ApplyCmd(s.ctrl, Some(line))), [Ack("cmd applied (implicit)")])
        else Handled(s, [Err("bad json")])
  }

  /** Which lines authenticate: `auth` with the right password under
      `"password"`, or under `"pass"` when `"password"` yields nothing. */
  lemma AuthLine(s: Session, pass: seq<char>)
    requires 0 < |pass| < PASS_BUF - 1 && NoNul(pass) && '"' !in pass
    ensures var line := "{\"op\":\"auth\",\"password\":\"" + pass + "\"}";
      HandleLine(s, line).s.authed <==> pass == SERIAL_ACCESS_PASSWORD
  {
    var line := "{\"op\":\"auth\",\"password\":\"" + pass + "\"}";
    OpOfAuthLine(pass);
    PasswordOfAuthLine(pass);
  }

  lemma OpOfAuthLine(pass: seq<char>)
    requires NoNul(pass) && '"' !in pass
    ensures Op("{\"op\":\"auth\",\"password\":\"" + pass + "\"}") == Some("auth")
  {
    var line := "{\"op\":\"auth\",\"password\":\"" + pass + "\"}";
    var rest := ",\"password\":\"" + pass + "\"}";
    assert line == "{" + Field("op") + "" + ['"'] + "auth" + ['"'] + rest;
    OpeningKeyUnmatched("op");
    GetStringOfRendered("{", "op", 0, "", "auth", rest, OP_BUF);
    assert Fit("auth", OP_BUF - 1) == "auth";
    assert ScanString(line, "op", OP_BUF) == Copied("auth");
  }

  lemma PasswordOfAuthLine(pass: seq<char>)
    requires 0 < |pass| < PASS_BUF - 1 && NoNul(pass) && '"' !in pass
    ensures Password("{\"op\":\"auth\",\"password\":\"" + pass + "\"}") == Some(pass)
  {
    var before := "{\"op\":\"auth\",";
    assert "{\"op\":\"auth\",\"password\":\"" + pass + "\"}" == before + Field("password") + "" + ['"'] + pass + ['"'] + "}";
    assert KeyPattern("password")[5] == 'w';
    assert Unmatched(before, "password", 5);
    GetStringOfRendered(before, "password", 5, "", pass, "}", PASS_BUF);
  }

  // ---------------------------------------------------------------------
  // Telemetry gating
  // ---------------------------------------------------------------------

  datatype Tele = Tele(lastSeq: uint32, lastTele: nat, out: seq<Msg>)

  /** The telemetry half of the loop: only for an authenticated peer, only
      when the period has elapsed since `last_tele` (which then moves to
      now, frame or no frame), and only for a frame whose sequence number
      differs from the last one sent. */
  function TeleStep(s: Session, lastSeq: uint32, lastTele: nat, now: nat, frame: Option<Frame>): (r: Tele)
    ensures r.lastTele == if s.authed && now - lastTele >= SERIAL_TELE_PERIOD_MS then now else lastTele
    ensures r.out != [] <==> s.authed && now - lastTele >= SERIAL_TELE_PERIOD_MS && frame.Some? && frame.value.seqNum != lastSeq
    ensures r.out != [] ==> r.out == [Telemetry(frame.value, s.ctrl.mode, s.ctrl.target, s.ctrl.current)]
    ensures r.lastSeq == if r.out != [] then frame.value.seqNum else lastSeq
  {
    if s.authed && now - lastTele >= SERIAL_TELE_PERIOD_MS then
      if frame.Some? && frame.value.seqNum != lastSeq then
        Tele(frame.value.seqNum, now, [Telemetry(frame.value, s.ctrl.mode, s.ctrl.target, s.ctrl.current)])
      else Tele(lastSeq, now, [])
    else Tele(lastSeq, lastTele, [])
  }

  // ---------------------------------------------------------------------
  // The task loop
  // ---------------------------------------------------------------------

  /** The task's state: the assembler's held text, the session, and the
      telemetry bookkeeping `last_seq` and `last_tele`. */
  datatype SerialState = SerialState(pending: seq<char>, s: Session, lastSeq: uint32, lastTele: nat)

  /** The state before the loop: nothing held, not authenticated. */
  function SerialInitial(ctrl: Brightness): SerialState {
    SerialState([], Session(false, ctrl), 0, 0)
  }

  /** What `vTaskSerialRpc` prints before its loop: the `info` banner, then
      `hello`, which asks for authentication exactly when the session is
      not authenticated. */
  function Banner(s: Session): (out: seq<Msg>)
    ensures |out| == 2 && out[0].Info? && out[1].Hello?
    ensures out[1].needAuth <==> !s.authed
  {
    [Info("SerialRPC up"), Hello(!s.authed)]
  }

  /** At boot the greeting asks for authentication. */
  lemma BootAsksAuth(ctrl: Brightness)
    ensures Banner(SerialInitial(ctrl).s)[1] == Hello(true)
  {
  }

  datatype Step = Step(st: SerialState, out: seq<Msg>)

  /** One pass of `vTaskSerialRpc`'s loop: one poll of the port (and the
      line it may complete), then the telemetry check. A completed line
      that is empty ends the pass early, so that pass has no telemetry
      check. */
  function SerialStep(st: SerialState, ch: Option<char>, now: nat, frame: Option<Frame>): (r: Step)
    requires |st.pending| < LINE_BUF
    ensures |r.st.pending| < LINE_BUF
    ensures ch != Some('\n') ==> r.st.s == st.s
    ensures r.st.lastTele >= st.lastTele
    ensures r.st.lastSeq != st.lastSeq ==>
      frame.Some? && r.st.lastSeq == frame.value.seqNum && now - st.lastTele >= SERIAL_TELE_PERIOD_MS && r.st.lastTele == now
    ensures ch == Some('\n') && Snprintf(st.pending, LINE_BUF) == [] ==>
      r == Step(SerialState([], st.s, st.lastSeq, st.lastTele), [])
  {
    var rd := ReadLine(st.pending, ch, LINE_BUF);
    if rd.line == Some([]) then
      Step(SerialState(rd.pending, st.s, st.lastSeq, st.lastTele), [])
    else
      var h := if rd.line.Some? then HandleLine(st.s, rd.line.value) else Handled(st.s, []);
      var t := TeleStep(h.s, st.lastSeq, st.lastTele, now, frame);
      Step(SerialState(rd.pending, h.s, t.lastSeq, t.lastTele), h.out + t.out)
  }

  /** One poll: what the port returned, the tick count, the frame mailbox. */
  datatype Poll = Poll(ch: Option<char>, now: nat, frame: Option<Frame>)

  function SerialRun(st: SerialState, ps: seq<Poll>): SerialState
    requires |st.pending| < LINE_BUF
    decreases |ps|
  {
    if ps == [] then st else SerialRun(SerialStep(st, ps[0].ch, ps[0].now, ps[0].frame).st, ps[1..])
  }

  /** A telemetry line sent: when, and for which frame. */
  datatype Sent = Sent(at: nat, seqNum: uint32)

  function SentTelemetry(st: SerialState, ps: seq<Poll>): seq<Sent>
    requires |st.pending| < LINE_BUF
    decreases |ps|
  {
    if ps == [] then []
    else
      var p := ps[0];
      var r := SerialStep(st, p.ch, p.now, p.frame);
      (if r.st.lastSeq != st.lastSeq then [Sent(p.now, p.frame.value.seqNum)] else []) + SentTelemetry(r.st, ps[1..])
  }

  /** Consecutive telemetry lines are at least the period apart and never
      repeat a frame. */
  predicate Spaced(e: seq<Sent>) {
    forall i :: 0 < i < |e| ==> e[i].at - e[i - 1].at >= SERIAL_TELE_PERIOD_MS && e[i].seqNum != e[i - 1].seqNum
  }

  lemma SpacedCons(s: Sent, rest: seq<Sent>)
    requires Spaced(rest)
    requires rest != [] ==> rest[0].at - s.at >= SERIAL_TELE_PERIOD_MS && rest[0].seqNum != s.seqNum
    ensures Spaced([s] + rest)
  {
    var e := [s] + rest;
    forall i | 0 < i < |e|
      ensures e[i].at - e[i - 1].at >= SERIAL_TELE_PERIOD_MS && e[i].seqNum != e[i - 1].seqNum
    {
      if i > 1 {
        assert e[i] == rest[i - 1] && e[i - 1] == rest[i - 2];
      }
    }
  }

  /** Telemetry lines are at least the period apart and never repeat the
      previous frame, starting from the task's `last_tele` and `last_seq`. */
  lemma {:induction false} TelemetrySpaced(st: SerialState, ps: seq<Poll>)
    requires |st.pending| < LINE_BUF
    decreases |ps|
    ensures Spaced(SentTelemetry(st, ps))
    ensures SentTelemetry(st, ps) != [] ==>
      SentTelemetry(st, ps)[0].at - st.lastTele >= SERIAL_TELE_PERIOD_MS && SentTelemetry(st, ps)[0].seqNum != st.lastSeq
  {
    if ps != [] {
      var p := ps[0];
      var r := SerialStep(st, p.ch, p.now, p.frame);
      TelemetrySpaced(r.st, ps[1..]);
      var rest := SentTelemetry(r.st, ps[1..]);
      if r.st.lastSeq != st.lastSeq {
        var s := Sent(p.now, p.frame.value.seqNum);
        assert SentTelemetry(st, ps) == [s] + rest;
        SpacedCons(s, rest);
      } else {
        assert SentTelemetry(st, ps) == rest;
      }
    }
  }

  /** `last_tele` only moves forward and is never before the latest line, and
      `last_seq` is the latest line's frame. */
  lemma {:induction false} TelemetryBooks(st: SerialState, ps: seq<Poll>)
    requires |st.pending| < LINE_BUF
    decreases |ps|
    ensures SerialRun(st, ps).lastTele >= st.lastTele
    ensures SentTelemetry(st, ps) == [] ==> SerialRun(st, ps).lastSeq == st.lastSeq
    ensures SentTelemetry(st, ps) != [] ==>
      var last := SentTelemetry(st, ps)[|SentTelemetry(st, ps)| - 1];
      SerialRun(st, ps).lastTele >= last.at && SerialRun(st, ps).lastSeq == last.seqNum
  {
    if ps != [] {
      var p := ps[0];
      var r := SerialStep(st, p.ch, p.now, p.frame);
      TelemetryBooks(r.st, ps[1..]);
      var rest := SentTelemetry(r.st, ps[1..]);
      assert SerialRun(st, ps) == SerialRun(r.st, ps[1..]);
      if r.st.lastSeq != st.lastSeq {
        var s := Sent(p.now, p.frame.value.seqNum);
        assert SentTelemetry(st, ps) == [s] + rest;
      } else {
        assert SentTelemetry(st, ps) == rest;
      }
    }
  }

  // ---------------------------------------------------------------------
  // The task as the firmware runs it
  // ---------------------------------------------------------------------

  /** `serial_read_line`'s static buffer and index. */
  class LineReader {
    const buf: array<char>
    var idx: nat

    predicate Valid()
      reads this
    {
      buf.Length == LINE_BUF && idx < LINE_BUF
    }

    /** The characters held so far. */
    function Pending(): seq<char>
      requires Valid()
      reads this, buf
    {
      buf[..idx]
    }

    constructor ()
      ensures Valid() && Pending() == [] && fresh(buf)
    {
      buf := new char[LINE_BUF](_ => '\0');
      idx := 0;
    }

    /** `serial_read_line(out, outSz)`; `line` is what lands in `out` when
        `got` holds. */
    method ReadLineCall(ch: Option<char>, outSz: nat) returns (got: bool, line: seq<char>)
      requires Valid()
      modifies this, buf
      ensures Valid()
      ensures LineRead(Pending(), if got then Some(line) else None) == ReadLine(old(Pending()), ch, outSz)
    {
      got, line := false, [];
      if ch.None? {
        return;
      }
      var c := ch.value;
      if c == '\r' {
        return;
      }
      if c == '\n' {
        buf[idx] := '\0';
        CStrCut(buf[..], idx);
        assert buf[..][..idx] == old(Pending());
        line := Snprintf(buf[..], outSz);
        idx := 0;
        got := true;
        return;
      }
      if idx + 1 < buf.Length {
        buf[idx] := c;
        idx := idx + 1;
        assert buf[..idx] == old(Pending()) + [c];
      }
    }
  }

  /** `vTaskSerialRpc`'s locals, the assembler and the controller. */
  class SerialTask {
    const reader: LineReader
    const ctrl: Controller
    var authed: bool
    var lastSeq: uint32
    var lastTele: nat

    constructor (reader: LineReader, ctrl: Controller)
      requires reader.Valid() && reader.Pending() == []
      ensures this.reader == reader && this.ctrl == ctrl
      ensures State() == SerialInitial(ctrl.State())
    {
      this.reader := reader;
      this.ctrl := ctrl;
      authed := false;
      lastSeq := 0;
      lastTele := 0;
    }

    function State(): SerialState
      requires reader.Valid()
      reads this, reader, reader.buf, ctrl
    {
      SerialState(reader.Pending(), Session(authed, ctrl.State()), lastSeq, lastTele)
    }

    /** The two lines printed before the loop. */
    method Greet() returns (out: seq<Msg>)
      ensures out == Banner(Session(authed, ctrl.State()))
    {
      out := [Info("SerialRPC up"), Hello(!authed)];
    }

    /** One pass of the loop body. */
    method Iterate(ch: Option<char>, now: nat, frame: Option<Frame>) returns (out: seq<Msg>)
      requires reader.Valid()
      modifies this, reader, reader.buf, ctrl
      ensures reader.Valid()
      ensures Step(State(), out) == SerialStep(old(State()), ch, now, frame)
    {
      var got, line := reader.ReadLineCall(ch, LINE_BUF);
      out := [];
      if got && line == [] {
        return;
      }
      if got {
        out := Handle(line);
      }
      var tele := SendTelemetry(now, frame);
      out := out + tele;
    }

    /** The telemetry half of the loop body. */
    method SendTelemetry(now: nat, frame: Option<Frame>) returns (out: seq<Msg>)
      modifies this
      ensures authed == old(authed)
      ensures Tele(lastSeq, lastTele, out) == TeleStep(Session(authed, ctrl.State()), old(lastSeq), old(lastTele), now, frame)
    {
      out := [];
      if authed {
        if now - lastTele >= SERIAL_TELE_PERIOD_MS {
          lastTele := now;
          if frame.Some? && frame.value.seqNum != lastSeq {
            lastSeq := frame.value.seqNum;
            out := [Telemetry(frame.value, ctrl.mode, ctrl.target, ctrl.current)];
          }
        }
      }
    }

    /** One received line: the op is read into a zeroed 16-byte buffer and
        compared with `strcmp`, the password likewise into 64 bytes. */
    method Handle(line: seq<char>) returns (out: seq<Msg>)
      requires NoNul(line)
      modifies this, ctrl
      ensures lastSeq == old(lastSeq) && lastTele == old(lastTele)
      ensures Handled(Session(authed, ctrl.State()), out) == HandleLine(old(Session(authed, ctrl.State())), line)
    {
      if line == [] {
        return [];
      }
      var opBuf := new char[OP_BUF](_ => '\0');
      var hasOp := JsonGetString(line, "op", opBuf);
      if hasOp {
        out := Dispatch(line, CStr(opBuf[..]));
      } else {
        var implicit := IsImplicit(line);
        if authed && implicit {
          ctrl.ApplyCmdPayload(Some(line));
          out := [Ack("cmd applied (implicit)")];
        } else {
          out := [Err("bad json")];
        }
      }
    }

    /** A line with the op `op`. */
    method Dispatch(line: seq<char>, op: seq<char>) returns (out: seq<Msg>)
      requires NoNul(line) && line != [] && Op(line) == Some(op)
      modifies this, ctrl
      ensures lastSeq == old(lastSeq) && lastTele == old(lastTele)
      ensures Handled(Session(authed, ctrl.State()), out) == HandleLine(old(Session(authed, ctrl.State())), line)
    {
      if op == "hello" {
        out := [Hello(!authed)];
      } else if op == "logout" {
        authed := false;
        out := [Ack("logout ok"), Hello(true)];
      } else if op == "auth" {
        out := Authenticate(line);
      } else if op == "cmd" {
        if !authed {
          out := [Err("not authenticated")];
        } else {
          ctrl.ApplyCmdPayload(Some(line));
          out := [Ack("cmd applied")];
        }
      } else {
        out := [Err("unknown op")];
      }
    }

    /** The `auth` op. */
    method Authenticate(line: seq<char>) returns (out: seq<Msg>)
      requires NoNul(line)
      modifies this
      ensures lastSeq == old(lastSeq) && lastTele == old(lastTele)
      ensures authed == if Password(line).Some? then Password(line).value == SERIAL_ACCESS_PASSWORD else old(authed)
      ensures out == match Password(line)
        case None => [AuthResult(false)]
        case Some(p) => [AuthResult(p == SERIAL_ACCESS_PASSWORD)] + (if p == SERIAL_ACCESS_PASSWORD then [Ack("auth ok")] else [])
    {
      var pass := ReadPassword(line);
      if pass.None? {
        return [AuthResult(false)];
      }
      var ok := pass.value == SERIAL_ACCESS_PASSWORD;
      authed := ok;
      out := [AuthResult(ok)];
      if ok {
        out := out + [Ack("auth ok")];
      }
    }
  }

  /** The two `json_get_string` calls of the `auth` op into the 64-byte
      `pass` buffer: the password read, if either succeeded. */
  method ReadPassword(line: seq<char>) returns (pass: Option<seq<char>>)
    requires NoNul(line)
    ensures pass == Password(line)
  {
    var passBuf := new char[PASS_BUF](_ => '\0');
    var got := JsonGetString(line, "password", passBuf);
    if !got {
      got := JsonGetString(line, "pass", passBuf);
    }
    if !got {
      return None;
    }
    return Some(CStr(passBuf[..]));
  }

  /** The three `strstr` calls of the implicit-command test. */
  method IsImplicit(line: seq<char>) returns (b: bool)
    ensures b == Implicit(line)
  {
    var m := FindKey(line, "mode");
    var br := FindKey(line, "brightness");
    var pc := FindKey(line, "percent");
    b := m.Some? || br.Some? || pc.Some?;
  }
}
