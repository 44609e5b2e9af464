/** 32-bit big-endian numbers on the wire. */
module Wire {
  import opened Commands

  const U32: int := 0x1_0000_0000

  /** `htonl`, as bytes */
  function Be32(n: nat): Bytes
    requires n < U32
  {
    [(n / 0x100_0000) as char, (n / 0x1_0000 % 0x100) as char, (n / 0x100 % 0x100) as char, (n % 0x100) as char]
  }

  /** `ntohl` of the first four bytes */
  function FromBe32(b: Bytes): nat
    requires |b| >= 4
  {
    (b[0] as int) * 0x100_0000 + (b[1] as int) * 0x1_0000 + (b[2] as int) * 0x100 + b[3] as int
  }

  lemma Be32RoundTrip(n: nat, rest: Bytes)
    requires n < U32
    ensures FromBe32(Be32(n) + rest) == n
  {
    assert n == n / 0x100_0000 * 0x100_0000 + n / 0x1_0000 % 0x100 * 0x1_0000 + n / 0x100 % 0x100 * 0x100 + n % 0x100;
  }

  /** The position of the first NUL, or the length. */
  function FirstNul(b: Bytes): (k: nat)
    ensures k <= |b|
    ensures k < |b| ==> b[k] == '\0'
    ensures forall i :: 0 <= i < k ==> b[i] != '\0'
  {
    if b == [] || b[0] == '\0' then 0 else 1 + FirstNul(b[1..])
  }

  lemma {:induction false} FirstNulAppend(b: Bytes, q: Bytes)
    ensures FirstNul(b) < |b| ==> FirstNul(b + q) == FirstNul(b)
    ensures FirstNul(b) == |b| ==> FirstNul(b + q) >= |b|
    decreases |b|
  {
    if b != [] && b[0] != '\0' {
      FirstNulAppend(b[1..], q);
      assert (b + q)[1..] == b[1..] + q;
    }
  }
}

/**
 What the receive loop makes of the bytes of one connection, without buffers: commands
 terminated by NUL, and INSTREAM bodies as chunks with a four-byte length. The state moves in
 small steps, each of which takes bytes off the front of what is pending.

 Every command on the connection starts with 'z'. A command of another style stops the model.
 */
module SessionModel {
  import opened Options
  import opened Commands
  import opened Wire

  datatype Config = Config(
    table: seq<Entry>,
    bufSize: nat,          // size of the receive buffer
    streamMax: int,        // StreamMaxLength
    versionOn: bool,       // EnableVersionCommand
    statsOn: bool,         // EnableStatsCommand
    alone: nat -> bool)    // whether no job of the session is left when event number k happens

  datatype Mode =
    | CommandMode
    | StreamMode
    | WaitReply            // no more commands are accepted
    | Finished             // a stream that ended after the connection was closed
    | Failed               // protocol error

  datatype Event =
    | Executed(command: Command, argument: Option<Bytes>, id: nat, inSession: bool)
    | StreamScan(content: Bytes, id: nat, inSession: bool)

  datatype Conn = Conn(
    open: bool,            // the descriptor is still watched
    mode: Mode,
    inSession: bool,       // inside IDSESSION
    id: nat,
    chunk: nat,            // bytes of the current chunk still to come
    quota: int,
    dump: Bytes,           // content of the temporary file
    pending: Bytes,        // received and not consumed
    log: seq<Event>)

  const NEW_CONN: Conn := Conn(true, CommandMode, false, 0, 0, 0, [], [], [])

  // --- Commands --------------------------------------------------------------------

  /** What `execute_or_dispatch_command` answers: done (the connection can be closed) or not. */
  datatype Verdict = Verdict(done: bool, inSession: bool, stream: bool)

  predicate AllowedInSession(c: Command) {
    c.Fildes? || c.Scan? || c.End? || c.Instream? || c.Version? || c.Ping? || c.Stats? || c.ListCommands?
  }

  function Perform(cfg: Config, c: Command, inSession: bool): Verdict {
    if inSession && !AllowedInSession(c) then Verdict(true, false, false)
    else match c
      case Ping => Verdict(!inSession, inSession, false)
      case ListCommands => Verdict(!inSession, inSession, false)
      case Version => Verdict(!cfg.versionOn || !inSession, inSession, false)
      case Stats => Verdict(!cfg.statsOn, inSession, false)
      case Instream => Verdict(false, inSession, true)
      case IdSession => Verdict(false, true, false)
      case MultiScan => Verdict(false, inSession, false)
      case ContScan => Verdict(false, inSession, false)
      case Fildes => Verdict(false, inSession, false)
      case Scan => Verdict(false, inSession, false)
      case AllMatchScan => Verdict(false, inSession, false)
      case _ => Verdict(true, inSession, false)
  }

  /** The connection after a command, as `parse_dispatch_cmd` leaves it. */
  function AfterCommand(cfg: Config, s: Conn, p: Parsed): Conn {
    var v := Perform(cfg, p.command, s.inSession);
    var t := s.(inSession := v.inSession, log := s.log + [Executed(p.command, p.argument, s.id, s.inSession)]);
    if v.stream then t.(mode := StreamMode, quota := cfg.streamMax, dump := [])
    else if v.done && (!v.inSession || cfg.alone(|s.log|)) then t.(open := false, inSession := false, id := s.id + 1)
    else if v.done || !v.inSession then t.(open := false, mode := WaitReply)
    else t.(id := s.id + 1)
  }

  predicate HasLine(cfg: Config, b: Bytes) {
    b != [] && b[0] == 'z' && FirstNul(b) < |b| && FirstNul(b) < cfg.bufSize
  }

  function ParseLine(cfg: Config, b: Bytes): Parsed
    requires HasLine(cfg, b)
  {
    RecogniseIn(cfg.table, b[1..FirstNul(b)], false)
  }

  /** The bytes a command takes: its line and NUL, and for FILDES the byte that carries the descriptor. */
  function LineSize(cfg: Config, b: Bytes): nat
    requires HasLine(cfg, b)
  {
    FirstNul(b) + 1 + if ParseLine(cfg, b).command == Fildes then 1 else 0
  }

  predicate CanExecute(cfg: Config, b: Bytes) {
    HasLine(cfg, b) && LineSize(cfg, b) <= |b|
  }

  /** More bytes than the buffer holds, and still no end of the command. */
  predicate Overlong(cfg: Config, b: Bytes) {
    b != [] && b[0] == 'z' && |b| > cfg.bufSize && FirstNul(b) >= cfg.bufSize
  }

  // --- Steps -----------------------------------------------------------------------

  predicate CanStep(cfg: Config, s: Conn) {
    match s.mode
    case CommandMode => CanExecute(cfg, s.pending) || Overlong(cfg, s.pending)
    case StreamMode => |s.pending| >= if s.chunk == 0 then 4 else 1
    case _ => false
  }

  function StepCommand(cfg: Config, s: Conn): Conn
    requires s.mode == CommandMode && CanStep(cfg, s)
  {
    if Overlong(cfg, s.pending) then s.(open := false, mode := Failed)
    else AfterCommand(cfg, s, ParseLine(cfg, s.pending)).(pending := s.pending[LineSize(cfg, s.pending)..])
  }

  /** The end of a stream: the content is scanned, under the id that is counted up next. */
  function EndStream(s: Conn): Conn {
    var t := s.(log := s.log + [StreamScan(s.dump, s.id, s.inSession)], id := s.id + 1);
    if !s.open then t.(mode := Finished)
    else if s.inSession then t.(mode := CommandMode)
    else t.(mode := WaitReply, open := false)
  }

  function StepStream(s: Conn): Conn
    requires s.mode == StreamMode && |s.pending| >= if s.chunk == 0 then 4 else 1
  {
    if s.chunk == 0 then
      var n := FromBe32(s.pending);
      var t := s.(pending := s.pending[4..]);
      if n == 0 then EndStream(t)
      else if n > s.quota then t.(open := false, mode := Failed)
      else t.(chunk := n, quota := s.quota - n)
    else
      s.(chunk := s.chunk - 1, dump := s.dump + [s.pending[0]], pending := s.pending[1..])
  }

  function Step(cfg: Config, s: Conn): Conn
    requires CanStep(cfg, s)
  {
    if s.mode == CommandMode then StepCommand(cfg, s) else StepStream(s)
  }

  function Rank(s: Conn): nat {
    |s.pending| + if s.mode == Failed then 0 else 1
  }

  /** All the steps that are possible. */
  function Drain(cfg: Config, s: Conn): Conn
    decreases Rank(s)
  {
    if CanStep(cfg, s) then Drain(cfg, Step(cfg, s)) else s
  }

  function Plus(s: Conn, q: Bytes): Conn {
    s.(pending := s.pending + q)
  }

  /** One packet arrives and is served; a closed connection receives nothing. */
  function Turn(cfg: Config, s: Conn, packet: Bytes): Conn {
    if s.open then Drain(cfg, Plus(s, packet)) else s
  }

  function Turns(cfg: Config, s: Conn, packets: seq<Bytes>): Conn
    decreases |packets|
  {
    if packets == [] then s else Turns(cfg, Turn(cfg, s, packets[0]), packets[1..])
  }

  // --- Later bytes do not change earlier steps ----------------------------------------

  lemma LineAppend(cfg: Config, b: Bytes, q: Bytes)
    requires HasLine(cfg, b)
    ensures HasLine(cfg, b + q) && ParseLine(cfg, b + q) == ParseLine(cfg, b) &&
            LineSize(cfg, b + q) == LineSize(cfg, b)
  {
    FirstNulAppend(b, q);
    assert (b + q)[1..FirstNul(b)] == b[1..FirstNul(b)];
  }

  /** A command's effect does not look at what is pending. */
  lemma AfterCommandPending(cfg: Config, s: Conn, p: Parsed, b: Bytes)
    ensures AfterCommand(cfg, s.(pending := b), p) == AfterCommand(cfg, s, p).(pending := b)
  {
  }

  lemma CommandAppend(cfg: Config, s: Conn, q: Bytes)
    requires s.mode == CommandMode && CanStep(cfg, s)
    ensures CanStep(cfg, Plus(s, q)) && StepCommand(cfg, Plus(s, q)) == Plus(StepCommand(cfg, s), q)
  {
    var b := s.pending;
    FirstNulAppend(b, q);
    if !Overlong(cfg, b) {
      LineAppend(cfg, b, q);
      assert !Overlong(cfg, b + q);
      var n := LineSize(cfg, b);
      assert (b + q)[n..] == b[n..] + q;
      AfterCommandPending(cfg, s, ParseLine(cfg, b), b + q);
    }
  }

  lemma StreamAppend(s: Conn, q: Bytes)
    requires s.mode == StreamMode && |s.pending| >= if s.chunk == 0 then 4 else 1
    ensures StepStream(Plus(s, q)) == Plus(StepStream(s), q)
  {
    var n := if s.chunk == 0 then 4 else 1;
    assert (s.pending + q)[n..] == s.pending[n..] + q;
  }

  lemma StepAppend(cfg: Config, s: Conn, q: Bytes)
    requires CanStep(cfg, s)
    ensures CanStep(cfg, Plus(s, q)) && Step(cfg, Plus(s, q)) == Plus(Step(cfg, s), q)
  {
    if s.mode == CommandMode {
      CommandAppend(cfg, s, q);
    } else {
      StreamAppend(s, q);
    }
  }

  /** Draining now or later makes no difference: a split of the input at any place is harmless. */
  lemma {:induction false} DrainAppend(cfg: Config, s: Conn, q: Bytes)
    ensures Drain(cfg, Plus(s, q)) == Drain(cfg, Plus(Drain(cfg, s), q))
    decreases Rank(s)
  {
    if CanStep(cfg, s) {
      StepAppend(cfg, s, q);
      DrainAppend(cfg, Step(cfg, s), q);
    }
  }
}
