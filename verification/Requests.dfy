/**
 What the clients put on the wire and what the server does with it, for every way the bytes can be
 split into packets: scan requests with a file name, streams, and whole IDSESSIONs.
 */
module Requests {
  import opened Options
  import opened Commands
  import opened Wire
  import opened SessionModel
  import opened Fragments
  import opened StreamCodec

  function Line(text: Bytes): Bytes {
    "z" + text + ['\0']
  }

  predicate NulFree(b: Bytes) {
    forall i :: 0 <= i < |b| ==> b[i] != '\0'
  }

  lemma FirstNulOfLine(text: Bytes, rest: Bytes)
    requires NulFree(text)
    ensures FirstNul(Line(text) + rest) == |text| + 1
  {
    var b := Line(text) + rest;
    assert b[|text| + 1] == '\0';
    forall i | 0 <= i < |text| + 1 ensures b[i] != '\0' {
      if i > 0 {
        assert b[i] == text[i - 1];
      }
    }
  }

  lemma LineParts(cfg: Config, text: Bytes, rest: Bytes)
    requires NulFree(text) && |text| + 1 < cfg.bufSize
    ensures var b := Line(text) + rest;
            HasLine(cfg, b) && !Overlong(cfg, b) && ParseLine(cfg, b) == RecogniseIn(cfg.table, text, false)
  {
    var b := Line(text) + rest;
    FirstNulOfLine(text, rest);
    assert b[1..|text| + 1] == text;
  }

  /** One command on an open connection; FILDES takes one more byte. */
  lemma ServeLine(cfg: Config, s: Conn, text: Bytes, extra: Bytes, rest: Bytes)
    requires s.open && s.mode == CommandMode && NulFree(text) && |text| + 1 < cfg.bufSize
    requires s.pending == Line(text) + extra + rest
    requires |extra| == if RecogniseIn(cfg.table, text, false).command == Fildes then 1 else 0
    ensures Serve(cfg, s) == Serve(cfg, AfterCommand(cfg, s, RecogniseIn(cfg.table, text, false)).(pending := rest))
  {
    hide AfterCommand, RecogniseIn;
    assert Line(text) + extra + rest == Line(text) + (extra + rest);
    LineParts(cfg, text, extra + rest);
    FirstNulOfLine(text, extra + rest);
    assert s.pending[LineSize(cfg, s.pending)..] == rest;
    StepClosing(cfg, s);
  }

  /** When everything is consumed, no command trails. */
  lemma NotTrailing(cfg: Config, s: Conn)
    requires s.open && (Serve(cfg, s).pending == [] || Serve(cfg, s).mode != CommandMode)
    ensures !Trailing(cfg, s)
  {
    ServeViaLastOpen(cfg, s);
  }

  /** From a fresh connection the outcome of any legal split is that of the whole. */
  lemma AnySplit(cfg: Config, packets: seq<Bytes>)
    requires AllLegal(cfg, NEW_CONN, packets)
    requires var c := Serve(cfg, NEW_CONN.(pending := Flatten(packets))); c.pending == [] || c.mode != CommandMode
    ensures Turns(cfg, NEW_CONN, packets).log == Serve(cfg, NEW_CONN.(pending := Flatten(packets))).log
    ensures Turns(cfg, NEW_CONN, packets).open == Serve(cfg, NEW_CONN.(pending := Flatten(packets))).open
  {
    hide Step, CanStep, Trailing;
    assert Plus(NEW_CONN, Flatten(packets)) == NEW_CONN.(pending := Flatten(packets));
    NothingPending(cfg, NEW_CONN);
    NotTrailing(cfg, NEW_CONN.(pending := Flatten(packets)));
    SplitDoesNotMatter(cfg, NEW_CONN, packets);
  }

  // --- A trailing command --------------------------------------------------------------

  lemma PingLine()
    ensures NulFree("PING") && Recognise("PING", false) == Parsed(Ping, None)
  {
    hide Recognise;
    RecognisedBy("PING", 4);
  }

  /** PING outside a session closes the connection and leaves the parser where it was. */
  lemma PingCloses(cfg: Config, s: Conn, rest: Bytes)
    requires cfg.table == TABLE && cfg.bufSize >= 6 && s.open && s.mode == CommandMode && !s.inSession
    requires s.pending == Line("PING") + rest
    ensures CanExecute(cfg, s.pending) && LineSize(cfg, s.pending) == 6 && CanStep(cfg, s)
    ensures var t := Step(cfg, s); !t.open && t.mode == CommandMode && t.pending == rest
  {
    hide RecogniseIn;
    PingLine();
    assert RecogniseIn(cfg.table, "PING", false) == Recognise("PING", false);
    LineParts(cfg, "PING", rest);
    FirstNulOfLine("PING", rest);
    StepClosing(cfg, s);
    assert s.pending[6..] == rest;
  }

  /** Two PINGs in one packet are both answered, and byte by byte only the first is. */
  lemma PingTwice(cfg: Config)
    requires cfg.table == TABLE && cfg.bufSize >= 12
    ensures Trailing(cfg, NEW_CONN.(pending := Line("PING") + Line("PING")))
    ensures SplitMatters(cfg, NEW_CONN, Line("PING") + Line("PING"))
  {
    hide CanStep, Step, SplitMatters;
    var two := Line("PING") + Line("PING");
    var s := NEW_CONN.(pending := two);
    PingCloses(cfg, s, Line("PING"));
    assert Line("PING") == Line("PING") + [];
    PingCloses(cfg, NEW_CONN.(pending := Line("PING")), []);
    assert LastOpen(cfg, s) == s;
    assert Plus(NEW_CONN, two) == s;
    SplitMattersIff(cfg, NEW_CONN, two);
  }

  // --- Scan requests with a file name --------------------------------------------------

  lemma ScanLine(t: ScanType, filename: Bytes)
    requires NulFree(filename)
    ensures var text := ScanText(t) + " " + filename;
            NulFree(text) && Line(text) == EncodeScan(t, filename) && FirstNul(EncodeScan(t, filename)) == |text| + 1
  {
    var text := ScanText(t) + " " + filename;
    ScanNulFree(t);
    assert Line(text) == EncodeScan(t, filename);
    assert Line(text) + [] == EncodeScan(t, filename);
    FirstNulOfLine(text, []);
  }

  lemma ServeFittingScan(cfg: Config, t: ScanType, filename: Bytes)
    requires cfg.table == TABLE && NulFree(filename) && |EncodeScan(t, filename)| <= cfg.bufSize
    ensures var c := Serve(cfg, NEW_CONN.(pending := EncodeScan(t, filename)));
            !c.open && c.mode == WaitReply && c.log == [Executed(ScanCommand(t), Some(filename), 0, false)]
  {
    hide RecogniseIn, Serve, ScanText, EncodeScan;
    var text := ScanText(t) + " " + filename;
    var s := NEW_CONN.(pending := EncodeScan(t, filename));
    ScanLine(t, filename);
    ScanRecognised(t, filename);
    assert RecogniseIn(cfg.table, text, false) == Recognise(text, false);
    assert Line(text) + [] + [] == s.pending;
    ServeLine(cfg, s, text, [], []);
    ServeStopped(cfg, AfterCommand(cfg, s, Parsed(ScanCommand(t), Some(filename))).(pending := []));
  }

  lemma ServeOverlongScan(cfg: Config, t: ScanType, filename: Bytes)
    requires NulFree(filename) && |EncodeScan(t, filename)| > cfg.bufSize
    ensures var c := Serve(cfg, NEW_CONN.(pending := EncodeScan(t, filename)));
            !c.open && c.mode == Failed && c.log == []
  {
    hide CanExecute, AfterCommand;
    var s := NEW_CONN.(pending := EncodeScan(t, filename));
    ScanLine(t, filename);
    assert Overlong(cfg, s.pending);
    ServeStopped(cfg, Step(cfg, s));
  }

  lemma ScanNulFree(t: ScanType)
    ensures NulFree(ScanText(t))
  {
    match t case Cont => case Multi => case AllMatch =>
  }

  /**
   The request a client builds for a file is understood as that request, with that file name, in whatever
   pieces it arrives, if and only if it fits the receive buffer; otherwise the connection is given up.
   */
  lemma ScanRoundTrip(cfg: Config, t: ScanType, filename: Bytes, packets: seq<Bytes>)
    requires cfg.table == TABLE && NulFree(filename)
    requires Flatten(packets) == EncodeScan(t, filename) && AllLegal(cfg, NEW_CONN, packets)
    ensures Turns(cfg, NEW_CONN, packets).log == [Executed(ScanCommand(t), Some(filename), 0, false)]
            <==> |ScanText(t)| + |filename| + 3 <= cfg.bufSize
    ensures |ScanText(t)| + |filename| + 3 > cfg.bufSize ==> Turns(cfg, NEW_CONN, packets).log == []
  {
    hide Serve;
    if |EncodeScan(t, filename)| <= cfg.bufSize {
      ServeFittingScan(cfg, t, filename);
    } else {
      ServeOverlongScan(cfg, t, filename);
    }
    AnySplit(cfg, packets);
  }

  // --- Streams ----------------------------------------------------------------------

  predicate Fits(cfg: Config, content: Bytes) {
    content == [] || |content| <= cfg.streamMax
  }

  /** IDSESSION comes first in the table and shares the first letter. */
  lemma InstreamComesFirst(j: nat)
    requires j < 14
    ensures !(TABLE[j].text <= "INSTREAM")
  {
    if j == 13 {
      assert TABLE[13].text[1] == 'D';
    } else {
      TableHead(j);
    }
  }

  lemma InstreamLine()
    ensures NulFree("INSTREAM") && Recognise("INSTREAM", false) == Parsed(Instream, None)
  {
    hide FirstMatch;
    var line := "INSTREAM";
    forall j | 0 <= j < 14 ensures !(TABLE[j].text <= line) {
      InstreamComesFirst(j);
    }
    FirstMatchIs(TABLE, line, 0, 14);
  }

  lemma IdSessionLine()
    ensures NulFree("IDSESSION") && Recognise("IDSESSION", false) == Parsed(IdSession, None)
  {
    hide Recognise;
    RecognisedBy("IDSESSION", 13);
  }

  lemma FildesLine()
    ensures NulFree("FILDES") && Recognise("FILDES", false) == Parsed(Fildes, None)
  {
    hide Recognise;
    RecognisedBy("FILDES", 11);
  }

  lemma EndLine()
    ensures NulFree("END") && Recognise("END", false) == Parsed(End, None)
  {
    hide Recognise;
    RecognisedBy("END", 8);
  }

  /** A command loop ready for the next request. */
  predicate Ready(s: Conn) {
    s.open && s.mode == CommandMode && s.chunk == 0
  }

  lemma ServeAsk(cfg: Config, s: Conn, body: Bytes)
    requires Ready(s) && cfg.table == TABLE && cfg.bufSize >= 11
    requires s.pending == Line("INSTREAM") + body
    ensures Serve(cfg, s) == Serve(cfg, s.(mode := StreamMode,
            log := s.log + [Executed(Instream, None, s.id, s.inSession)],
                                           quota := cfg.streamMax, dump := [], pending := body))
  {
    hide Serve, RecogniseIn;
    InstreamLine();
    assert RecogniseIn(cfg.table, "INSTREAM", false) == Recognise("INSTREAM", false);
    assert s.pending == Line("INSTREAM") + [] + body;
    ServeLine(cfg, s, "INSTREAM", [], body);
  }

  /** INSTREAM and its stream: scanned as a whole, or the connection is given up. */
  lemma ServeInstream(cfg: Config, s: Conn, chunks: seq<Bytes>, rest: Bytes)
    requires Ready(s) && cfg.table == TABLE && cfg.bufSize >= 11 && GoodChunks(chunks)
    requires s.pending == Line("INSTREAM") + EncodeStream(chunks) + rest
    ensures var asked := s.log + [Executed(Instream, None, s.id, s.inSession)];
            var content := Flatten(chunks);
            && (Fits(cfg, content) ==>
                  Serve(cfg, s) == Serve(cfg, EndStream(s.(mode := StreamMode, log := asked,
                    quota := cfg.streamMax - |content|, dump := content, pending := rest))))
            && (!Fits(cfg, content) ==>
                  Serve(cfg, s).mode == Failed && !Serve(cfg, s).open && Serve(cfg, s).log == asked)
  {
    hide Serve, EndStream, Line;
    var body := EncodeStream(chunks) + rest;
    assert s.pending == Line("INSTREAM") + body;
    ServeAsk(cfg, s, body);
    var t := s.(mode := StreamMode, log := s.log + [Executed(Instream, None, s.id, s.inSession)],
                quota := cfg.streamMax, dump := [], pending := body);
    ServeStream(cfg, t, chunks, rest);
    assert [] + Flatten(chunks) == Flatten(chunks);
  }

  /** A stream on its own connection, in any pieces, is scanned with exactly its content if it fits. */
  lemma StreamRoundTrip(cfg: Config, chunks: seq<Bytes>, packets: seq<Bytes>)
    requires cfg.table == TABLE && cfg.bufSize >= 11 && GoodChunks(chunks)
    requires Flatten(packets) == Line("INSTREAM") + EncodeStream(chunks) && AllLegal(cfg, NEW_CONN, packets)
    ensures var asked := [Executed(Instream, None, 0, false)];
            Turns(cfg, NEW_CONN, packets).log ==
              if Fits(cfg, Flatten(chunks)) then asked + [StreamScan(Flatten(chunks), 0, false)] else asked
    ensures !Turns(cfg, NEW_CONN, packets).open
  {
    hide AllLegal, Turns, Serve, Line, EncodeStream;
    var s := NEW_CONN.(pending := Flatten(packets));
    assert s.pending == Line("INSTREAM") + EncodeStream(chunks) + [];
    ServeInstream(cfg, s, chunks, []);
    assert [] + [Executed(Instream, None, 0, false)] == [Executed(Instream, None, 0, false)];
    if Fits(cfg, Flatten(chunks)) {
      ServeStopped(cfg, EndStream(s.(mode := StreamMode, log := [Executed(Instream, None, 0, false)],
                                    quota := cfg.streamMax - |Flatten(chunks)|, dump := Flatten(chunks),
                                    pending := [])));
    }
    AnySplit(cfg, packets);
  }

  // --- Sessions ---------------------------------------------------------------------

  /** A request that `parallel_callback` sends in full. */
  datatype Request = Descriptor(carrier: char) | Stream(chunks: seq<Bytes>)

  predicate GoodRequest(r: Request) {
    r.Stream? ==> GoodChunks(r.chunks)
  }

  predicate GoodRequests(rs: seq<Request>) {
    forall i :: 0 <= i < |rs| ==> GoodRequest(rs[i])
  }

  function EncodeRequest(r: Request): Bytes
    requires GoodRequest(r)
  {
    match r
    case Descriptor(carrier) => Line("FILDES") + [carrier]
    case Stream(chunks) => Line("INSTREAM") + EncodeStream(chunks)
  }

  function EncodeRequests(rs: seq<Request>): Bytes
    requires GoodRequests(rs)
  {
    if rs == [] then Line("END") else EncodeRequest(rs[0]) + EncodeRequests(rs[1..])
  }

  /** The bytes of a whole session as `parallel_client_scan` sends them. */
  function EncodeSession(rs: seq<Request>): Bytes
    requires GoodRequests(rs)
  {
    Line("IDSESSION") + EncodeRequests(rs)
  }

  predicate Served(cfg: Config, r: Request) {
    r.Stream? ==> Fits(cfg, Flatten(r.chunks))
  }

  /** What the server does for request number `k` of a session. */
  function RequestEvents(r: Request, k: nat): seq<Event> {
    match r
    case Descriptor(_) => [Executed(Fildes, None, k, true)]
    case Stream(chunks) => [Executed(Instream, None, k, true), StreamScan(Flatten(chunks), k, true)]
  }

  /** ... and for the requests from number `k` on: the first stream beyond the limit ends it. */
  function SessionEvents(cfg: Config, rs: seq<Request>, k: nat): seq<Event> {
    if rs == [] then [Executed(End, None, k, true)]
    else if !Served(cfg, rs[0]) then [Executed(Instream, None, k, true)]
    else RequestEvents(rs[0], k) + SessionEvents(cfg, rs[1..], k + 1)
  }

  lemma ServeDescriptor(cfg: Config, s: Conn, carrier: char, rest: Bytes)
    requires Ready(s) && s.inSession && cfg.table == TABLE && cfg.bufSize >= 11
    requires s.pending == Line("FILDES") + [carrier] + rest
    ensures Serve(cfg, s) ==
            Serve(cfg, s.(id := s.id + 1, log := s.log + [Executed(Fildes, None, s.id, true)], pending := rest))
  {
    hide Serve, RecogniseIn;
    FildesLine();
    assert RecogniseIn(cfg.table, "FILDES", false) == Recognise("FILDES", false);
    ServeLine(cfg, s, "FILDES", [carrier], rest);
  }

  lemma ServeEnd(cfg: Config, s: Conn)
    requires Ready(s) && s.inSession && cfg.table == TABLE && cfg.bufSize >= 11 && s.pending == Line("END")
    ensures !Serve(cfg, s).open && Serve(cfg, s).pending == []
    ensures Serve(cfg, s).log == s.log + [Executed(End, None, s.id, true)]
  {
    hide RecogniseIn;
    EndLine();
    assert RecogniseIn(cfg.table, "END", false) == Recognise("END", false);
    assert s.pending == Line("END") + [] + [];
    ServeLine(cfg, s, "END", [], []);
  }

  /** One request that is served: the session goes on with the next id. */
  lemma RequestStep(cfg: Config, s: Conn, r: Request, rest: Bytes) returns (t: Conn)
    requires Ready(s) && s.inSession && cfg.table == TABLE && cfg.bufSize >= 11
    requires GoodRequest(r) && Served(cfg, r) && s.pending == EncodeRequest(r) + rest
    ensures Ready(t) && t.inSession && t.pending == rest && t.id == s.id + 1 && t.log == s.log + RequestEvents(r, s.id)
    ensures Serve(cfg, s) == Serve(cfg, t)
  {
    hide Serve;
    if r.Descriptor? {
      ServeDescriptor(cfg, s, r.carrier, rest);
      t := s.(id := s.id + 1, log := s.log + [Executed(Fildes, None, s.id, true)], pending := rest);
    } else {
      ServeInstream(cfg, s, r.chunks, rest);
      var content := Flatten(r.chunks);
      t := EndStream(s.(mode := StreamMode, log := s.log + [Executed(Instream, None, s.id, true)],
                        quota := cfg.streamMax - |content|, dump := content, pending := rest));
    }
  }

  lemma {:induction false} ServeRequests(cfg: Config, s: Conn, rs: seq<Request>)
    requires Ready(s) && s.inSession && cfg.table == TABLE && cfg.bufSize >= 11 && GoodRequests(rs)
    requires s.pending == EncodeRequests(rs)
    ensures var c := Serve(cfg, s);
            !c.open && (c.pending == [] || c.mode == Failed) && c.log == s.log + SessionEvents(cfg, rs, s.id)
    decreases |rs|
  {
    hide Serve, EncodeRequest, RequestEvents;
    if rs == [] {
      ServeEnd(cfg, s);
    } else {
      var r, more := rs[0], rs[1..];
      if Served(cfg, r) {
        var t := RequestStep(cfg, s, r, EncodeRequests(more));
        ServeRequests(cfg, t, more);
      } else {
        ServeOverLimit(cfg, s, r, EncodeRequests(more));
      }
    }
  }

  lemma ServeOverLimit(cfg: Config, s: Conn, r: Request, rest: Bytes)
    requires Ready(s) && s.inSession && cfg.table == TABLE && cfg.bufSize >= 11
    requires GoodRequest(r) && !Served(cfg, r) && s.pending == EncodeRequest(r) + rest
    ensures var c := Serve(cfg, s);
            !c.open && c.mode == Failed && c.log == s.log + [Executed(Instream, None, s.id, true)]
  {
    hide Serve;
    ServeInstream(cfg, s, r.chunks, rest);
  }

  /** A whole session, in any pieces: every request is served in order, under its own number. */
  lemma SessionRoundTrip(cfg: Config, rs: seq<Request>, packets: seq<Bytes>)
    requires cfg.table == TABLE && cfg.bufSize >= 11 && GoodRequests(rs)
    requires Flatten(packets) == EncodeSession(rs) && AllLegal(cfg, NEW_CONN, packets)
    ensures Turns(cfg, NEW_CONN, packets).log == [Executed(IdSession, None, 0, false)] + SessionEvents(cfg, rs, 1)
    ensures !Turns(cfg, NEW_CONN, packets).open
  {
    hide AllLegal, Turns, Serve, RecogniseIn, SessionEvents;
    var s := NEW_CONN.(pending := Flatten(packets));
    IdSessionLine();
    assert RecogniseIn(cfg.table, "IDSESSION", false) == Recognise("IDSESSION", false);
    assert s.pending == Line("IDSESSION") + [] + EncodeRequests(rs);
    ServeLine(cfg, s, "IDSESSION", [], EncodeRequests(rs));
    var t := NEW_CONN.(inSession := true, id := 1, log := [Executed(IdSession, None, 0, false)],
        pending := EncodeRequests(rs));
    assert AfterCommand(cfg, s, Parsed(IdSession, None)).(pending := EncodeRequests(rs)) == t;
    ServeRequests(cfg, t, rs);
    AnySplit(cfg, packets);
  }

  /** The ids under which files are scanned. */
  function ScanIds(log: seq<Event>): seq<nat> {
    if log == [] then [] else ScanId(log[0]) + ScanIds(log[1..])
  }

  function ScanId(e: Event): seq<nat> {
    if e.StreamScan? || e.command == Fildes then [e.id] else []
  }

  lemma {:induction false} ScanIdsConcat(a: seq<Event>, b: seq<Event>)
    ensures ScanIds(a + b) == ScanIds(a) + ScanIds(b)
    decreases |a|
  {
    hide ScanId;
    if a == [] {
      assert a + b == b;
    } else {
      assert (a + b)[0] == a[0] && (a + b)[1..] == a[1..] + b;
      ScanIdsConcat(a[1..], b);
      assert ScanId(a[0]) + (ScanIds(a[1..]) + ScanIds(b)) == ScanId(a[0]) + ScanIds(a[1..]) + ScanIds(b);
    }
  }

  function Numbers(k: nat, n: nat): (r: seq<nat>)
    ensures |r| == n && forall i :: 0 <= i < n ==> r[i] == k + i
    decreases n
  {
    if n == 0 then [] else [k] + Numbers(k + 1, n - 1)
  }

  lemma RequestId(r: Request, k: nat)
    ensures ScanIds(RequestEvents(r, k)) == [k]
  {
    var e := RequestEvents(r, k);
    assert ScanIds(e[1..]) == if r.Descriptor? then [] else [k];
  }

  /** When every request is served, the k-th one is scanned under number k. */
  lemma {:induction false} RequestsAreNumbered(cfg: Config, rs: seq<Request>, k: nat)
    requires forall i :: 0 <= i < |rs| ==> Served(cfg, rs[i])
    ensures ScanIds(SessionEvents(cfg, rs, k)) == Numbers(k, |rs|)
    decreases |rs|
  {
    hide RequestEvents;
    if rs != [] {
      RequestsAreNumbered(cfg, rs[1..], k + 1);
      ScanIdsConcat(RequestEvents(rs[0], k), SessionEvents(cfg, rs[1..], k + 1));
      RequestId(rs[0], k);
    }
  }
}
