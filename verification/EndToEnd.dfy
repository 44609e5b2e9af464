/** Clients and server put together: what the encoders wrote goes through the receive buffer in any pieces. */
module EndToEnd {
  import opened Options
  import opened Commands
  import opened SessionModel
  import opened Fragments
  import opened StreamCodec
  import opened Requests
  import opened RecvBuffer
  import FileStream
  import MilterStream

  /** An open connection parses commands or a stream. */
  predicate Serving(s: Conn) {
    s.open ==> s.mode == CommandMode || s.mode == StreamMode
  }

  lemma StepServing(cfg: Config, s: Conn)
    requires Serving(s) && CanStep(cfg, s)
    ensures Serving(Step(cfg, s))
  {
    hide CanExecute, HasLine, ParseLine, LineSize;
  }

  lemma {:induction false} DrainServing(cfg: Config, s: Conn)
    requires Serving(s)
    ensures Serving(Drain(cfg, s))
    decreases Rank(s)
  {
    hide Step, CanStep, Serving;
    if CanStep(cfg, s) {
      StepServing(cfg, s);
      StepRanks(cfg, s);
      DrainServing(cfg, Step(cfg, s));
    }
  }

  lemma {:induction false} AllLegalSnoc(cfg: Config, s: Conn, packets: seq<Bytes>, packet: Bytes)
    requires AllLegal(cfg, s, packets) && Legal(cfg, Turns(cfg, s, packets), packet)
    ensures AllLegal(cfg, s, packets + [packet])
    decreases |packets|
  {
    hide Turn;
    if packets == [] {
      assert (packets + [packet])[1..] == [];
    } else {
      assert (packets + [packet])[1..] == packets[1..] + [packet];
      AllLegalSnoc(cfg, Turn(cfg, s, packets[0]), packets[1..], packet);
    }
  }

  lemma {:induction false} AllLegalConcat(cfg: Config, s: Conn, a: seq<Bytes>, b: Bytes)
    requires AllLegal(cfg, s, a)
    ensures AllLegal(cfg, s, a + Singles(b))
    decreases |a|
  {
    hide Turn;
    if a == [] {
      assert a + Singles(b) == Singles(b);
      OnlySinglesLegal(cfg, s, b);
    } else {
      assert (a + Singles(b))[1..] == a[1..] + Singles(b);
      AllLegalConcat(cfg, Turn(cfg, s, a[0]), a[1..], b);
    }
  }

  /** How far the delivery is, and that the buffer agrees with the model. */
  ghost predicate Delivered(buf: FdBuf, start: Conn, bytes: Bytes, pos: nat, packets: seq<Bytes>)
    reads buf, buf.buffer
  {
    && buf.Valid() && pos <= |bytes| && Flatten(packets) == bytes[..pos] && AllLegal(buf.cfg, start, packets)
    && var t := Turns(buf.cfg, start, packets);
       buf.open == t.open && buf.log == t.log &&
       (buf.open ==> buf.State() == t && !CanStep(buf.cfg, t) && Serving(t))
  }

  lemma DeliverMore(cfg: Config, start: Conn, bytes: Bytes, pos: nat, packets: seq<Bytes>, n: nat)
    requires pos + n <= |bytes| && Flatten(packets) == bytes[..pos] && AllLegal(cfg, start, packets)
    requires var t := Turns(cfg, start, packets); t.open && |t.pending| + n <= cfg.bufSize && Serving(t)
    ensures var packet := bytes[pos..pos + n];
            && Flatten(packets + [packet]) == bytes[..pos + n] && AllLegal(cfg, start, packets + [packet])
            && Turns(cfg, start, packets + [packet]) == Turn(cfg, Turns(cfg, start, packets), packet)
            && Serving(Turn(cfg, Turns(cfg, start, packets), packet))
  {
    hide Drain, Turns, AllLegal;
    var packet, t := bytes[pos..pos + n], Turns(cfg, start, packets);
    FlattenSnoc(packets, packet);
    assert bytes[..pos] + packet == bytes[..pos + n];
    AllLegalSnoc(cfg, start, packets, packet);
    TurnsConcat(cfg, start, packets, [packet]);
    OneTurn(cfg, t, packet);
    DrainServing(cfg, Plus(t, packet));
  }

  lemma OneTurn(cfg: Config, s: Conn, packet: Bytes)
    ensures Turns(cfg, s, [packet]) == Turn(cfg, s, packet)
  {
    hide Turn;
    assert [packet][1..] == [];
  }

  method DeliverOne(buf: FdBuf, ghost start: Conn, bytes: Bytes, pos: nat, ghost packets: seq<Bytes>, n: nat)
    returns (ghost more: seq<Bytes>)
    requires Delivered(buf, start, bytes, pos, packets) && buf.open && buf.off + n <= buf.cfg.bufSize
    requires pos + n <= |bytes| && buf.off < buf.cfg.bufSize
    modifies buf, buf.buffer
    ensures Delivered(buf, start, bytes, pos + n, more)
  {
    hide CanStep, Turn, Turns, AllLegal, Flatten;
    DeliverMore(buf.cfg, start, bytes, pos, packets, n);
    more := packets + [bytes[pos..pos + n]];
    buf.ServePacket(bytes[pos..pos + n]);
  }

  /**
   The receive loop until everything is delivered, the connection is closed or the buffer is full. Packet
   number k holds up to `piece(k)` bytes more than one, as far as there is room.
   */
  method Feed(buf: FdBuf, bytes: Bytes, piece: nat -> nat) returns (full: bool, ghost packets: seq<Bytes>)
    requires buf.Valid() && buf.open && !CanStep(buf.cfg, buf.State()) && Serving(buf.State())
    modifies buf, buf.buffer
    ensures buf.Valid() && AllLegal(buf.cfg, old(buf.State()), packets)
    ensures !full ==> Flatten(packets) == bytes && buf.log == Turns(buf.cfg, old(buf.State()), packets).log
    ensures full ==>
              var t := Turns(buf.cfg, old(buf.State()), packets);
              t.open && |t.pending| == buf.cfg.bufSize && Flatten(packets) <= bytes
  {
    hide CanStep, Turns, AllLegal, Flatten;
    ghost var start := buf.State();
    var pos: nat, k: nat := 0, 0;
    packets, full := [], false;
    NothingDelivered(buf.cfg, start);
    while pos < |bytes| && buf.open
      invariant Delivered(buf, start, bytes, pos, packets)
      decreases |bytes| - pos
    {
      if buf.off == buf.cfg.bufSize {
        full := true;
        return;
      }
      var n := piece(k) + 1;
      if n > buf.cfg.bufSize - buf.off {
        n := buf.cfg.bufSize - buf.off;
      }
      if n > |bytes| - pos {
        n := |bytes| - pos;
      }
      packets := DeliverOne(buf, start, bytes, pos, packets, n);
      pos, k := pos + n, k + 1;
    }
    ghost var rest := bytes[pos..];
    Undelivered(buf.cfg, start, packets, bytes, pos);
    packets := packets + Singles(rest);
  }

  lemma NothingDelivered(cfg: Config, s: Conn)
    ensures Flatten([]) == [] && AllLegal(cfg, s, []) && Turns(cfg, s, []) == s
  {
  }

  /** What arrives after the close changes nothing. */
  lemma Undelivered(cfg: Config, start: Conn, packets: seq<Bytes>, bytes: Bytes, pos: nat)
    requires pos <= |bytes| && Flatten(packets) == bytes[..pos] && AllLegal(cfg, start, packets)
    requires pos == |bytes| || !Turns(cfg, start, packets).open
    ensures var all := packets + Singles(bytes[pos..]);
            Flatten(all) == bytes && AllLegal(cfg, start, all) &&
            Turns(cfg, start, all) == Turns(cfg, start, packets)
  {
    hide Turn, AllLegal;
    var rest := bytes[pos..];
    AllLegalConcat(cfg, start, packets, rest);
    FlattenConcat(packets, Singles(rest));
    FlattenSingles(rest);
    assert bytes[..pos] + rest == bytes;
    TurnsConcat(cfg, start, packets, Singles(rest));
    if pos < |bytes| {
      TurnsFacts(cfg, Turns(cfg, start, packets), Singles(rest));
    }
  }

  // --- A stream never fills the buffer ------------------------------------------------------

  /** Outside a session a stream goes on until the connection is closed. */
  lemma {:induction false} StreamStays(cfg: Config, s: Conn)
    requires s.open && s.mode == StreamMode && !s.inSession
    ensures var c := Serve(cfg, s);
            c.mode != CommandMode && (c.open ==> c.mode == StreamMode && !CanStep(cfg, c))
    decreases Rank(s)
  {
    if CanStep(cfg, s) && Step(cfg, s).open {
      StepRanks(cfg, s);
      StreamStays(cfg, Step(cfg, s));
    }
  }

  lemma IdleServe(cfg: Config, s: Conn)
    requires s.open && !CanStep(cfg, s)
    ensures Serve(cfg, s) == s && !Trailing(cfg, s)
  {
    hide CanStep, Step;
  }

  /** Whatever has arrived of a stream with its command, what waits in the buffer is short, and nothing trails. */
  lemma StreamPrefix(cfg: Config, body: Bytes, prefix: Bytes)
    requires cfg.table == TABLE && cfg.bufSize >= 11 && prefix <= Line("INSTREAM") + body
    ensures var s := NEW_CONN.(pending := prefix);
            !Trailing(cfg, s) && (Serve(cfg, s).open ==> |Serve(cfg, s).pending| < 11)
  {
    var s := NEW_CONN.(pending := prefix);
    if |prefix| < 10 {
      NoLineYet(cfg, body, prefix);
      IdleServe(cfg, s);
    } else {
      var rest := prefix[10..];
      assert prefix == Line("INSTREAM") + rest;
      ServeAsk(cfg, s, rest);
      StreamStays(cfg, s.(mode := StreamMode, log := s.log + [Executed(Instream, None, 0, false)],
                          quota := cfg.streamMax, dump := [], pending := rest));
      NotTrailing(cfg, s);
    }
  }

  lemma NoLineYet(cfg: Config, body: Bytes, prefix: Bytes)
    requires cfg.bufSize >= 11 && prefix <= Line("INSTREAM") + body && |prefix| < 10
    ensures !CanStep(cfg, NEW_CONN.(pending := prefix))
  {
    var all := Line("INSTREAM") + body;
    assert forall i :: 0 <= i < |prefix| ==> prefix[i] == all[i];
    assert forall i :: 0 <= i < |prefix| ==> prefix[i] == "zINSTREAM"[i];
  }

  lemma NeverFull(cfg: Config, body: Bytes, packets: seq<Bytes>)
    requires cfg.table == TABLE && cfg.bufSize >= 11 && AllLegal(cfg, NEW_CONN, packets)
    requires Flatten(packets) <= Line("INSTREAM") + body
    ensures var t := Turns(cfg, NEW_CONN, packets); t.open ==> |t.pending| < cfg.bufSize
  {
    hide Step, CanStep, Trailing, Serve, Turns, AllLegal;
    StreamPrefix(cfg, body, Flatten(packets));
    assert Plus(NEW_CONN, Flatten(packets)) == NEW_CONN.(pending := Flatten(packets));
    NothingPending(cfg, NEW_CONN);
    SplitDoesNotMatter(cfg, NEW_CONN, packets);
  }

  /** A stream with its command goes to a new connection, in any pieces. */
  method ServeBytes(cfg: Config, wire: Bytes, ghost chunks: seq<Bytes>, piece: nat -> nat) returns (log: seq<Event>)
    requires cfg.table == TABLE && cfg.bufSize >= 11 && Line("INSTREAM") <= wire
    ensures GoodChunks(chunks) && wire == Line("INSTREAM") + EncodeStream(chunks) ==>
              var asked := [Executed(Instream, None, 0, false)];
              log == if Fits(cfg, Flatten(chunks)) then asked + [StreamScan(Flatten(chunks), 0, false)] else asked
  {
    hide Line, EncodeStream, Flatten, AllLegal, Turns, CanStep;
    var buf := new FdBuf(cfg);
    NothingPending(cfg, NEW_CONN);
    var full;
    ghost var packets;
    full, packets := Feed(buf, wire, piece);
    ghost var body := wire[|Line("INSTREAM")|..];
    assert wire == Line("INSTREAM") + body;
    if full {
      NeverFull(cfg, body, packets);
    } else if GoodChunks(chunks) && wire == Line("INSTREAM") + EncodeStream(chunks) {
      StreamRoundTrip(cfg, chunks, packets);
    }
    log := buf.log;
  }

  // --- From client to scan ---------------------------------------------------------------

  /** `clamdscan` streams a file, clamd receives it in any pieces: it scans exactly the file up to the limit. */
  method StreamFile(cfg: Config, content: Bytes, statSize: Option<nat>, reject: bool, piece: nat -> nat)
    returns (o: FileStream.Outcome, log: seq<Event>)
    requires cfg.table == TABLE && cfg.bufSize >= 11 && cfg.streamMax > 0
    ensures o.ret == 1 && !o.sendFailed ==>
              log == [Executed(Instream, None, 0, false), StreamScan(Take(cfg.streamMax, content), 0, false)]
    ensures o.ret == 1 && !o.sendFailed && reject ==>
              log == [Executed(Instream, None, 0, false), StreamScan(content, 0, false)]
  {
    hide Line, EncodeStream, Flatten;
    ghost var chunks;
    o, chunks := FileStream.SendStream(content, statSize, cfg.streamMax, reject);
    log := [];
    if o.ret == 1 && !o.sendFailed {
      log := ServeBytes(cfg, o.wire, chunks, piece);
      assert |Take(cfg.streamMax, content)| <= cfg.streamMax;
    }
  }

  lemma KeptIsTaken(m: nat, text: Bytes)
    ensures MilterStream.Promised(m, text) == Take(m, MilterStream.BANNER + text)
  {
  }

  /**
   The milter streams a mail, clamd receives it in any pieces. The stream is opened here with the z-style
   command. What is scanned is the promised text exactly when the limit has room for the banner.
   */
  method StreamMail(cfg: Config, m: nat, cbs: seq<MilterStream.Callback>, reachable: bool, sendOk: nat -> bool,
                    piece: nat -> nat)
    returns (st: MilterStream.Status, scan: bool, log: seq<Event>)
    requires cfg.table == TABLE && cfg.bufSize >= 11
    ensures reachable && (forall k :: sendOk(k)) ==> st == MilterStream.Continue
    ensures var text := MilterStream.RenderAll(cbs, false);
            var sent := MilterStream.Sent(m, text);
            st == MilterStream.Continue && MilterStream.NoWrap(m, text) ==>
              && scan == (m > 0 && text != [])
              && (scan && |sent| <= cfg.streamMax ==>
                    && log == [Executed(Instream, None, 0, false), StreamScan(sent, 0, false)]
                    && (sent == MilterStream.Promised(m, text) <==> m >= 20 || text[0] == MilterStream.BANNER[m - 1]))
    ensures forall fields, pieces :: cbs == MilterStream.MailCallbacks(fields, pieces) ==>
              var mail := MilterStream.MailText(fields, pieces);
              var all := Take(m, MilterStream.BANNER + mail);
              st == MilterStream.Continue && MilterStream.NoWrap(m, mail) && mail != [] && m >= 20 &&
              |all| <= cfg.streamMax ==>
                log == [Executed(Instream, None, 0, false), StreamScan(all, 0, false)]
  {
    hide Line, EncodeStream, Flatten, MilterStream.Sent, MilterStream.Promised, MilterStream.NoWrap;
    ghost var text := MilterStream.RenderAll(cbs, false);
    forall fields, pieces | cbs == MilterStream.MailCallbacks(fields, pieces)
      ensures text == MilterStream.MailText(fields, pieces)
    {
      MilterStream.MailRendered(fields, pieces);
    }
    ghost var chunks;
    var wire;
    st, scan, wire, chunks := MilterStream.StreamMessage(m, cbs, reachable, sendOk);
    log := [];
    if st == MilterStream.Continue && scan {
      log := ServeBytes(cfg, Line("INSTREAM") + wire, chunks, piece);
      if m > 0 && text != [] {
        MilterStream.PromiseKeptIff(m, text);
        KeptIsTaken(m, text);
      }
    }
  }
}
