/** How a client streams a file: INSTREAM, chunks as large as `read` happens to return, a terminator. */
module FileStream {
  import opened Options
  import opened Commands
  import opened Wire
  import opened SessionModel
  import opened Fragments
  import opened StreamCodec
  import opened Requests

  const READ_SIZE := 8188    // BUFSIZ less the four bytes of the length

  datatype ReadResult = Data(data: Bytes) | ReadError

  /** `read`: some bytes, none only at the end of the file, or an error */
  method ReadFd(rest: Bytes, max: nat) returns (r: ReadResult)
    requires max > 0
    ensures r.Data? ==> r.data <= rest && |r.data| <= max && (r.data == [] ==> rest == [])
  {
    var ok: bool := *;
    if !ok {
      return ReadError;
    }
    var n: nat :| 0 < n <= max;
    r := Data(Take(n, rest));
  }

  /** `sendln`: all of the line, or a part of it and a failure */
  method SendLn(wire: Bytes, line: Bytes) returns (now: Bytes, failed: bool)
    ensures wire <= now <= wire + line
    ensures !failed ==> now == wire + line
  {
    var n: nat :| n <= |line|;
    failed := n < |line|;
    now := wire + Take(n, line);
  }

  datatype Outcome = Outcome(
    ret: int,
    wire: Bytes,
    sendFailed: bool,
    readFailed: bool)

  /** The loop's hold on things: what was read went out, chunk by chunk, and counts against the limit. */
  ghost predicate Going(content: Bytes, limit: nat, chunks: seq<Bytes>, wire: Bytes, pos: nat, todo: nat) {
    && pos <= |content| && pos + todo == limit
    && GoodChunks(chunks) && Flatten(chunks) == content[..pos] && wire == Line("INSTREAM") + EncodeChunks(chunks)
  }

  lemma GoOn(content: Bytes, limit: nat, chunks: seq<Bytes>, wire: Bytes, pos: nat, todo: nat, data: Bytes)
    requires Going(content, limit, chunks, wire, pos, todo) && GoodChunk(data) && |data| <= todo &&
             data <= content[pos..]
    ensures Going(content, limit, chunks + [data], wire + (Be32(|data|) + data), pos + |data|, todo - |data|)
  {
    hide Line;
    EncodeChunksSnoc(chunks, data);
    FlattenSnoc(chunks, data);
    assert content[..pos + |data|] == content[..pos] + data;
    assert wire + (Be32(|data|) + data) == Line("INSTREAM") + (EncodeChunks(chunks) + (Be32(|data|) + data));
  }

  lemma Cut(content: Bytes, pos: nat, data: Bytes, n: nat)
    requires pos <= |content| && data <= content[pos..] && n <= |data|
    ensures data[..n] <= content[pos..] && pos + n <= |content|
  {
  }

  /** What the loop gives, with an open stream to start with. */
  ghost predicate Streamed(o: Outcome, chunks: seq<Bytes>, content: Bytes, limit: nat, reject: bool) {
    && (o.ret == 1 && !o.sendFailed && limit > 0 ==>
          && GoodChunks(chunks) && o.wire == Line("INSTREAM") + EncodeStream(chunks)
          && Flatten(chunks) == Take(limit, content) && (reject ==> Flatten(chunks) == content))
    && (!o.sendFailed && !o.readFailed && limit > 0 ==> (o.ret == 1 <==> !(reject && |content| > limit)))
    && (o.ret == 0 <==> !reject && o.readFailed)
    && (o.ret == 0 ==> GoodChunks(chunks) && o.wire == Line("INSTREAM") + EncodeChunks(chunks))
    && (o.ret == 1 && !o.sendFailed && limit == 0 ==>
          o.wire == Line("INSTREAM") + (if content == [] then Be32(0) else Be32(0) + Be32(0)))
  }

  /** Giving up is right after a failure, or when a file over the limit must not be cut. */
  lemma GivesUp(o: Outcome, chunks: seq<Bytes>, content: Bytes, limit: nat, reject: bool)
    requires o.ret == -1 && (o.sendFailed || o.readFailed || (reject && |content| > limit))
    requires o.readFailed ==> reject
    ensures Streamed(o, chunks, content, limit, reject)
  {
  }

  lemma LeavesOpen(wire: Bytes, chunks: seq<Bytes>, content: Bytes, limit: nat, pos: nat, todo: nat)
    requires Going(content, limit, chunks, wire, pos, todo)
    ensures Streamed(Outcome(0, wire, false, true), chunks, content, limit, false)
  {
  }

  lemma EndsInFull(wire: Bytes, now: Bytes, failed: bool, chunks: seq<Bytes>, content: Bytes, limit: nat, pos: nat,
      todo: nat, reject: bool)
    requires !failed ==> now == wire + Be32(0)
    requires limit > 0 && Going(content, limit, chunks, wire, pos, todo) && (todo == 0 || pos == |content|)
    requires reject ==> pos == |content|
    ensures Streamed(Outcome(1, now, failed, false), chunks, content, limit, reject)
  {
    hide Line, Be32, EncodeChunks, EncodeStream, Take;
    Finish(content, limit, chunks, wire, pos, todo);
  }

  lemma EndsAtZero(wire: Bytes, now: Bytes, failed: bool, chunks: seq<Bytes>, content: Bytes, reject: bool)
    requires !failed ==> now == wire + Be32(0)
    requires wire == if content == [] then Line("INSTREAM") else Line("INSTREAM") + Be32(0)
    ensures Streamed(Outcome(1, now, failed, false), chunks, content, 0, reject)
  {
    hide Line, Be32;
    assert Line("INSTREAM") + Be32(0) + Be32(0) == Line("INSTREAM") + (Be32(0) + Be32(0));
  }

  /** The loop of `send_stream_fd_common` */
  method StreamBody(content: Bytes, limit: nat, reject: bool, start: Bytes)
      returns (o: Outcome, ghost chunks: seq<Bytes>)
    requires start == Line("INSTREAM")
    ensures Streamed(o, chunks, content, limit, reject)
  {
    hide Line, Be32, Take, Going, EncodeChunks, Streamed;
    chunks := [];
    var wire, failed := start, false;
    StartGoing(content, limit, wire);
    var pos: nat, todo: nat := 0, limit;
    while true
      invariant Going(content, limit, chunks, wire, pos, todo)
      invariant pos <= |content| && pos + todo == limit && (limit > 0 ==> todo > 0)
      invariant limit == 0 ==> wire == Line("INSTREAM")
      decreases |content| - pos
    {
      var r := ReadFd(content[pos..], READ_SIZE);
      if r.ReadError? {
        o := Outcome(if reject then -1 else 0, wire, false, true);
        if reject {
          GivesUp(o, chunks, content, limit, reject);
        } else {
          LeavesOpen(wire, chunks, content, limit, pos, todo);
        }
        return;
      }
      if r.data == [] {
        break;
      }
      if reject && |r.data| > todo {
        o := Outcome(-1, wire, false, false);
        GivesUp(o, chunks, content, limit, reject);
        return;
      }
      var data := if |r.data| > todo then r.data[..todo] else r.data;
      Cut(content, pos, r.data, |data|);
      if limit > 0 {
        GoOn(content, limit, chunks, wire, pos, todo, data);
        chunks := chunks + [data];
      }
      wire, failed := SendLn(wire, Be32(|data|) + data);
      if failed {
        o := Outcome(-1, wire, true, false);
        GivesUp(o, chunks, content, limit, reject);
        return;
      }
      pos, todo := pos + |data|, todo - |data|;
      if todo == 0 {
        if reject {
          r := ReadFd(content[pos..], 1);
          if r.ReadError? || r.data != [] {
            o := Outcome(-1, wire, false, r.ReadError?);
            GivesUp(o, chunks, content, limit, reject);
            return;
          }
        }
        break;
      }
    }
    ghost var before := wire;
    wire, failed := SendLn(wire, Be32(0));
    o := Outcome(1, wire, failed, false);
    if limit > 0 {
      EndsInFull(before, wire, failed, chunks, content, limit, pos, todo, reject);
    } else {
      assert Be32(0) + [] == Be32(0);
      EndsAtZero(before, wire, failed, chunks, content, reject);
    }
  }

  /** `send_stream_fd_common`, from where the descriptor stands; `statSize` is what `fstat` says of a regular file */
  method SendStream(content: Bytes, statSize: Option<nat>, limit: nat, reject: bool)
    returns (o: Outcome, ghost chunks: seq<Bytes>)
    ensures o.ret == 1 && !o.sendFailed && limit > 0 ==>
              && GoodChunks(chunks) && o.wire == Line("INSTREAM") + EncodeStream(chunks)
              && Flatten(chunks) == Take(limit, content)
              && (reject ==> Flatten(chunks) == content)
    ensures !o.sendFailed && !o.readFailed && limit > 0 ==>
              (o.ret == 1 <==> !(reject && (|content| > limit || (statSize.Some? && statSize.value > limit))))
    ensures o.ret == 0 && o.wire == [] <==> reject && statSize.Some? && statSize.value > limit
    ensures o.ret == 0 && o.wire != [] <==> !reject && o.readFailed
    ensures !reject && o.readFailed ==> GoodChunks(chunks) && o.wire == Line("INSTREAM") + EncodeChunks(chunks)
    ensures o.ret == 1 && !o.sendFailed && limit == 0 ==>
              o.wire == Line("INSTREAM") + (if content == [] then Be32(0) else Be32(0) + Be32(0))
    ensures o.ret == 1 && !o.sendFailed ==> (IsStream(o.wire) <==> limit > 0 || content == [])
  {
    hide Line, Be32, Take, EncodeChunks, EncodeStream;
    ZeroLimitStream();
    if reject && statSize.Some? && statSize.value > 0 && statSize.value > limit {
      return Outcome(0, [], false, false), [];
    }
    var wire, failed := SendLn([], Line("INSTREAM"));
    if failed {
      return Outcome(-1, wire, true, false), [];
    }
    o, chunks := StreamBody(content, limit, reject, wire);
    assert wire != [] by {
      LineIsLong([]);
      assert Line("INSTREAM") + [] == Line("INSTREAM");
    }
  }

  /** The command, good chunks and one terminator */
  ghost predicate IsStream(wire: Bytes) {
    exists chunks :: GoodChunks(chunks) && wire == Line("INSTREAM") + EncodeStream(chunks)
  }

  /** One terminator is an empty stream; two are none. */
  lemma ZeroLimitStream()
    ensures IsStream(Line("INSTREAM") + Be32(0))
    ensures !IsStream(Line("INSTREAM") + (Be32(0) + Be32(0)))
  {
    hide Line, Be32;
    assert EncodeStream([]) == Be32(0);
    var wire := Line("INSTREAM") + (Be32(0) + Be32(0));
    forall chunks | GoodChunks(chunks) ensures wire != Line("INSTREAM") + EncodeStream(chunks) {
      OneTerminator(chunks);
      SameTail(Line("INSTREAM"), Be32(0) + Be32(0), EncodeStream(chunks));
    }
  }

  lemma SameTail(head: Bytes, a: Bytes, b: Bytes)
    ensures head + a == head + b ==> a == b
  {
    assert (head + a)[|head|..] == a && (head + b)[|head|..] == b;
  }

  lemma OneTerminator(chunks: seq<Bytes>)
    requires GoodChunks(chunks)
    ensures EncodeStream(chunks) != Be32(0) + Be32(0)
  {
    if chunks != [] {
      var c, rest := chunks[0], EncodeChunks(chunks[1..]) + Be32(0);
      assert EncodeStream(chunks) == Be32(|c|) + (c + rest);
      Be32RoundTrip(|c|, c + rest);
      Be32RoundTrip(0, Be32(0));
    }
  }

  lemma StartGoing(content: Bytes, limit: nat, wire: Bytes)
    requires wire == Line("INSTREAM")
    ensures Going(content, limit, [], wire, 0, limit)
  {
    hide Line;
    assert wire == wire + [];
  }

  lemma Finish(content: Bytes, limit: nat, chunks: seq<Bytes>, wire: Bytes, pos: nat, todo: nat)
    requires Going(content, limit, chunks, wire, pos, todo) && (todo == 0 || pos == |content|)
    ensures GoodChunks(chunks) && wire + Be32(0) == Line("INSTREAM") + EncodeStream(chunks)
    ensures Flatten(chunks) == Take(limit, content) && (pos == |content| <==> |content| <= limit)
    ensures |content| <= limit ==> Flatten(chunks) == content
  {
    hide Line, Be32;
    assert wire + Be32(0) == Line("INSTREAM") + (EncodeChunks(chunks) + Be32(0));
  }

  /**
   With the same limit at both ends, and however the bytes are read and arrive, clamd scans exactly the
   file up to the limit: the limit is never found exceeded.
   */
  lemma FileRoundTrip(cfg: Config, content: Bytes, chunks: seq<Bytes>, packets: seq<Bytes>)
    requires cfg.table == TABLE && cfg.bufSize >= 11 && cfg.streamMax > 0
    requires GoodChunks(chunks) && Flatten(chunks) == Take(cfg.streamMax, content)
    requires Flatten(packets) == Line("INSTREAM") + EncodeStream(chunks) && AllLegal(cfg, NEW_CONN, packets)
    ensures Turns(cfg, NEW_CONN, packets).log ==
            [Executed(Instream, None, 0, false), StreamScan(Take(cfg.streamMax, content), 0, false)]
  {
    hide AllLegal, Turns, Line, EncodeStream, Flatten;
    StreamRoundTrip(cfg, chunks, packets);
    assert |Take(cfg.streamMax, content)| <= cfg.streamMax;
  }

  /** The first four bytes of the next request, read as a chunk length */
  const STRAY_LENGTH: int := 0x7A49_4E53

  lemma StrayLength(rest: Bytes)
    ensures FromBe32(Line("INSTREAM") + rest) == STRAY_LENGTH
  {
    var b := Line("INSTREAM") + rest;
    assert b[0] == 'z' && b[1] == 'I' && b[2] == 'N' && b[3] == 'S';
  }

  /**
   A file that cannot be read to its end leaves its stream open (a soft failure), and the client goes on with
   the session. The server takes the next request for a chunk and executes nothing of it: the session is lost
   if what the limit leaves is below two billion bytes, and the request becomes content of the file otherwise.
   */
  lemma AbandonedStream(cfg: Config, s: Conn, chunks: seq<Bytes>, rest: Bytes)
    requires Ready(s) && cfg.table == TABLE && cfg.bufSize >= 11 && GoodChunks(chunks)
    requires |Flatten(chunks)| <= cfg.streamMax && |rest| + 6 <= STRAY_LENGTH
    requires s.pending == Line("INSTREAM") + EncodeChunks(chunks) + (Line("INSTREAM") + rest)
    ensures var c := Serve(cfg, s);
            && c.log == s.log + [Executed(Instream, None, s.id, s.inSession)]
            && (cfg.streamMax - |Flatten(chunks)| < STRAY_LENGTH ==> !c.open && c.mode == Failed)
            && (cfg.streamMax - |Flatten(chunks)| >= STRAY_LENGTH ==>
                  c.open && c.mode == StreamMode && c.dump == Flatten(chunks) + (Line("INSTREAM") + rest)[4..])
  {
    hide Serve, Line;
    var next := Line("INSTREAM") + rest;
    var body := EncodeChunks(chunks) + next;
    assert s.pending == Line("INSTREAM") + body;
    ServeAsk(cfg, s, body);
    var t := s.(mode := StreamMode, log := s.log + [Executed(Instream, None, s.id, s.inSession)],
                quota := cfg.streamMax, dump := [], pending := body);
    ServeChunks(cfg, t, chunks, next);
    assert [] + Flatten(chunks) == Flatten(chunks);
    StrayChunk(cfg, t.(quota := t.quota - |Flatten(chunks)|, dump := Flatten(chunks), pending := next), rest);
  }

  /** One byte of a file, a read that fails, and the next request: at a limit below it the session is over. */
  lemma AbandonedSession(cfg: Config)
    requires cfg.table == TABLE && cfg.bufSize >= 11 && 1 <= cfg.streamMax < STRAY_LENGTH
    ensures var bytes := Line("INSTREAM") + EncodeChunks(["x"]) + Line("INSTREAM");
            var c := Serve(cfg, NEW_CONN.(pending := bytes));
            !c.open && c.log == [Executed(Instream, None, 0, false)]
  {
    hide Serve, Line;
    assert Flatten(["x"]) == "x" by {
      assert ["x"][1..] == [];
    }
    assert Line("INSTREAM") + [] == Line("INSTREAM");
    AbandonedStream(cfg, NEW_CONN.(pending := Line("INSTREAM") + EncodeChunks(["x"]) + Line("INSTREAM")), ["x"], []);
  }

  /** A request where a chunk is expected */
  lemma StrayChunk(cfg: Config, s: Conn, rest: Bytes)
    requires BetweenChunks(s) && s.pending == Line("INSTREAM") + rest && |rest| + 6 <= STRAY_LENGTH
    ensures var c := Serve(cfg, s);
            && c.log == s.log
            && (s.quota < STRAY_LENGTH ==> !c.open && c.mode == Failed)
            && (s.quota >= STRAY_LENGTH ==> c.open && c.mode == StreamMode && c.dump == s.dump + s.pending[4..])
  {
    hide Serve, Line, FromBe32;
    StrayLength(rest);
    LineIsLong(rest);
    ServeOne(cfg, s);
    var t := StepStream(s);
    if s.quota < STRAY_LENGTH {
      ServeStopped(cfg, t);
    } else {
      var n := |t.pending|;
      ServeData(cfg, t, n);
      var u := t.(chunk := t.chunk - n, dump := t.dump + t.pending[..n], pending := t.pending[n..]);
      NothingPending(cfg, u);
      ServeIdle(cfg, u);
    }
  }

  lemma ServeIdle(cfg: Config, s: Conn)
    requires !CanStep(cfg, s)
    ensures Serve(cfg, s) == s
  {
    hide CanStep, Step;
  }

  lemma LineIsLong(rest: Bytes)
    ensures |Line("INSTREAM") + rest| == |rest| + 10
  {
  }
}
