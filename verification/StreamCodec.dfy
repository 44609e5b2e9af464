/** Chunks as the INSTREAM encoders write them, and what the decoder makes of them. */
module StreamCodec {
  import opened Commands
  import opened Wire
  import opened SessionModel
  import opened Fragments

  function Take(n: nat, b: Bytes): Bytes {
    if |b| <= n then b else b[..n]
  }

  predicate GoodChunk(c: Bytes) {
    0 < |c| < U32
  }

  predicate GoodChunks(chunks: seq<Bytes>) {
    forall i :: 0 <= i < |chunks| ==> GoodChunk(chunks[i])
  }

  function EncodeChunk(c: Bytes): Bytes
    requires |c| < U32
  {
    Be32(|c|) + c
  }

  function EncodeChunks(chunks: seq<Bytes>): Bytes
    requires GoodChunks(chunks)
  {
    if chunks == [] then [] else EncodeChunk(chunks[0]) + EncodeChunks(chunks[1..])
  }

  /** A whole stream: no chunk of length zero before the terminator. */
  function EncodeStream(chunks: seq<Bytes>): Bytes
    requires GoodChunks(chunks)
  {
    EncodeChunks(chunks) + Be32(0)
  }

  lemma {:induction false} EncodeChunksSnoc(chunks: seq<Bytes>, c: Bytes)
    requires GoodChunks(chunks) && GoodChunk(c)
    ensures GoodChunks(chunks + [c]) && EncodeChunks(chunks + [c]) == EncodeChunks(chunks) + EncodeChunk(c)
    decreases |chunks|
  {
    if chunks == [] {
      assert (chunks + [c])[1..] == [];
      assert EncodeChunk(c) + [] == EncodeChunk(c);
    } else {
      assert (chunks + [c])[1..] == chunks[1..] + [c];
      EncodeChunksSnoc(chunks[1..], c);
    }
  }

  lemma {:induction false} FlattenSnoc(chunks: seq<Bytes>, c: Bytes)
    ensures Flatten(chunks + [c]) == Flatten(chunks) + c
  {
    FlattenConcat(chunks, [c]);
    assert [c][1..] == [];
    assert Flatten([c]) == c;
  }

  /** The decoder between two chunks, with these bytes to come. */
  ghost predicate BetweenChunks(s: Conn) {
    s.mode == StreamMode && s.chunk == 0 && s.open
  }

  lemma ServeOne(cfg: Config, s: Conn)
    requires s.open && s.mode == StreamMode && |s.pending| >= if s.chunk == 0 then 4 else 1
    ensures Serve(cfg, s) == Serve(cfg, StepStream(s))
  {
    hide StepStream;
  }

  lemma {:induction false} ServeData(cfg: Config, s: Conn, n: nat)
    requires s.mode == StreamMode && s.open && n <= s.chunk && n <= |s.pending|
    ensures Serve(cfg, s) ==
            Serve(cfg, s.(chunk := s.chunk - n, dump := s.dump + s.pending[..n], pending := s.pending[n..]))
    decreases n
  {
    hide Serve;
    if n == 0 {
      assert s.dump + s.pending[..0] == s.dump && s.pending[0..] == s.pending;
    } else {
      var t := StepStream(s);
      ServeOne(cfg, s);
      ServeData(cfg, t, n - 1);
      assert t.dump + t.pending[..n - 1] == s.dump + s.pending[..n];
      assert t.pending[n - 1..] == s.pending[n..];
    }
  }

  /** The length word in front of a chunk */
  lemma LengthWord(c: Bytes, rest: Bytes)
    requires |c| < U32
    ensures var b := EncodeChunk(c) + rest; |b| >= 4 && FromBe32(b) == |c| && b[4..] == c + rest
  {
    Be32RoundTrip(|c|, c + rest);
    assert EncodeChunk(c) + rest == Be32(|c|) + (c + rest);
  }

  lemma ServeChunk(cfg: Config, s: Conn, c: Bytes, rest: Bytes)
    requires BetweenChunks(s) && GoodChunk(c) && s.pending == EncodeChunk(c) + rest
    ensures |c| <= s.quota ==>
              Serve(cfg, s) == Serve(cfg, s.(quota := s.quota - |c|, dump := s.dump + c, pending := rest))
    ensures |c| > s.quota ==>
              Serve(cfg, s) == s.(open := false, mode := Failed, pending := c + rest)
  {
    hide Serve, EncodeChunk, FromBe32;
    LengthWord(c, rest);
    ServeOne(cfg, s);
    var t := StepStream(s);
    if |c| <= s.quota {
      ServeData(cfg, t, |c|);
      assert t.pending[..|c|] == c && t.pending[|c|..] == rest;
    } else {
      ServeStopped(cfg, t);
    }
  }

  lemma ServeStopped(cfg: Config, s: Conn)
    requires !s.open
    ensures Serve(cfg, s) == s
  {
  }

  lemma ServeTerminator(cfg: Config, s: Conn, rest: Bytes)
    requires BetweenChunks(s) && s.pending == Be32(0) + rest
    ensures Serve(cfg, s) == Serve(cfg, EndStream(s.(pending := rest)))
  {
    Be32RoundTrip(0, rest);
    assert s.pending[4..] == rest;
  }

  /** Chunks without an end: dumped and charged, and the decoder waits for more. */
  lemma {:induction false} ServeChunks(cfg: Config, s: Conn, chunks: seq<Bytes>, rest: Bytes)
    requires BetweenChunks(s) && GoodChunks(chunks) && s.pending == EncodeChunks(chunks) + rest &&
             |Flatten(chunks)| <= s.quota
    ensures Serve(cfg, s) ==
            Serve(cfg, s.(quota := s.quota - |Flatten(chunks)|, dump := s.dump + Flatten(chunks), pending := rest))
    decreases |chunks|
  {
    hide Serve;
    if chunks == [] {
      assert [] + rest == rest && s.dump + [] == s.dump;
    } else {
      var c, more := chunks[0], chunks[1..];
      assert s.pending == EncodeChunk(c) + (EncodeChunks(more) + rest);
      ServeChunk(cfg, s, c, EncodeChunks(more) + rest);
      var t := s.(quota := s.quota - |c|, dump := s.dump + c, pending := EncodeChunks(more) + rest);
      ServeChunks(cfg, t, more, rest);
      assert s.dump + c + Flatten(more) == s.dump + Flatten(chunks);
    }
  }

  /**
   Decoding undoes encoding: a stream within the quota is scanned with exactly the bytes of its chunks,
   and quota plus accepted bytes stays the same; a stream beyond the quota fails and scans nothing.
   */
  lemma {:induction false} ServeStream(cfg: Config, s: Conn, chunks: seq<Bytes>, rest: Bytes)
    requires BetweenChunks(s) && GoodChunks(chunks) && s.pending == EncodeStream(chunks) + rest
    ensures var content := Flatten(chunks);
            && (|content| <= s.quota || content == [] ==>
                  Serve(cfg, s) ==
                  Serve(cfg, EndStream(s.(quota := s.quota - |content|, dump := s.dump + content, pending := rest))))
            && (content != [] && |content| > s.quota ==>
                  Serve(cfg, s).mode == Failed && !Serve(cfg, s).open && Serve(cfg, s).log == s.log)
    decreases |chunks|
  {
    hide Serve, EndStream;
    if chunks == [] {
      assert s.pending == Be32(0) + rest;
      assert s.dump + [] == s.dump;
      ServeTerminator(cfg, s, rest);
    } else {
      var c, more := chunks[0], chunks[1..];
      assert s.pending == EncodeChunk(c) + (EncodeStream(more) + rest);
      ServeChunk(cfg, s, c, EncodeStream(more) + rest);
      if |c| <= s.quota {
        var t := s.(quota := s.quota - |c|, dump := s.dump + c, pending := EncodeStream(more) + rest);
        ServeStream(cfg, t, more, rest);
        assert s.dump + c + Flatten(more) == s.dump + Flatten(chunks);
      }
    }
  }
}
