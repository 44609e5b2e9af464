/**
 The message stream of clamav-milter: headers and body pass through a small buffer into INSTREAM
 chunks, behind a banner line, up to `maxfilesize` bytes.
 */
module MilterStream {
  import opened Options
  import opened Commands
  import opened Wire
  import opened SessionModel
  import opened Fragments
  import opened StreamCodec
  import opened Requests

  const BUFFER: int := 1424        // CLAMFIBUFSZ
  const BANNER: Bytes := "From clamav-milter\n"

  /** What `sendchunk` has let through so far: its 32-bit byte counter, and the bytes. */
  datatype Core = Core(totsz: nat, content: Bytes)

  /** The part of `sendchunk` behind the banner. */
  function Push(m: nat, c: Core, data: Bytes): Core {
    if c.totsz >= m || data == [] then c
    else
      var n := if c.totsz + |data| > m then m - c.totsz else |data|;
      Core((c.totsz + n) % U32, c.content + data[..n])
  }

  /** With the counter set to one, so that the banner does not ask for a banner. */
  function Banner(m: nat, c: Core): Core {
    var b := Push(m, c.(totsz := 1), BANNER);
    b.(totsz := (b.totsz - 1) % U32)
  }

  /** `sendchunk` */
  function Chunk(m: nat, c: Core, data: Bytes): Core {
    if c.totsz >= m || data == [] then c
    else Push(m, if c.totsz == 0 then Banner(m, c) else c, data)
  }

  // --- What it amounts to ---------------------------------------------------------------

  /** The promise: the banner and the message, cut at the limit. */
  function Promised(m: nat, text: Bytes): Bytes {
    Take(m, BANNER + text)
  }

  /** What is sent. */
  function Sent(m: nat, text: Bytes): Bytes {
    if m == 0 || text == [] then []
    else if m >= 20 then Promised(m, text)
    else BANNER[..m - 1] + text[..1]
  }

  /** The counter does not wrap. */
  predicate NoWrap(m: nat, text: Bytes) {
    m < U32 || |BANNER| + |text| < U32
  }

  function After(m: nat, text: Bytes): Core {
    Core(|Sent(m, text)|, Sent(m, text))
  }

  lemma PushTakes(m: nat, all: Bytes, data: Bytes)
    requires |all| < m && (m < U32 || |all| + |data| < U32)
    ensures Push(m, Core(|all|, all), data) == Core(|Take(m, all + data)|, Take(m, all + data))
  {
    if m < |all| + |data| {
      assert (all + data)[..m] == all + data[..m - |all|];
    } else {
      assert data[..|data|] == data;
      assert data == [] ==> all + data == all;
    }
  }

  lemma BannerSent(m: nat)
    requires m > 0
    ensures Banner(m, Core(0, [])) == if m >= 20 then Core(19, BANNER) else Core(m - 1, BANNER[..m - 1])
  {
    assert [] + BANNER[..19] == BANNER;
    if 1 < m < 20 {
      assert [] + BANNER[..m - 1] == BANNER[..m - 1];
    }
  }

  lemma FirstPiece(m: nat, data: Bytes)
    requires NoWrap(m, data)
    ensures Chunk(m, After(m, []), data) == After(m, data)
  {
    hide Push, Banner;
    if m > 0 && data != [] {
      BannerSent(m);
      if m >= 20 {
        PushTakes(m, BANNER, data);
      } else {
        PushTakes(m, BANNER[..m - 1], data);
        assert (BANNER[..m - 1] + data)[..m] == BANNER[..m - 1] + data[..1];
      }
    }
  }

  lemma LaterPiece(m: nat, text: Bytes, data: Bytes)
    requires NoWrap(m, text + data) && text != []
    ensures Chunk(m, After(m, text), data) == After(m, text + data)
  {
    hide Push, Banner;
    if data == [] {
      assert text + data == text;
    } else if m >= 20 {
      LaterTakes(m, BANNER, text, data);
    } else {
      assert (text + data)[..1] == text[..1];
    }
  }

  lemma LaterTakes(m: nat, banner: Bytes, text: Bytes, data: Bytes)
    requires m < U32 || |banner| + |text| + |data| < U32
    ensures var all := banner + text;
            var whole := banner + (text + data);
            && (|all| < m ==> Push(m, Core(|all|, all), data) == Core(|Take(m, whole)|, Take(m, whole)))
            && (|all| >= m ==> Take(m, whole) == Take(m, all))
  {
    hide Push;
    var all, whole := banner + text, banner + (text + data);
    assert whole == all + data;
    if |all| < m {
      PushTakes(m, all, data);
    } else {
      assert whole[..m] == all[..m];
    }
  }

  /** A further piece of the message has the same effect as if it had come with the first. */
  lemma NextPiece(m: nat, text: Bytes, data: Bytes)
    requires NoWrap(m, text + data)
    ensures Chunk(m, After(m, text), data) == After(m, text + data)
  {
    hide After, Chunk;
    if text == [] {
      assert text + data == data;
      FirstPiece(m, data);
    } else {
      LaterPiece(m, text, data);
    }
  }

  /** The promise is kept exactly when the limit leaves room for the banner, or by coincidence of one byte. */
  lemma PromiseKeptIff(m: nat, text: Bytes)
    requires m > 0 && text != []
    ensures Sent(m, text) == Promised(m, text) <==> m >= 20 || text[0] == BANNER[m - 1]
  {
    if m < 20 {
      assert Promised(m, text) == BANNER[..m - 1] + [BANNER[m - 1]];
      assert text[..1] == [text[0]];
      assert Sent(m, text)[m - 1] == text[0];
      assert Promised(m, text)[m - 1] == BANNER[m - 1];
    }
  }

  /** A header that starts with a letter the banner does not have: the promise is broken by every small limit. */
  lemma ShortLimitBreaksPromise(m: nat)
    requires 0 < m < 20
    ensures Sent(m, "X-Mailer: y\r\n") != Promised(m, "X-Mailer: y\r\n")
  {
    PromiseKeptIff(m, "X-Mailer: y\r\n");
  }

  // --- The buffer ------------------------------------------------------------------------

  datatype Status = Continue | Fail

  /** `clamfi_header` (the value may be missing) and `clamfi_body` */
  datatype Callback = Header(name: Bytes, value: Option<Bytes>) | Body(data: Bytes)

  /** A callback as text; the first body piece is set apart by an empty line. */
  function Render(cb: Callback, gotbody: bool): Bytes {
    match cb
    case Header(name, value) => name + ": " + (if value.Some? then value.value else []) + "\r\n"
    case Body(data) => (if gotbody then [] else "\r\n") + data
  }

  function RenderAll(cbs: seq<Callback>, gotbody: bool): Bytes {
    if cbs == [] then [] else Render(cbs[0], gotbody) + RenderAll(cbs[1..], gotbody || cbs[0].Body?)
  }

  predicate HasBody(cbs: seq<Callback>) {
    exists i :: 0 <= i < |cbs| && cbs[i].Body?
  }

  lemma HasBodyHead(cbs: seq<Callback>)
    requires cbs != []
    ensures HasBody(cbs) <==> cbs[0].Body? || HasBody(cbs[1..])
  {
    if i :| 0 < i < |cbs| && cbs[i].Body? {
      assert cbs[1..][i - 1].Body?;
    }
    if i :| 0 <= i < |cbs[1..]| && cbs[1..][i].Body? {
      assert cbs[i + 1].Body?;
    }
  }

  lemma {:induction false} RenderConcat(a: seq<Callback>, b: seq<Callback>, gotbody: bool)
    ensures RenderAll(a + b, gotbody) == RenderAll(a, gotbody) + RenderAll(b, gotbody || HasBody(a))
    decreases |a|
  {
    hide Render, HasBody;
    if a == [] {
      assert a + b == b && !HasBody(a) by { NoBody(); }
    } else {
      assert (a + b)[1..] == a[1..] + b;
      RenderConcat(a[1..], b, gotbody || a[0].Body?);
      HasBodyHead(a);
    }
  }

  lemma NoBody()
    ensures !HasBody([])
  {
  }

  lemma RenderHead(cb: Callback, rest: seq<Callback>, gotbody: bool)
    ensures RenderAll([cb] + rest, gotbody) == Render(cb, gotbody) + RenderAll(rest, gotbody || cb.Body?)
  {
    hide Render;
    assert ([cb] + rest)[1..] == rest;
  }

  /** A later piece of the body comes without a separator. */
  lemma BodiesJoin(a: Bytes, b: Bytes, gotbody: bool)
    ensures Render(Body(a), gotbody) + Render(Body(b), true) == Render(Body(a + b), gotbody)
  {
    var lead := if gotbody then [] else "\r\n";
    assert lead + a + ([] + b) == lead + (a + b);
  }

  lemma TwoBodies(a: Bytes, b: Bytes, post: seq<Callback>, gotbody: bool)
    ensures RenderAll([Body(a), Body(b)] + post, gotbody) == RenderAll([Body(a + b)] + post, gotbody)
  {
    hide Render, RenderAll;
    assert [Body(a), Body(b)] + post == [Body(a)] + ([Body(b)] + post);
    RenderHead(Body(a), [Body(b)] + post, gotbody);
    RenderHead(Body(b), post, true);
    RenderHead(Body(a + b), post, gotbody);
    BodiesJoin(a, b, gotbody);
    assert Render(Body(a), gotbody) + (Render(Body(b), true) + RenderAll(post, true)) ==
           Render(Body(a), gotbody) + Render(Body(b), true) + RenderAll(post, true);
  }

  /** It does not matter how the body is cut into callbacks. */
  lemma BodyCutsDoNotMatter(pre: seq<Callback>, a: Bytes, b: Bytes, post: seq<Callback>, gotbody: bool)
    ensures RenderAll(pre + [Body(a), Body(b)] + post, gotbody) == RenderAll(pre + [Body(a + b)] + post, gotbody)
  {
    hide Render, RenderAll, HasBody;
    RenderConcat(pre, [Body(a), Body(b)] + post, gotbody);
    RenderConcat(pre, [Body(a + b)] + post, gotbody);
    assert pre + [Body(a), Body(b)] + post == pre + ([Body(a), Body(b)] + post);
    assert pre + [Body(a + b)] + post == pre + ([Body(a + b)] + post);
    TwoBodies(a, b, post, gotbody || HasBody(pre));
  }

  /** A header field of a mail; the value may be missing. */
  datatype Field = Field(name: Bytes, value: Option<Bytes>)

  function FieldLine(f: Field): Bytes {
    f.name + ": " + (match f.value case None => [] case Some(v) => v) + "\r\n"
  }

  function FieldLines(fields: seq<Field>): Bytes {
    if fields == [] then [] else FieldLine(fields[0]) + FieldLines(fields[1..])
  }

  /** A mail written out: its header lines, then one empty line and the body, if there is one. */
  function MailText(fields: seq<Field>, pieces: seq<Bytes>): Bytes {
    FieldLines(fields) + if pieces == [] then [] else "\r\n" + Flatten(pieces)
  }

  /** The callbacks that deliver a mail whose body comes in these pieces. */
  function MailCallbacks(fields: seq<Field>, pieces: seq<Bytes>): seq<Callback> {
    seq(|fields|, i requires 0 <= i < |fields| => Header(fields[i].name, fields[i].value)) +
    seq(|pieces|, i requires 0 <= i < |pieces| => Body(pieces[i]))
  }

  lemma {:induction false} FieldsRendered(fields: seq<Field>)
    ensures RenderAll(MailCallbacks(fields, []), false) == FieldLines(fields) && !HasBody(MailCallbacks(fields, []))
    decreases |fields|
  {
    hide RenderAll;
    var cbs := MailCallbacks(fields, []);
    if fields == [] {
      assert cbs == [] && RenderAll([], false) == [] by { RenderNothing(false); }
    } else {
      var first := Header(fields[0].name, fields[0].value);
      assert cbs == [first] + MailCallbacks(fields[1..], []);
      FieldsRendered(fields[1..]);
      RenderHead(first, MailCallbacks(fields[1..], []), false);
    }
  }

  lemma RenderNothing(gotbody: bool)
    ensures RenderAll([], gotbody) == []
  {
  }

  lemma {:induction false} PiecesAfter(pieces: seq<Bytes>)
    ensures RenderAll(MailCallbacks([], pieces), true) == Render(Body(Flatten(pieces)), true)
    decreases |pieces|
  {
    hide RenderAll;
    if pieces == [] {
      assert MailCallbacks([], pieces) == [];
      RenderNothing(true);
    } else {
      assert MailCallbacks([], pieces) == [Body(pieces[0])] + MailCallbacks([], pieces[1..]);
      RenderHead(Body(pieces[0]), MailCallbacks([], pieces[1..]), true);
      PiecesAfter(pieces[1..]);
    }
  }

  lemma PiecesRendered(pieces: seq<Bytes>)
    requires pieces != []
    ensures RenderAll(MailCallbacks([], pieces), false) == Render(Body(Flatten(pieces)), false)
  {
    hide Render, RenderAll;
    var first, rest := pieces[0], pieces[1..];
    assert MailCallbacks([], pieces) == [Body(first)] + MailCallbacks([], rest);
    RenderHead(Body(first), MailCallbacks([], rest), false);
    if rest == [] {
      assert MailCallbacks([], rest) == [];
      RenderNothing(true);
      assert Flatten(pieces) == first;
    } else {
      var more := Flatten(rest);
      PiecesAfter(rest);
      assert Flatten(pieces) == first + more;
      BodiesJoin(first, more, false);
    }
  }

  /** What is scanned of a mail is the mail: every header line, one empty line, and the body in one piece. */
  lemma MailRendered(fields: seq<Field>, pieces: seq<Bytes>)
    ensures RenderAll(MailCallbacks(fields, pieces), false) == MailText(fields, pieces)
  {
    hide RenderAll, HasBody;
    var hs, bs := MailCallbacks(fields, []), MailCallbacks([], pieces);
    assert MailCallbacks(fields, pieces) == hs + bs;
    RenderConcat(hs, bs, false);
    FieldsRendered(fields);
    if pieces == [] {
      assert bs == [];
      RenderNothing(false);
    } else {
      PiecesRendered(pieces);
    }
  }

  /** The chunks that were sent, and the bytes still held back, make up the content. */
  ghost predicate Framed(chunks: seq<Bytes>, wire: Bytes, held: Bytes, content: Bytes) {
    GoodChunks(chunks) && wire == EncodeChunks(chunks) && Flatten(chunks) + held == content
  }

  lemma HoldMore(chunks: seq<Bytes>, wire: Bytes, held: Bytes, content: Bytes, data: Bytes)
    requires Framed(chunks, wire, held, content)
    ensures Framed(chunks, wire, held + data, content + data)
  {
    assert Flatten(chunks) + (held + data) == Flatten(chunks) + held + data;
  }

  lemma SendHeld(chunks: seq<Bytes>, wire: Bytes, held: Bytes, content: Bytes)
    requires Framed(chunks, wire, held, content) && GoodChunk(held)
    ensures Framed(chunks + [held], wire + (Be32(|held|) + held), [], content)
  {
    FlattenSnoc(chunks, held);
    EncodeChunksSnoc(chunks, held);
  }

  lemma SendFull(chunks: seq<Bytes>, wire: Bytes, held: Bytes, content: Bytes, first: Bytes, rest: Bytes)
    requires Framed(chunks, wire, held, content) && |held| + |first| == BUFFER
    ensures Framed(chunks + [held + first], wire + (Be32(BUFFER) + (held + first)), rest, content + (first + rest))
  {
    hide Framed, Be32;
    HoldMore(chunks, wire, held, content, first);
    SendHeld(chunks, wire, held + first, content + first);
    HoldMore(chunks + [held + first], wire + (Be32(BUFFER) + (held + first)), [], content + first, rest);
    assert [] + rest == rest;
    assert content + first + rest == content + (first + rest);
  }

  lemma BannerLeavesRoom(m: nat, c: Core)
    requires m > 0
    ensures Banner(m, c).totsz < m
  {
  }

  lemma BannerChunk(m: nat, c: Core)
    ensures Chunk(m, c.(totsz := 1), BANNER) == Push(m, c.(totsz := 1), BANNER)
  {
  }

  class Clamfi {
    const maxfilesize: nat
    const buffer: array<char>
    const sendOk: nat -> bool        // whether send number k goes through
    var sends: nat
    var totsz: nat
    var bufsz: nat
    var gotbody: bool
    var wire: Bytes                  // what was sent on the connection
    ghost var text: Bytes            // the message so far
    ghost var content: Bytes         // what was let through of it, banner included
    ghost var chunks: seq<Bytes>
    ghost var framed: bool           // every length so far fitted 32 bits

    ghost predicate Valid()
      reads this, buffer
    {
      && buffer.Length == BUFFER && bufsz < BUFFER && totsz < U32
      && (framed ==> Framed(chunks, wire, buffer[..bufsz], content))
    }

    /** Between callbacks: what was let through is what the whole text so far calls for. */
    ghost predicate Ready()
      reads this, buffer
    {
      Valid() && (NoWrap(maxfilesize, text) ==> framed && State() == After(maxfilesize, text))
    }

    ghost function State(): Core
      reads this
    {
      Core(totsz, content)
    }

    constructor (maxfilesize: nat, sendOk: nat -> bool)
      ensures Ready() && text == [] && this.maxfilesize == maxfilesize && !gotbody && fresh(buffer)
      ensures this.sendOk == sendOk
    {
      this.maxfilesize, this.sendOk, sends := maxfilesize, sendOk, 0;
      buffer := new char[BUFFER];
      totsz, bufsz, gotbody, wire := 0, 0, false, [];
      text, content, chunks, framed := [], [], [], true;
    }

    /** No send fails. */
    ghost predicate Working() {
      forall k :: sendOk(k)
    }

    /** `nc_send`: it may fail, after any part of the data. */
    method NcSend(data: Bytes) returns (failed: bool)
      modifies this`wire, this`sends
      ensures !failed ==> wire == old(wire) + data
      ensures Working() ==> !failed
    {
      failed := !sendOk(sends);
      sends := sends + 1;
      if !failed {
        wire := wire + data;
      }
    }

    /** `memcpy` to the buffer at `bufsz` */
    method Store(data: Bytes)
      requires buffer.Length == BUFFER && bufsz + |data| <= BUFFER
      modifies buffer
      ensures buffer[..bufsz + |data|] == old(buffer[..bufsz]) + data
    {
      forall i | 0 <= i < |data| {
        buffer[bufsz + i] := data[i];
      }
    }

    /** Room for everything: into the buffer. */
    method Keep(data: Bytes)
      requires Valid() && |data| < BUFFER - bufsz
      modifies this`bufsz, this`content, buffer
      ensures Valid() && content == old(content) + data
    {
      hide Framed;
      if framed {
        HoldMore(chunks, wire, buffer[..bufsz], content, data);
      }
      Store(data);
      bufsz := bufsz + |data|;
      content := content + data;
    }

    /** Fills the buffer, sends it and keeps the rest. */
    method FillAndSend(data: Bytes) returns (failed: bool)
      requires Valid() && BUFFER - bufsz <= |data| < BUFFER
      modifies this`bufsz, this`wire, this`sends, this`content, this`chunks, buffer
      ensures !failed ==> Valid() && content == old(content) + data
      ensures Working() ==> !failed
    {
      hide Framed, Be32;
      var room := BUFFER - bufsz;
      if framed {
        SendFull(chunks, wire, buffer[..bufsz], content, data[..room], data[room..]);
        assert data == data[..room] + data[room..];
      }
      Store(data[..room]);
      assert buffer[..bufsz + room] == buffer[..];
      chunks := chunks + [buffer[..]];
      failed := NcSend(Be32(BUFFER) + buffer[..]);
      bufsz := 0;
      Store(data[room..]);
      bufsz := |data| - room;
      content := content + data;
      assert buffer[..bufsz] == data[room..];
    }

    /** Sends what the buffer holds, if anything. */
    method Flush() returns (failed: bool)
      requires Valid()
      modifies this`bufsz, this`wire, this`sends, this`chunks
      ensures !failed ==> Valid() && bufsz == 0
      ensures Working() ==> !failed
    {
      hide Framed, Be32;
      failed := false;
      if bufsz > 0 {
        if framed {
          SendHeld(chunks, wire, buffer[..bufsz], content);
        }
        failed := NcSend(Be32(bufsz) + buffer[..bufsz]);
        chunks := chunks + [buffer[..bufsz]];
      }
      bufsz := 0;
      assert buffer[..0] == [];
    }

    /** Sends large data as a chunk of its own, behind what the buffer holds. */
    method SendPast(data: Bytes) returns (failed: bool)
      requires Valid() && data != []
      modifies this`bufsz, this`wire, this`sends, this`content, this`chunks, this`framed
      ensures !failed ==> Valid() && content == old(content) + data && framed == (old(framed) && |data| < U32)
      ensures Working() ==> !failed
    {
      hide Framed, Be32;
      failed := Flush();
      if failed {
        return;
      }
      framed := framed && |data| < U32;
      assert buffer[..0] == [] && [] + data == data;
      if framed {
        HoldMore(chunks, wire, [], content, data);
        SendHeld(chunks, wire, data, content + data);
      }
      ghost var sent := wire;
      failed := NcSend(Be32(|data| % U32));
      if !failed {
        failed := NcSend(data);
      }
      assert sent + Be32(|data| % U32) + data == sent + (Be32(|data| % U32) + data);
      chunks := chunks + [data];
      content := content + data;
    }

    /** The streaming half of `sendchunk`, with the length already cut */
    method Transmit(data: Bytes) returns (st: Status)
      requires Valid() && data != []
      modifies this`bufsz, this`wire, this`sends, this`content, this`chunks, this`framed, buffer
      ensures st == Continue ==> Valid() && content == old(content) + data && framed == (old(framed) && |data| < U32)
      ensures Working() ==> st == Continue
    {
      hide Framed;
      var failed := false;
      if |data| < BUFFER - bufsz {
        Keep(data);
      } else if |data| < BUFFER {
        failed := FillAndSend(data);
      } else {
        failed := SendPast(data);
      }
      st := if failed then Fail else Continue;
    }

    /** `sendchunk` from where it cuts the length */
    method SendCut(data: Bytes) returns (st: Status)
      requires Valid() && data != [] && totsz < maxfilesize
      modifies this`totsz, this`bufsz, this`wire, this`sends, this`content, this`chunks, this`framed, buffer
      ensures st == Continue ==> Valid() && State() == Push(maxfilesize, old(State()), data)
      ensures st == Continue && old(framed) && (maxfilesize < U32 || |data| < U32) ==> framed
      ensures Working() ==> st == Continue
    {
      hide Framed;
      var n := if totsz + |data| > maxfilesize then maxfilesize - totsz else |data|;
      totsz := (totsz + n) % U32;
      st := Transmit(data[..n]);
    }

    /** `nc_connect_rand`: a new connection starts with nothing sent. */
    method Connect(reachable: bool) returns (failed: bool)
      requires Valid()
      modifies this`wire, this`sends, this`chunks, this`framed
      ensures Valid() && failed == !reachable
      ensures old(framed) && content == [] ==> framed
    {
      assert framed && content == [] ==> buffer[..bufsz] == [];
      failed := !reachable;
      wire, chunks := [], [];
      framed := framed && content == [];
    }

    /** `sendchunk`; `reachable` says whether a daemon can be connected to */
    method SendChunk(data: Bytes, reachable: bool) returns (st: Status)
      requires Valid()
      modifies this`totsz, this`bufsz, this`wire, this`sends, this`content, this`chunks, this`framed, buffer
      ensures st == Continue ==> Valid() && State() == Chunk(maxfilesize, old(State()), data)
      ensures st == Continue && (maxfilesize < U32 || |data| < U32) && (old(totsz) == 0 ==> old(content) == []) ==>
                old(framed) ==> framed
      ensures Working() && reachable ==> st == Continue
      decreases totsz == 0
    {
      hide Push, Framed;
      if totsz >= maxfilesize || data == [] {
        return Continue;
      }
      if totsz == 0 {
        var failed := Connect(reachable);
        if failed {
          return Fail;
        }
        BannerLeavesRoom(maxfilesize, State());
        BannerChunk(maxfilesize, State());
        totsz := 1;
        st := SendChunk(BANNER, reachable);
        if st != Continue {
          return;
        }
        totsz := (totsz - 1) % U32;
      }
      st := SendCut(data);
    }

    /** `sendchunk` as the callbacks use it */
    method Offer(data: Bytes, reachable: bool) returns (st: Status)
      requires Ready()
      modifies this, buffer
      ensures gotbody == old(gotbody)
      ensures st == Continue ==> Ready() && text == old(text) + data
      ensures Working() && reachable ==> st == Continue
    {
      hide Framed, Chunk, After;
      if NoWrap(maxfilesize, text + data) {
        NextPiece(maxfilesize, text, data);
        EmptyStart(maxfilesize, text);
      }
      st := SendChunk(data, reachable);
      text := text + data;
    }

    /** `clamfi_header` */
    method OnHeader(name: Bytes, value: Option<Bytes>, reachable: bool) returns (st: Status)
      requires Ready()
      modifies this, buffer
      ensures gotbody == old(gotbody)
      ensures st == Continue ==> Ready() && text == old(text) + Render(Header(name, value), gotbody)
      ensures Working() && reachable ==> st == Continue
    {
      hide Ready;
      st := Offer(name, reachable);
      if st != Continue { return; }
      st := Offer(": ", reachable);
      if st != Continue { return; }
      if value.Some? {
        st := Offer(value.value, reachable);
        if st != Continue { return; }
      }
      st := Offer("\r\n", reachable);
      var v := if value.Some? then value.value else [];
      assert old(text) + name + ": " + v + "\r\n" == old(text) + (name + ": " + v + "\r\n");
    }

    /** `clamfi_body` */
    method OnBody(data: Bytes, reachable: bool) returns (st: Status)
      requires Ready()
      modifies this, buffer
      ensures st == Continue ==> Ready() && gotbody && text == old(text) + Render(Body(data), old(gotbody))
      ensures Working() && reachable ==> st == Continue
    {
      hide Framed, After;
      if !gotbody {
        st := Offer("\r\n", reachable);
        if st != Continue { return; }
        gotbody := true;
      }
      st := Offer(data, reachable);
      assert old(text) + "\r\n" + data == old(text) + ("\r\n" + data);
      assert [] + data == data;
    }

    /** The end of the message: `scan` says whether there was anything to send. */
    method OnEom() returns (st: Status, scan: bool)
      requires Ready()
      modifies this`bufsz, this`wire, this`sends, this`chunks
      ensures NoWrap(maxfilesize, text) ==> scan == (Sent(maxfilesize, text) != [])
      ensures Working() ==> st == Continue
      ensures st == Continue && scan && NoWrap(maxfilesize, text) ==>
                GoodChunks(chunks) && wire == EncodeStream(chunks) && Flatten(chunks) == Sent(maxfilesize, text)
    {
      hide Sent;
      scan := totsz != 0;
      if !scan {
        return Continue, false;
      }
      var failed := Flush();
      if !failed {
        assert buffer[..0] == [];
        failed := NcSend(Be32(0));
      }
      st := if failed then Fail else Continue;
    }
  }

  lemma EmptyStart(m: nat, text: Bytes)
    ensures After(m, text).totsz == 0 ==> After(m, text).content == []
  {
  }

  /**
   A whole message: it goes through when nothing fails, and whatever the callbacks, the wire carries a stream
   of what `Sent` says, and no empty chunk.
   */
  method StreamMessage(maxfilesize: nat, cbs: seq<Callback>, reachable: bool, sendOk: nat -> bool)
    returns (st: Status, scan: bool, wire: Bytes, ghost chunks: seq<Bytes>)
    ensures reachable && (forall k :: sendOk(k)) ==> st == Continue
    ensures var text := RenderAll(cbs, false);
            st == Continue && NoWrap(maxfilesize, text) ==>
              && scan == (maxfilesize > 0 && text != [])
              && (scan ==>
                    GoodChunks(chunks) && wire == EncodeStream(chunks) && Flatten(chunks) == Sent(maxfilesize, text))
  {
    hide Clamfi.Ready, Sent, EncodeStream, Flatten, NoWrap, Render;
    var cf := new Clamfi(maxfilesize, sendOk);
    var i := 0;
    st, scan, wire, chunks := Continue, false, [], [];
    assert [] + RenderAll(cbs[0..], false) == RenderAll(cbs, false);
    while i < |cbs|
      invariant 0 <= i <= |cbs| && cf.Ready() && fresh(cf) && fresh(cf.buffer) && cf.maxfilesize == maxfilesize &&
                cf.sendOk == sendOk
      invariant cf.text + RenderAll(cbs[i..], cf.gotbody) == RenderAll(cbs, false)
    {
      ghost var before, body := cf.text, cf.gotbody;
      match cbs[i] {
        case Header(name, value) => st := cf.OnHeader(name, value, reachable);
        case Body(data) => st := cf.OnBody(data, reachable);
      }
      if st != Continue {
        return;
      }
      RenderNext(cbs, i, body);
      assert before + (Render(cbs[i], body) + RenderAll(cbs[i + 1..], cf.gotbody)) ==
             cf.text + RenderAll(cbs[i + 1..], cf.gotbody);
      i := i + 1;
    }
    assert cf.text == RenderAll(cbs, false);
    SentNothing(maxfilesize, cf.text);
    st, scan := cf.OnEom();
    wire, chunks := cf.wire, cf.chunks;
  }

  lemma RenderNext(cbs: seq<Callback>, i: nat, gotbody: bool)
    requires i < |cbs|
    ensures RenderAll(cbs[i..], gotbody) == Render(cbs[i], gotbody) + RenderAll(cbs[i + 1..], gotbody || cbs[i].Body?)
  {
    hide Render;
    assert cbs[i..][1..] == cbs[i + 1..];
  }

  lemma SentNothing(m: nat, text: Bytes)
    ensures Sent(m, text) == [] <==> m == 0 || text == []
  {
  }

  // --- At the other end -------------------------------------------------------------------

  /** A stream on a connection in stream mode, in any pieces. */
  lemma StreamInPieces(cfg: Config, s: Conn, chunks: seq<Bytes>, packets: seq<Bytes>)
    requires BetweenChunks(s) && s.pending == [] && s.dump == [] && !s.inSession
    requires GoodChunks(chunks) && Flatten(packets) == EncodeStream(chunks) && AllLegal(cfg, s, packets)
    requires |Flatten(chunks)| <= s.quota
    ensures Turns(cfg, s, packets).log == s.log + [StreamScan(Flatten(chunks), s.id, false)]
  {
    hide Serve, Trailing, AllLegal, Turns;
    var all := s.(pending := Flatten(packets));
    var content := Flatten(chunks);
    assert all.pending == EncodeStream(chunks) + [];
    ServeStream(cfg, all, chunks, []);
    var done := EndStream(all.(quota := s.quota - |content|, dump := content, pending := []));
    assert [] + content == content;
    ServeStopped(cfg, done);
    assert Plus(s, Flatten(packets)) == all;
    NothingPending(cfg, s);
    NotTrailing(cfg, all);
    SplitDoesNotMatter(cfg, s, packets);
  }

  /**
   End to end: what clamd scans of a mail is the banner and the mail, cut at the limit, exactly when the
   limit leaves room for the banner (or the byte that took its place is the right one).
   */
  lemma MilterRoundTrip(cfg: Config, s: Conn, m: nat, text: Bytes, chunks: seq<Bytes>, packets: seq<Bytes>)
    requires BetweenChunks(s) && s.pending == [] && s.dump == [] && !s.inSession
    requires m > 0 && text != [] && GoodChunks(chunks) && Flatten(chunks) == Sent(m, text)
    requires Flatten(packets) == EncodeStream(chunks) && AllLegal(cfg, s, packets) && |Sent(m, text)| <= s.quota
    ensures Turns(cfg, s, packets).log == s.log + [StreamScan(Promised(m, text), s.id, false)]
            <==> m >= 20 || text[0] == BANNER[m - 1]
  {
    hide Turns, AllLegal, Promised;
    StreamInPieces(cfg, s, chunks, packets);
    PromiseKeptIff(m, text);
    var log := Turns(cfg, s, packets).log;
    assert log[|s.log|] == StreamScan(Sent(m, text), s.id, false);
    assert (s.log + [StreamScan(Promised(m, text), s.id, false)])[|s.log|] ==
           StreamScan(Promised(m, text), s.id, false);
  }
}
