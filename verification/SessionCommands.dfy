/**
 What each command does to a connection, inside and outside a session, and whole sessions in which
 such commands come between the requests.
 */
module SessionCommands {
  import opened Options
  import opened Commands
  import opened Wire
  import opened SessionModel
  import opened Fragments
  import opened StreamCodec
  import opened Requests

  /** Answered or dispatched inside a session, which goes on. */
  predicate GoesOn(cfg: Config, c: Command) {
    c.Ping? || c.ListCommands? || c.Scan? || c.Fildes? || (c.Version? && cfg.versionOn) || (c.Stats? && cfg.statsOn)
  }

  /** END, and the commands that are known inside a session but switched off. */
  predicate EndsSession(cfg: Config, c: Command) {
    c.End? || (c.Version? && !cfg.versionOn) || (c.Stats? && !cfg.statsOn)
  }

  /** The commands that a worker carries out outside a session. */
  predicate Dispatched(cfg: Config, c: Command) {
    c.Scan? || c.ContScan? || c.MultiScan? || c.AllMatchScan? || c.Fildes? || (c.Stats? && cfg.statsOn)
  }

  function ArgumentOf(c: Command, filename: Bytes): Option<Bytes> {
    if NamesFile(c) then Some(filename) else None
  }

  /** The bytes of a command are at the front; FILDES brings one more byte. */
  predicate Arrived(cfg: Config, s: Conn, c: Command, filename: Bytes, extra: Bytes, rest: Bytes) {
    && Ready(s) && cfg.table == TABLE
    && c != Unknown && NulFree(filename) && |CommandLine(c, filename)| + 1 < cfg.bufSize
    && |extra| == (if c.Fildes? then 1 else 0)
    && s.pending == Line(CommandLine(c, filename)) + extra + rest
  }

  lemma TextIsClean(c: Command)
    requires c != Unknown
    ensures NulFree(TextOf(c))
  {
  }

  lemma LineIsClean(c: Command, filename: Bytes)
    requires c != Unknown && NulFree(filename)
    ensures NulFree(CommandLine(c, filename))
  {
    hide TextOf;
    TextIsClean(c);
  }

  lemma ServeCommand(cfg: Config, s: Conn, c: Command, filename: Bytes, extra: Bytes, rest: Bytes)
    requires Arrived(cfg, s, c, filename, extra, rest)
    ensures Serve(cfg, s) == Serve(cfg, AfterCommand(cfg, s, Parsed(c, ArgumentOf(c, filename))).(pending := rest))
  {
    hide Serve, RecogniseIn, AfterCommand, CommandLine, Line, NulFree;
    var line := CommandLine(c, filename);
    TextMeans(c, filename, false);
    assert RecogniseIn(cfg.table, line, false) == Recognise(line, false);
    LineIsClean(c, filename);
    ServeLine(cfg, s, line, extra, rest);
  }

  /**
   A command inside a session. It is answered or dispatched and the session goes on under the next id; or it
   opens a stream; or it ends the session, at once if no job is left and when the last one is done otherwise; a
   command that is not known inside a session ends it at once.
   */
  lemma InsideSession(cfg: Config, s: Conn, c: Command, filename: Bytes, extra: Bytes, rest: Bytes) returns (t: Conn)
    requires Arrived(cfg, s, c, filename, extra, rest) && s.inSession
    ensures Serve(cfg, s) == Serve(cfg, t) && t.pending == rest
    ensures t.log == s.log + [Executed(c, ArgumentOf(c, filename), s.id, true)]
    ensures GoesOn(cfg, c) ==> Ready(t) && t.inSession && t.id == s.id + 1
    ensures c.Instream? ==>
              t.open && t.mode == StreamMode && t.inSession && t.id == s.id && t.quota == cfg.streamMax && t.dump == []
    ensures EndsSession(cfg, c) ==>
              !t.open && if cfg.alone(|s.log|) then !t.inSession && t.mode == CommandMode
                         else t.inSession && t.mode == WaitReply
    ensures !GoesOn(cfg, c) && !c.Instream? && !EndsSession(cfg, c) ==>
              !t.open && !t.inSession && t.mode == CommandMode
  {
    hide Serve, CommandLine, Line, NulFree;
    ServeCommand(cfg, s, c, filename, extra, rest);
    t := AfterCommand(cfg, s, Parsed(c, ArgumentOf(c, filename))).(pending := rest);
  }

  /**
   A command outside a session: IDSESSION starts one, INSTREAM opens a stream, a dispatched command leaves the
   connection waiting for its reply, and everything else is answered and closes it.
   */
  lemma OutsideSession(cfg: Config, s: Conn, c: Command, filename: Bytes, extra: Bytes, rest: Bytes) returns (t: Conn)
    requires Arrived(cfg, s, c, filename, extra, rest) && !s.inSession
    ensures Serve(cfg, s) == Serve(cfg, t) && t.pending == rest
    ensures t.log == s.log + [Executed(c, ArgumentOf(c, filename), s.id, false)]
    ensures c.IdSession? ==> Ready(t) && t.inSession && t.id == s.id + 1
    ensures c.Instream? ==>
              t.open && t.mode == StreamMode && !t.inSession && t.id == s.id && t.quota == cfg.streamMax && t.dump == []
    ensures Dispatched(cfg, c) ==> !t.open && !t.inSession && t.mode == WaitReply
    ensures !c.IdSession? && !c.Instream? && !Dispatched(cfg, c) ==> !t.open && !t.inSession && t.mode == CommandMode
  {
    hide Serve, CommandLine, Line, NulFree;
    ServeCommand(cfg, s, c, filename, extra, rest);
    t := AfterCommand(cfg, s, Parsed(c, ArgumentOf(c, filename))).(pending := rest);
  }

  /** A line that is no command closes the connection, and ends a session. */
  lemma UnknownLine(cfg: Config, s: Conn, text: Bytes, rest: Bytes) returns (t: Conn)
    requires Ready(s) && cfg.table == TABLE && NulFree(text) && |text| + 1 < cfg.bufSize
    requires Recognise(text, false).command == Unknown && s.pending == Line(text) + rest
    ensures Serve(cfg, s) == Serve(cfg, t) && t.pending == rest && !t.open && !t.inSession && t.mode == CommandMode
    ensures t.log == s.log + [Executed(Unknown, Recognise(text, false).argument, s.id, s.inSession)]
  {
    hide Serve, RecogniseIn, Line, NulFree;
    assert RecogniseIn(cfg.table, text, false) == Recognise(text, false);
    assert s.pending == Line(text) + [] + rest;
    ServeLine(cfg, s, text, [], rest);
    t := AfterCommand(cfg, s, Recognise(text, false)).(pending := rest);
  }

  // --- Sessions with other commands in between ---------------------------------------------

  /** What a client can send in a session before END: a request, or a command that does not end it. */
  datatype Item = Ask(r: Request) | Aside(c: Command, filename: Bytes)

  predicate GoodItem(cfg: Config, it: Item) {
    match it
    case Ask(r) => GoodRequest(r)
    case Aside(c, filename) =>
      c != Unknown && GoesOn(cfg, c) && !c.Fildes? && NulFree(filename) && |CommandLine(c, filename)| + 1 < cfg.bufSize
  }

  predicate GoodItems(cfg: Config, items: seq<Item>) {
    forall i :: 0 <= i < |items| ==> GoodItem(cfg, items[i])
  }

  function EncodeItem(cfg: Config, it: Item): Bytes
    requires GoodItem(cfg, it)
  {
    match it
    case Ask(r) => EncodeRequest(r)
    case Aside(c, filename) => Line(CommandLine(c, filename))
  }

  function EncodeItems(cfg: Config, items: seq<Item>): Bytes
    requires GoodItems(cfg, items)
  {
    if items == [] then Line("END") else EncodeItem(cfg, items[0]) + EncodeItems(cfg, items[1..])
  }

  /** What the server does for item number `k`. */
  function ItemEvents(it: Item, k: nat): seq<Event> {
    match it
    case Ask(r) => RequestEvents(r, k)
    case Aside(c, filename) => [Executed(c, ArgumentOf(c, filename), k, true)]
  }

  predicate ItemServed(cfg: Config, it: Item) {
    it.Ask? ==> Served(cfg, it.r)
  }

  function MixedEvents(cfg: Config, items: seq<Item>, k: nat): seq<Event> {
    if items == [] then [Executed(End, None, k, true)]
    else if !ItemServed(cfg, items[0]) then [Executed(Instream, None, k, true)]
    else ItemEvents(items[0], k) + MixedEvents(cfg, items[1..], k + 1)
  }

  /** One item: the session goes on with the next id. */
  lemma ItemStep(cfg: Config, s: Conn, it: Item, rest: Bytes) returns (t: Conn)
    requires Ready(s) && s.inSession && cfg.table == TABLE && cfg.bufSize >= 11
    requires GoodItem(cfg, it) && ItemServed(cfg, it) && s.pending == EncodeItem(cfg, it) + rest
    ensures Ready(t) && t.inSession && t.pending == rest && t.id == s.id + 1 && t.log == s.log + ItemEvents(it, s.id)
    ensures Serve(cfg, s) == Serve(cfg, t)
  {
    hide Serve, CommandLine, Line, NulFree, EncodeRequest;
    match it
    case Ask(r) => t := RequestStep(cfg, s, r, rest);
    case Aside(c, filename) =>
      assert s.pending == Line(CommandLine(c, filename)) + [] + rest;
      t := InsideSession(cfg, s, c, filename, [], rest);
  }

  lemma {:induction false} ServeItems(cfg: Config, s: Conn, items: seq<Item>)
    requires Ready(s) && s.inSession && cfg.table == TABLE && cfg.bufSize >= 11 && GoodItems(cfg, items)
    requires s.pending == EncodeItems(cfg, items)
    ensures var c := Serve(cfg, s);
            !c.open && (c.pending == [] || c.mode == Failed) && c.log == s.log + MixedEvents(cfg, items, s.id)
    decreases |items|
  {
    hide Serve, EncodeItem, ItemEvents, GoodItem, ItemServed;
    if items == [] {
      ServeEnd(cfg, s);
    } else {
      var it, more := items[0], items[1..];
      if ItemServed(cfg, it) {
        var t := ItemStep(cfg, s, it, EncodeItems(cfg, more));
        ServeItems(cfg, t, more);
        assert s.log + ItemEvents(it, s.id) + MixedEvents(cfg, more, s.id + 1) ==
               s.log + (ItemEvents(it, s.id) + MixedEvents(cfg, more, s.id + 1));
      } else {
        ItemOverLimit(cfg, s, it, EncodeItems(cfg, more));
      }
    }
  }

  lemma ItemOverLimit(cfg: Config, s: Conn, it: Item, rest: Bytes)
    requires Ready(s) && s.inSession && cfg.table == TABLE && cfg.bufSize >= 11
    requires GoodItem(cfg, it) && !ItemServed(cfg, it) && s.pending == EncodeItem(cfg, it) + rest
    ensures var c := Serve(cfg, s);
            !c.open && c.mode == Failed && c.log == s.log + [Executed(Instream, None, s.id, true)]
  {
    hide Serve, EncodeRequest;
    ServeOverLimit(cfg, s, it.r, rest);
  }

  /** A whole session with other commands between the requests, in any pieces: everything happens in order. */
  lemma MixedRoundTrip(cfg: Config, items: seq<Item>, packets: seq<Bytes>)
    requires cfg.table == TABLE && cfg.bufSize >= 11 && GoodItems(cfg, items)
    requires Flatten(packets) == Line("IDSESSION") + EncodeItems(cfg, items) && AllLegal(cfg, NEW_CONN, packets)
    ensures Turns(cfg, NEW_CONN, packets).log == [Executed(IdSession, None, 0, false)] + MixedEvents(cfg, items, 1)
    ensures !Turns(cfg, NEW_CONN, packets).open
  {
    hide AllLegal, Turns, Serve, MixedEvents, EncodeItems, GoodItems, Line;
    var s := NEW_CONN.(pending := Flatten(packets));
    SessionLine(cfg);
    assert s.pending == Line(CommandLine(IdSession, [])) + [] + EncodeItems(cfg, items);
    var t := OutsideSession(cfg, s, IdSession, [], [], EncodeItems(cfg, items));
    ServeItems(cfg, t, items);
    AnySplit(cfg, packets);
  }

  lemma SessionLine(cfg: Config)
    requires cfg.bufSize >= 11
    ensures CommandLine(IdSession, []) == "IDSESSION" && |CommandLine(IdSession, [])| + 1 < cfg.bufSize && NulFree([])
  {
  }

  /** Whatever stands between them, every stream of the session is scanned, under its place in the session. */
  lemma {:induction false} EveryStreamScanned(cfg: Config, items: seq<Item>, k: nat, i: nat)
    requires forall j :: 0 <= j < |items| ==> ItemServed(cfg, items[j])
    requires i < |items| && items[i].Ask? && items[i].r.Stream?
    ensures StreamScan(Flatten(items[i].r.chunks), k + i, true) in MixedEvents(cfg, items, k)
    decreases i
  {
    hide ItemServed, Flatten;
    if i == 0 {
      assert ItemEvents(items[0], k)[1] == StreamScan(Flatten(items[0].r.chunks), k, true);
    } else {
      EveryStreamScanned(cfg, items[1..], k + 1, i - 1);
    }
  }
}
