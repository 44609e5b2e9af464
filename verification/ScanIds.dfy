/** Request numbers in replies: as clamd prints them and as `atoi` reads them. */
module ReplyNumbers {
  import opened Commands
  import opened Wire

  predicate IsDigit(c: char) {
    '0' <= c <= '9'
  }

  predicate IsSpace(c: char) {
    c == ' ' || '\t' <= c <= '\r'
  }

  function SkipSpace(b: Bytes): Bytes {
    if b != [] && IsSpace(b[0]) then SkipSpace(b[1..]) else b
  }

  function Digits(b: Bytes, acc: nat): nat {
    if b == [] || !IsDigit(b[0]) then acc else Digits(b[1..], 10 * acc + (b[0] as int - '0' as int))
  }

  /** `atoi`, without overflow */
  function Atoi(b: Bytes): int {
    var t := SkipSpace(b);
    if t != [] && t[0] == '-' then 0 - (Digits(t[1..], 0) as int)
    else if t != [] && t[0] == '+' then Digits(t[1..], 0)
    else Digits(t, 0)
  }

  /** Its value in an unsigned variable */
  function NumberOf(line: Bytes): nat {
    Atoi(line) % U32
  }

  /** `%u` */
  function Decimal(n: nat): (d: Bytes)
    ensures |d| > 0 && forall i :: 0 <= i < |d| ==> IsDigit(d[i])
  {
    var last := [(n % 10 + '0' as int) as char];
    if n < 10 then last else Decimal(n / 10) + last
  }

  lemma {:induction false} DigitsAppend(a: Bytes, b: Bytes, acc: nat)
    requires forall i :: 0 <= i < |a| ==> IsDigit(a[i])
    ensures Digits(a + b, acc) == Digits(b, Digits(a, acc))
    decreases |a|
  {
    if a == [] {
      assert a + b == b;
    } else {
      assert (a + b)[1..] == a[1..] + b;
      DigitsAppend(a[1..], b, 10 * acc + (a[0] as int - '0' as int));
    }
  }

  lemma {:induction false} DigitsOfDecimal(n: nat)
    ensures Digits(Decimal(n), 0) == n
  {
    if n >= 10 {
      DigitsOfDecimal(n / 10);
      DigitsAppend(Decimal(n / 10), [(n % 10 + '0' as int) as char], 0);
    }
  }

  /** A number survives printing and reading, whatever follows it that is not a digit. */
  lemma NumberRoundTrip(n: nat, rest: Bytes)
    requires n < U32 && (rest == [] || !IsDigit(rest[0]))
    ensures NumberOf(Decimal(n) + rest) == n
  {
    var line := Decimal(n) + rest;
    assert IsDigit(line[0]);
    assert SkipSpace(line) == line;
    DigitsAppend(Decimal(n), rest, 0);
    DigitsOfDecimal(n);
  }
}

/**
 How clamdscan keeps track of the requests of an IDSESSION: every request sent gets the next number, and
 a reply settles the request whose number it carries.
 */
module ScanIdModel {
  import opened Options
  import opened Commands
  import opened Wire
  import opened ReplyNumbers

  /** A request that is not answered yet; `source` says whether it holds an open file for the action. */
  datatype Pending = Pending(id: nat, file: Bytes, source: bool)

  datatype Report = Report(file: Bytes, infected: bool)

  datatype Client = Client(
    max: nat,                   // max_action_sources
    entries: seq<Pending>,        // the latest request first
    lastid: nat,
    sources: nat,               // action_sources
    infected: nat,
    errors: nat,
    reports: seq<Report>)       // what was printed

  datatype Verdict = Found | Error | Clean | Unparsable

  /** The status at the end of a reply; the line includes its NUL. */
  function VerdictOf(line: Bytes): Verdict {
    var n := |line|;
    if n <= 7 then Clean
    else if ':' !in line[..n - 1] then Unparsable
    else if line[n - 7..n - 1] == " FOUND" then Found
    else if line[n - 7..n - 1] == " ERROR" then Error
    else Clean
  }

  /** The position of the entry with this number, or the length. */
  function Find(entries: seq<Pending>, id: nat): (p: nat)
    ensures p <= |entries|
    ensures p < |entries| ==> entries[p].id == id
    ensures forall i :: 0 <= i < p ==> entries[i].id != id
  {
    if entries == [] || entries[0].id == id then 0 else 1 + Find(entries[1..], id)
  }

  function Without(entries: seq<Pending>, p: nat): seq<Pending>
    requires p < |entries|
  {
    entries[..p] + entries[p + 1..]
  }

  /** The request at `p` is answered. */
  function Settle(c: Client, p: nat, v: Verdict): Client
    requires p < |c.entries|
  {
    var e := c.entries[p];
    c.(entries := Without(c.entries, p),
       sources := if e.source && c.sources > 0 then c.sources - 1 else c.sources,
       infected := c.infected + if v == Found then 1 else 0,
       errors := c.errors + if v == Error then 1 else 0,
       reports := c.reports + if v == Found || v == Error then [Report(e.file, v == Found)] else [])
  }

  /** The slot the reply is about: looked up by its number, or what the last reply left when it has none. */
  function Slot(entries: seq<Pending>, stale: Option<nat>, line: Bytes): Option<nat> {
    var id := NumberOf(line);
    if id == 0 then stale
    else if Find(entries, id) < |entries| then Some(Find(entries, id))
    else None
  }

  datatype Step = Settled(c: Client, slot: nat) | Refused | Crash

  /** One reply, as the body of the loop in `dspresult` treats it. */
  function Reply(c: Client, stale: Option<nat>, line: Bytes): Step {
    var slot := Slot(c.entries, stale, line);
    if slot.None? then Refused
    else if slot.value >= |c.entries| then Crash
    else if VerdictOf(line) == Unparsable then Refused
    else Settled(Settle(c, slot.value, VerdictOf(line)), slot.value)
  }

  /** The client and the slot that the last reply left. */
  datatype Progress = Progress(c: Client, slot: Option<nat>)

  /** The replies of one batch; none when one of them is refused (or worse). */
  function Batch(c: Client, stale: Option<nat>, lines: seq<Bytes>): Option<Progress>
    decreases |lines|
  {
    if lines == [] then Some(Progress(c, stale))
    else
      var s := Reply(c, stale, lines[0]);
      if s.Settled? then Batch(s.c, Some(s.slot), lines[1..]) else None
  }

  lemma {:induction false} BatchSnoc(c: Client, stale: Option<nat>, lines: seq<Bytes>, line: Bytes)
    requires Batch(c, stale, lines).Some?
    ensures var b := Batch(c, stale, lines).value;
            var s := Reply(b.c, b.slot, line);
            Batch(c, stale, lines + [line]) == if s.Settled? then Some(Progress(s.c, Some(s.slot))) else None
    decreases |lines|
  {
    hide Reply;
    if lines == [] {
      assert lines + [line] == [line] && [line][1..] == [];
    } else {
      var s := Reply(c, stale, lines[0]);
      assert (lines + [line])[1..] == lines[1..] + [line];
      BatchSnoc(s.c, Some(s.slot), lines[1..], line);
    }
  }

  /** Replies only ever free action sources. */
  lemma {:induction false} BatchFrees(c: Client, stale: Option<nat>, lines: seq<Bytes>)
    requires Batch(c, stale, lines).Some?
    ensures var d := Batch(c, stale, lines).value.c; d.sources <= c.sources && d.max == c.max && d.lastid == c.lastid
    decreases |lines|
  {
    hide Slot, VerdictOf, Without;
    if lines != [] {
      var s := Reply(c, stale, lines[0]);
      BatchFrees(s.c, Some(s.slot), lines[1..]);
    }
  }

  /** A request is sent in full. */
  function Send(c: Client, file: Bytes, source: bool): Client {
    c.(lastid := c.lastid + 1,
       entries := [Pending(c.lastid + 1, file, source)] + c.entries,
       sources := c.sources + if source then 1 else 0)
  }

  // --- What every run keeps --------------------------------------------------------------

  function Holding(entries: seq<Pending>): nat {
    if entries == [] then 0 else (if entries[0].source then 1 else 0) + Holding(entries[1..])
  }

  /** Everything sent so far, in order. */
  datatype Request = Request(file: Bytes, source: bool)

  predicate Descending(entries: seq<Pending>) {
    forall i, j :: 0 <= i < j < |entries| ==> entries[i].id > entries[j].id
  }

  ghost predicate Awaits(entries: seq<Pending>, id: nat) {
    exists i :: 0 <= i < |entries| && entries[i].id == id
  }

  /** Each outstanding request is the one that was sent under its number. */
  ghost predicate AllKnown(entries: seq<Pending>, sent: seq<Request>) {
    forall i :: 0 <= i < |entries| ==>
      1 <= entries[i].id <= |sent| && sent[entries[i].id - 1] == Request(entries[i].file, entries[i].source)
  }

  ghost predicate Inv(c: Client, sent: seq<Request>) {
    && c.lastid == |sent|
    && AllKnown(c.entries, sent)
    && Descending(c.entries)
    && c.sources == Holding(c.entries) && c.sources <= c.max
  }

  lemma SendKeeps(c: Client, sent: seq<Request>, file: Bytes, source: bool)
    requires Inv(c, sent) && (source ==> c.sources < c.max)
    ensures Inv(Send(c, file, source), sent + [Request(file, source)])
  {
    var d := Send(c, file, source);
    assert d.entries[1..] == c.entries;
  }

  lemma {:induction false} HoldingWithout(entries: seq<Pending>, p: nat)
    requires p < |entries|
    ensures Holding(entries) == Holding(Without(entries, p)) + if entries[p].source then 1 else 0
  {
    if p == 0 {
      assert Without(entries, 0) == entries[1..];
    } else {
      HoldingWithout(entries[1..], p - 1);
      assert Without(entries, p)[1..] == Without(entries[1..], p - 1);
    }
  }

  lemma WithoutKeeps(entries: seq<Pending>, sent: seq<Request>, p: nat)
    requires p < |entries| && Descending(entries) && AllKnown(entries, sent)
    ensures Descending(Without(entries, p)) && AllKnown(Without(entries, p), sent)
  {
    var w := Without(entries, p);
    assert forall i :: 0 <= i < |w| ==> w[i] == entries[if i < p then i else i + 1];
  }

  lemma SettleKeeps(c: Client, sent: seq<Request>, p: nat, v: Verdict)
    requires Inv(c, sent) && p < |c.entries|
    ensures Inv(Settle(c, p, v), sent)
  {
    hide Descending, AllKnown, Without;
    HoldingWithout(c.entries, p);
    WithoutKeeps(c.entries, sent, p);
  }

  lemma {:induction false} BatchKeeps(c: Client, sent: seq<Request>, stale: Option<nat>, lines: seq<Bytes>)
    requires Inv(c, sent) && Batch(c, stale, lines).Some?
    ensures Inv(Batch(c, stale, lines).value.c, sent)
    decreases |lines|
  {
    hide Inv, Slot, Settle, VerdictOf;
    if lines != [] {
      var s := Reply(c, stale, lines[0]);
      SettleKeeps(c, sent, s.slot, VerdictOf(lines[0]));
      BatchKeeps(s.c, sent, Some(s.slot), lines[1..]);
    }
  }

  datatype Act = Sent(file: Bytes, source: bool) | Replied(lines: seq<Bytes>)

  /** Sends wait until an action source is free; every `dspresult` starts without a slot. */
  function Run(c: Client, acts: seq<Act>): Option<Client>
    decreases |acts|
  {
    if acts == [] then Some(c)
    else match acts[0]
      case Sent(file, source) => if source && c.sources >= c.max then None else Run(Send(c, file, source), acts[1..])
      case Replied(lines) =>
        var d := Batch(c, None, lines);
        if d.Some? then Run(d.value.c, acts[1..]) else None
  }

  lemma {:induction false} RunSnoc(c: Client, acts: seq<Act>, act: Act)
    requires Run(c, acts).Some?
    ensures Run(c, acts + [act]) == Run(Run(c, acts).value, [act])
    decreases |acts|
  {
    hide Batch, Send;
    if acts == [] {
      assert acts + [act] == [act];
    } else {
      assert (acts + [act])[1..] == acts[1..] + [act];
      if acts[0].Sent? {
        RunSnoc(Send(c, acts[0].file, acts[0].source), acts[1..], act);
      } else {
        RunSnoc(Batch(c, None, acts[0].lines).value.c, acts[1..], act);
      }
    }
  }

  function AllSent(acts: seq<Act>): seq<Request> {
    if acts == [] then []
    else (if acts[0].Sent? then [Request(acts[0].file, acts[0].source)] else []) + AllSent(acts[1..])
  }

  lemma Regroup(a: seq<Request>, r: Request, b: seq<Request>)
    ensures a + [r] + b == a + ([r] + b)
  {
  }

  lemma {:induction false} RunKeeps(c: Client, sent: seq<Request>, acts: seq<Act>)
    requires Inv(c, sent) && Run(c, acts).Some?
    ensures Inv(Run(c, acts).value, sent + AllSent(acts))
    decreases |acts|
  {
    hide Inv, Send, Batch;
    if acts == [] {
      assert sent + [] == sent;
    } else if acts[0].Sent? {
      var r := Request(acts[0].file, acts[0].source);
      SendKeeps(c, sent, r.file, r.source);
      RunKeeps(Send(c, r.file, r.source), sent + [r], acts[1..]);
      Regroup(sent, r, AllSent(acts[1..]));
    } else {
      BatchKeeps(c, sent, None, acts[0].lines);
      RunKeeps(Batch(c, None, acts[0].lines).value.c, sent, acts[1..]);
      assert AllSent(acts) == AllSent(acts[1..]);
    }
  }

  function Start(max: nat): Client {
    Client(max, [], 0, 0, 0, 0, [])
  }

  /**
   In every run the k-th request is number k, what is outstanding under a number is the request that was
   sent with it, and the open files are counted and stay within their limit.
   */
  lemma EveryRun(max: nat, acts: seq<Act>)
    requires Run(Start(max), acts).Some?
    ensures Inv(Run(Start(max), acts).value, AllSent(acts))
  {
    hide Run, AllSent;
    RunKeeps(Start(max), [], acts);
    assert [] + AllSent(acts) == AllSent(acts);
  }

  // --- A reply settles its own request -----------------------------------------------------

  /** A reply as clamd sends it in a session. */
  function EncodeReply(id: nat, text: Bytes): Bytes {
    Decimal(id) + ": " + text + ['\0']
  }

  lemma ReplyParts(id: nat, text: Bytes)
    requires 0 < id < U32
    ensures NumberOf(EncodeReply(id, text)) == id && VerdictOf(EncodeReply(id, text)) != Unparsable
  {
    var line := EncodeReply(id, text);
    var rest := ": " + text + ['\0'];
    assert line == Decimal(id) + rest;
    NumberRoundTrip(id, rest);
    assert line[|Decimal(id)|] == ':';
    assert line[..|line| - 1][|Decimal(id)|] == ':';
  }

  /** What clamd appends to a reply is what the client reads off its end. */
  lemma StatusRoundTrip(id: nat, text: Bytes)
    ensures VerdictOf(EncodeReply(id, text + " FOUND")) == Found
    ensures VerdictOf(EncodeReply(id, text + " ERROR")) == Error
    ensures VerdictOf(EncodeReply(id, text + ": OK")) == Clean
  {
    StatusAtEnd(id, text, " FOUND");
    StatusAtEnd(id, text, " ERROR");
    OkAtEnd(id, text);
  }

  lemma StatusAtEnd(id: nat, text: Bytes, status: Bytes)
    requires |status| == 6
    ensures var line := EncodeReply(id, text + status);
            |line| > 7 && line[|line| - 7..|line| - 1] == status && ':' in line[..|line| - 1]
  {
    var line := EncodeReply(id, text + status);
    var head := Decimal(id) + ": " + text;
    assert line == head + status + ['\0'];
    assert line[|Decimal(id)|] == ':';
    assert line[..|line| - 1][|Decimal(id)|] == ':';
  }

  lemma OkAtEnd(id: nat, text: Bytes)
    ensures VerdictOf(EncodeReply(id, text + ": OK")) == Clean
  {
    var line := EncodeReply(id, text + ": OK");
    var n := |line|;
    var head := Decimal(id) + ": " + text;
    assert line == head + ": OK" + ['\0'];
    assert line[n - 2] == 'K';
    assert line[n - 7..n - 1][5] == 'K' && " FOUND"[5] == 'D' && " ERROR"[5] == 'R';
    assert line[|Decimal(id)|] == ':';
    assert line[..n - 1][|Decimal(id)|] == ':';
  }

  /** A reply to an outstanding request settles that request and no other; any other number is refused. */
  lemma ReplySettlesItsOwn(c: Client, sent: seq<Request>, stale: Option<nat>, id: nat, text: Bytes)
    requires Inv(c, sent) && 0 < id < U32
    ensures var s := Reply(c, stale, EncodeReply(id, text));
            var v := VerdictOf(EncodeReply(id, text));
            if Awaits(c.entries, id) then
              && id <= |sent| && s.Settled? && s.slot < |c.entries|
              && c.entries[s.slot] == Pending(id, sent[id - 1].file, sent[id - 1].source)
              && s.c.entries == Without(c.entries, s.slot)
              && s.c.reports == c.reports +
                   (if v == Found || v == Error then [Report(sent[id - 1].file, v == Found)] else [])
              && s.c.infected == c.infected + (if v == Found then 1 else 0) &&
                 s.c.errors == c.errors + (if v == Error then 1 else 0)
            else s == Refused
  {
    ReplyParts(id, text);
    FindAwaits(c.entries, id);
  }

  lemma FindAwaits(entries: seq<Pending>, id: nat)
    ensures Find(entries, id) < |entries| <==> Awaits(entries, id)
  {
    if i :| 0 <= i < |entries| && entries[i].id == id {
      assert Find(entries, id) <= i;
    }
  }

  /** Any number of replies, in any order: exactly the requests they name are settled. */
  lemma {:induction false} RepliesInAnyOrder(c: Client, sent: seq<Request>, stale: Option<nat>, ids: seq<nat>,
      texts: seq<Bytes>)
    returns (d: Client)
    requires Inv(c, sent) && |texts| == |ids|
    requires forall i :: 0 <= i < |ids| ==> 0 < ids[i] < U32 && Awaits(c.entries, ids[i])
    requires forall i, j :: 0 <= i < j < |ids| ==> ids[i] != ids[j]
    ensures var b := Batch(c, stale, EncodeReplies(ids, texts)); b.Some? && b.value.c == d && Inv(d, sent)
    ensures forall e :: e in d.entries <==> e in c.entries && e.id !in ids
    decreases |ids|
  {
    hide Reply, Settle, EncodeReply, VerdictOf, Inv, Without, Awaits;
    if ids == [] {
      d := c;
    } else {
      var s := OneReply(c, sent, stale, ids[0], texts[0]);
      var more := ids[1..];
      forall i | 0 <= i < |more| ensures Awaits(s.c.entries, more[i]) {
        assert more[i] == ids[i + 1];
        StillAwaits(c.entries, s.c.entries, ids[0], more[i]);
      }
      d := RepliesInAnyOrder(s.c, sent, Some(s.slot), more, texts[1..]);
      var lines := EncodeReplies(ids, texts);
      assert lines[1..] == EncodeReplies(more, texts[1..]);
      assert ids == [ids[0]] + more;
    }
  }

  lemma OneReply(c: Client, sent: seq<Request>, stale: Option<nat>, id: nat, text: Bytes) returns (s: Step)
    requires Inv(c, sent) && 0 < id < U32 && Awaits(c.entries, id)
    ensures s == Reply(c, stale, EncodeReply(id, text)) && s.Settled? && Inv(s.c, sent)
    ensures forall e :: e in s.c.entries <==> e in c.entries && e.id != id
  {
    hide EncodeReply, Without, Slot;
    var line := EncodeReply(id, text);
    s := Reply(c, stale, line);
    ReplySettlesItsOwn(c, sent, stale, id, text);
    SettleKeeps(c, sent, s.slot, VerdictOf(line));
    forall e ensures e in Without(c.entries, s.slot) <==> e in c.entries && e.id != id {
      WithoutMember(c.entries, s.slot, e);
    }
  }

  lemma StillAwaits(entries: seq<Pending>, left: seq<Pending>, gone: nat, id: nat)
    requires forall e :: e in left <==> e in entries && e.id != gone
    requires Awaits(entries, id) && id != gone
    ensures Awaits(left, id)
  {
    var i :| 0 <= i < |entries| && entries[i].id == id;
    assert entries[i] in left;
  }

  function EncodeReplies(ids: seq<nat>, texts: seq<Bytes>): seq<Bytes>
    requires |texts| == |ids|
  {
    if ids == [] then [] else [EncodeReply(ids[0], texts[0])] + EncodeReplies(ids[1..], texts[1..])
  }

  /** Numbers are unique, so removing an entry removes its number. */
  lemma WithoutMember(entries: seq<Pending>, p: nat, e: Pending)
    requires Descending(entries) && p < |entries|
    ensures e in Without(entries, p) <==> e in entries && e.id != entries[p].id
  {
    var w := Without(entries, p);
    if e in w {
      var i :| 0 <= i < |w| && w[i] == e;
      var j := if i < p then i else i + 1;
      assert entries[j] == e;
    }
    if i :| 0 <= i < |entries| && entries[i] == e && i != p {
      assert e == w[if i < p then i else i - 1];
    }
  }

  // --- Replies without a number -----------------------------------------------------------

  /**
   A reply that names no outstanding request is refused, with one exception: a line without a number that
   is not the first of its batch is taken for an answer to the request sent before the one just settled. If
   there is none, the list is followed past its end.
   */
  lemma BogusReplyRefusedIff(c: Client, stale: Option<nat>, line: Bytes)
    requires !Awaits(c.entries, NumberOf(line))
    ensures Reply(c, stale, line) == Refused <==>
            NumberOf(line) != 0 || stale.None? || (stale.value < |c.entries| && VerdictOf(line) == Unparsable)
    ensures Reply(c, stale, line) == Crash <==> NumberOf(line) == 0 && stale.Some? && stale.value >= |c.entries|
  {
    FindAwaits(c.entries, NumberOf(line));
  }

  /** Two requests, one reply, and a line without a number: both files end up as answered. */
  lemma NumberlessLineSettlesAnother()
    ensures var c := Send(Send(Start(64), "a", false), "b", false);
            var lines := [EncodeReply(2, "b: OK"), "a: X FOUND\0"];
            var d := Batch(c, None, lines);
            && Batch(c, None, [lines[1]]) == None
            && d.Some? && d.value.c.entries == [] && d.value.c.reports == [Report("a", true)]
  {
    hide EncodeReply, VerdictOf, NumberOf;
    var c := Send(Send(Start(64), "a", false), "b", false);
    var first, second := EncodeReply(2, "b: OK"), "a: X FOUND\0";
    ReplyParts(2, "b: OK");
    NumberlessLine();
    CleanReply(2);
    assert c.entries == [Pending(2, "b", false), Pending(1, "a", false)];
    var s := Reply(c, None, first);
    assert s == Settled(Settle(c, 0, Clean), 0);
    assert s.c.entries == [Pending(1, "a", false)];
    var t := Reply(s.c, Some(0), second);
    assert t == Settled(Settle(s.c, 0, Found), 0);
    assert [first, second][1..] == [second] && [second][1..] == [];
    assert Batch(s.c, Some(0), [second]) == Batch(t.c, Some(0), []);
  }

  /**
   A line without a number that follows a reply in its batch makes the client follow a null pointer if and
   only if the request just settled was the oldest one outstanding.
   */
  lemma NumberlessLineCrashesIff(c: Client, stale: Option<nat>, first: Bytes, line: Bytes)
    requires Reply(c, stale, first).Settled? && NumberOf(line) == 0
    ensures var s := Reply(c, stale, first);
            Reply(s.c, Some(s.slot), line) == Crash <==> s.slot == |c.entries| - 1
  {
    var s := Reply(c, stale, first);
    assert |s.c.entries| == |c.entries| - 1;
  }

  /** Two requests; the first sent is answered first, and the same line follows. */
  lemma NumberlessLineCrashes()
    ensures var c := Send(Send(Start(64), "b", false), "a", false);
            var s := Reply(c, None, EncodeReply(1, "b: OK"));
            s.Settled? && s.c.entries == [Pending(2, "a", false)] && Reply(s.c, Some(s.slot), "a: X FOUND\0") == Crash
  {
    hide EncodeReply, VerdictOf, NumberOf;
    var c := Send(Send(Start(64), "b", false), "a", false);
    ReplyParts(1, "b: OK");
    NumberlessLine();
    CleanReply(1);
    assert c.entries == [Pending(2, "a", false), Pending(1, "b", false)];
    assert Find(c.entries, 1) == 1;
    var s := Reply(c, None, EncodeReply(1, "b: OK"));
    assert s == Settled(Settle(c, 1, Clean), 1);
    NumberlessLineCrashesIff(c, None, EncodeReply(1, "b: OK"), "a: X FOUND\0");
  }

  lemma NumberlessLine()
    ensures NumberOf("a: X FOUND\0") == 0 && VerdictOf("a: X FOUND\0") == Found
  {
    var line := "a: X FOUND\0";
    assert line[..10][1] == ':';
    assert line[4..10] == " FOUND";
  }

  lemma CleanReply(id: nat)
    requires id < 10
    ensures VerdictOf(EncodeReply(id, "b: OK")) == Clean
  {
    var line := EncodeReply(id, "b: OK");
    assert |Decimal(id)| == 1;
    assert line == Decimal(id) + ": b: OK\0";
    assert line[2..8] == " b: OK";
  }
}
