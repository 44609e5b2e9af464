/**
 The client of an IDSESSION in place: requests in a linked list, removed through a pointer to the link,
 replies read line by line. It refines the model on values.
 */
module ParallelClients {
  import opened Options
  import opened Commands
  import opened Fragments
  import opened RecvLine
  import opened ReplyNumbers
  import opened ScanIdModel

  class ScanId {
    const id: nat
    const file: Bytes
    const source: bool
    var next: ScanId?

    constructor (id: nat, file: Bytes, source: bool, next: ScanId?)
      ensures this.id == id && this.file == file && this.source == source && this.next == next
    {
      this.id, this.file, this.source, this.next := id, file, source, next;
    }
  }

  /** What the nodes of the list stand for */
  ghost function Values(spine: seq<ScanId>): (v: seq<Pending>)
    ensures |v| == |spine| && forall i :: 0 <= i < |v| ==> v[i] == Pending(spine[i].id, spine[i].file, spine[i].source)
  {
    seq(|spine|, i requires 0 <= i < |spine| => Pending(spine[i].id, spine[i].file, spine[i].source))
  }

  /** Node number `i`, or the null behind the last. */
  ghost function Nth(spine: seq<ScanId>, i: nat): ScanId? {
    if i < |spine| then spine[i] else null
  }

  /** A list from `head`, ended by null, without a node twice. */
  ghost predicate Linked(head: ScanId?, spine: seq<ScanId>)
    reads spine
  {
    && head == Nth(spine, 0)
    && (forall i {:trigger spine[i].next} :: 0 <= i < |spine| ==> spine[i].next == Nth(spine, i + 1))
    && Distinct(spine)
  }

  ghost predicate Distinct(spine: seq<ScanId>) {
    forall i, j :: 0 <= i < j < |spine| ==> spine[i] != spine[j]
  }

  lemma ConsParts(node: ScanId, spine: seq<ScanId>)
    requires node !in spine && Distinct(spine)
    ensures Distinct([node] + spine) && Nth([node] + spine, 0) == node
    ensures Values([node] + spine) == [Pending(node.id, node.file, node.source)] + Values(spine)
  {
  }

  lemma ConsAt(node: ScanId, spine: seq<ScanId>, i: nat)
    requires i <= |spine|
    ensures ([node] + spine)[i] == (if i == 0 then node else spine[i - 1]) &&
            Nth([node] + spine, i + 1) == Nth(spine, i)
  {
  }

  ghost function Cut(spine: seq<ScanId>, p: nat): seq<ScanId>
    requires p < |spine|
  {
    spine[..p] + spine[p + 1..]
  }

  lemma CutParts(spine: seq<ScanId>, p: nat)
    requires p < |spine| && Distinct(spine)
    ensures Distinct(Cut(spine, p)) && Values(Cut(spine, p)) == Without(Values(spine), p)
  {
  }

  /** Position `i` behind the cut, and what follows it there. */
  lemma CutAt(spine: seq<ScanId>, p: nat, i: nat)
    requires p < |spine| && i < |spine| - 1
    ensures var j := if i < p then i else i + 1;
            Cut(spine, p)[i] == spine[j] && Nth(Cut(spine, p), i + 1) == Nth(spine, if i + 1 == p then p + 1 else j + 1)
  {
  }

  lemma FirstOfCut(spine: seq<ScanId>, p: nat)
    requires 0 < p < |spine|
    ensures Nth(Cut(spine, p), 0) == Nth(spine, 0)
  {
  }

  lemma Different(spine: seq<ScanId>, i: nat, j: nat)
    requires Distinct(spine) && i < |spine| && j < |spine| && i != j
    ensures spine[i] != spine[j]
  {
  }

  class ParallelClient {
    const max: nat
    var ids: ScanId?
    var lastid: nat
    var actionSources: nat
    var infected: nat
    var errors: nat
    var reports: seq<Report>
    ghost var spine: seq<ScanId>

    ghost predicate Valid()
      reads this, spine
    {
      Linked(ids, spine)
    }

    ghost function State(): Client
      reads this
    {
      Client(max, Values(spine), lastid, actionSources, infected, errors, reports)
    }

    constructor (max: nat)
      ensures Valid() && State() == Start(max) && spine == []
    {
      this.max := max;
      ids, spine := null, [];
      lastid, actionSources, infected, errors, reports := 0, 0, 0, 0, [];
    }

    /** The part of `parallel_callback` after the request went out */
    method Remember(file: Bytes, source: bool)
      requires Valid()
      modifies this
      ensures Valid() && State() == Send(old(State()), file, source)
      ensures |spine| == old(|spine|) + 1 && fresh(spine[0]) && spine[1..] == old(spine)
    {
      lastid := lastid + 1;
      var cid := new ScanId(lastid, file, source, ids);
      ids := cid;
      hide Nth, Values, Distinct;
      ghost var was := spine;
      spine := [cid] + spine;
      ConsParts(cid, was);
      forall i | 0 <= i < |spine| ensures spine[i].next == Nth(spine, i + 1) {
        ConsAt(cid, was, i);
        if i > 0 {
          assert was[i - 1].next == Nth(was, i);
        }
      }
      if source {
        actionSources := actionSources + 1;
      }
    }

    /** Whether `prev` holds the link to position `p`: the head of the list when it is null. */
    ghost predicate LinkTo(prev: ScanId?, p: nat)
      reads this
    {
      p <= |spine| && (if p == 0 then prev == null else prev == spine[p - 1])
    }

    /** The search in `dspresult` */
    method FindLink(rid: nat) returns (found: bool, prev: ScanId?, ghost p: nat)
      requires Valid()
      ensures found <==> Find(Values(spine), rid) < |spine|
      ensures found ==> p == Find(Values(spine), rid) && LinkTo(prev, p)
    {
      ghost var values := Values(spine);
      prev, p := null, 0;
      var at := ids;
      while at != null
        invariant p <= |spine| && at == Nth(spine, p) && LinkTo(prev, p)
        invariant forall i :: 0 <= i < p ==> values[i].id != rid
        decreases |spine| - p
      {
        if at.id == rid {
          FoundAt(values, rid, p);
          return true, prev, p;
        }
        prev, at := at, at.next;
        p := p + 1;
      }
      NotFound(values, rid);
      return false, null, p;
    }

    method UnlinkFirst(node: ScanId)
      requires Valid() && spine != [] && node == spine[0]
      modifies this`ids, this`spine
      ensures Valid() && spine == Cut(old(spine), 0)
    {
      CutParts(spine, 0);
      ids := node.next;
      ghost var was := spine;
      spine := Cut(spine, 0);
      assert forall i :: 0 <= i < |spine| ==> spine[i] == was[i + 1];
    }

    method UnlinkAfter(prev: ScanId, node: ScanId, ghost p: nat)
      requires Valid() && 0 < p < |spine| && prev == spine[p - 1] && node == spine[p]
      modifies this`spine, prev`next
      ensures Valid() && spine == Cut(old(spine), p)
    {
      hide Distinct, Nth;
      CutParts(spine, p);
      ghost var was := spine;
      assert node.next == Nth(was, p + 1);
      assert ids == Nth(Cut(was, p), 0) by {
        FirstOfCut(was, p);
      }
      prev.next := node.next;
      spine := Cut(spine, p);
      forall i | 0 <= i < |spine| ensures spine[i].next == Nth(spine, i + 1) {
        CutAt(was, p, i);
        var j := if i < p then i else i + 1;
        if i + 1 != p {
          Different(was, j, p - 1);
          assert was[j].next == old(was[j].next) == Nth(was, j + 1);
        }
      }
    }

    /** Unlinks the node behind the link. */
    method Unlink(prev: ScanId?, node: ScanId, ghost p: nat)
      requires Valid() && p < |spine| && LinkTo(prev, p) && node == spine[p]
      modifies this`ids, this`spine, spine
      ensures Valid() && spine == Cut(old(spine), p) && LinkTo(prev, p)
      ensures Values(spine) == Without(old(Values(spine)), p)
    {
      hide Distinct, Values;
      CutParts(spine, p);
      if prev == null {
        UnlinkFirst(node);
      } else {
        UnlinkAfter(prev, node, p);
      }
    }

    /** Which link a reply is about */
    method Locate(line: Bytes, have: bool, prev: ScanId?, ghost stale: Option<nat>)
      returns (found: bool, link: ScanId?, ghost slot: nat)
      requires Valid() && (have <==> stale.Some?) && (have ==> LinkTo(prev, stale.value))
      ensures Slot(Values(spine), stale, line) == if found then Some(slot) else None
      ensures found ==> LinkTo(link, slot)
    {
      hide Linked, NumberOf, Find;
      found, link, slot := have, prev, if have then stale.value else 0;
      var rid := NumberOf(line);
      if rid != 0 {
        found, link, slot := FindLink(rid);
      }
    }

    method SettleAt(link: ScanId?, node: ScanId, ghost slot: nat, v: Verdict)
      requires Valid() && slot < |spine| && LinkTo(link, slot) && node == spine[slot]
      modifies this, spine
      ensures Valid() && State() == Settle(old(State()), slot, v) && LinkTo(link, slot)
      ensures forall i :: 0 <= i < |spine| ==> spine[i] in old(spine)
    {
      hide Linked, Without;
      Settling(node, v);
      Unlink(link, node, slot);
    }

    /** One turn of the loop in `dspresult`; `have` and `prev` are the link that the last reply left */
    method OnReply(line: Bytes, have: bool, prev: ScanId?, ghost stale: Option<nat>)
      returns (outcome: Outcome, link: ScanId?, ghost slot: nat)
      requires Valid() && (have <==> stale.Some?) && (have ==> LinkTo(prev, stale.value))
      modifies this, spine
      ensures match Reply(old(State()), stale, line)
              case Settled(c, p) => outcome == Done && Valid() && State() == c && slot == p && LinkTo(link, p)
              case Refused => outcome == Refuse && Valid() && State() == old(State())
              case Crash => outcome == NullDereference && Valid() && State() == old(State())
      ensures forall i :: 0 <= i < |spine| ==> spine[i] in old(spine)
    {
      hide Linked, VerdictOf, Slot, Settle;
      var found;
      found, link, slot := Locate(line, have, prev, stale);
      if !found {
        return Refuse, null, 0;
      }
      LinkTarget(this, link, slot);
      var node := if link == null then ids else link.next;
      if node == null {
        return NullDereference, null, 0;
      }
      var v := VerdictOf(line);
      if v == Unparsable {
        return Refuse, null, 0;
      }
      SettleAt(link, node, slot, v);
      outcome := Done;
    }

    /** Counts and prints the result for this node. */
    method Settling(node: ScanId, v: Verdict)
      modifies this`infected, this`errors, this`reports, this`actionSources
      ensures infected == old(infected) + (if v == Found then 1 else 0) &&
              errors == old(errors) + (if v == Error then 1 else 0)
      ensures reports == old(reports) + (if v == Found || v == Error then [Report(node.file, v == Found)] else [])
      ensures actionSources ==
              if node.source && old(actionSources) > 0 then old(actionSources) - 1 else old(actionSources)
    {
      if v == Found {
        infected := infected + 1;
        reports := reports + [Report(node.file, true)];
      } else if v == Error {
        errors := errors + 1;
        reports := reports + [Report(node.file, false)];
      }
      if node.source && actionSources > 0 {
        actionSources := actionSources - 1;
      }
    }

    /** One turn of the loop in `dspresult`: a line, and the request it settles */
    method OneLine(rcv: LineReader, have: bool, prev: ScanId?, ghost stale: Option<nat>)
      returns (res: Result, line: Bytes, link: ScanId?, ghost slot: nat)
      requires Valid() && rcv.Idle() && (have <==> stale.Some?) && (have ==> LinkTo(prev, stale.value))
      modifies this, spine, rcv, rcv.buf
      ensures Valid() && forall i :: 0 <= i < |spine| ==> spine[i] in old(spine)
      ensures res == Success ==>
                && Reply(old(State()), stale, line) == Settled(State(), slot) && LinkTo(link, slot)
                && rcv.Idle() && line != [] && old(rcv.Rest()) == line + rcv.Rest()
      ensures res != Success ==> State() == old(State())
      ensures res == Success ==> Broken(rcv.net) == old(Broken(rcv.net))
      ensures res == ConnectionClosed ==> old(rcv.Rest()) == [] && old(!Broken(rcv.net))
      ensures res != Success && res != ConnectionClosed ==>
                StopsAt(Progress(old(State()), stale), old(rcv.Rest()), old(Broken(rcv.net)), rcv.size, res)
    {
      hide Reply, Linked, NextLine, Stream, Broken, GoodNet;
      ghost var rest := rcv.Rest();
      LineOf(rest, Broken(rcv.net), rcv.size);
      line, link, slot := [], null, 0;
      var got := rcv.Recvln();
      if got == Closed {
        return ConnectionClosed, [], null, 0;
      }
      if !got.Line? {
        return HardFailure, [], null, 0;
      }
      line := got.line;
      assert rest == line + rest[|line|..];
      var outcome;
      outcome, link, slot := OnReply(line, have, prev, stale);
      res := match outcome case Done => Success case Refuse => HardFailure case NullDereference => Crashed;
    }

    /** `dspresult`: at least one reply, and all that came with it. */
    method DspResult(size: nat, net: seq<Arrival>) returns (res: Result, left: seq<Arrival>, ghost lines: seq<Bytes>)
      requires Valid() && size > 0 && GoodNet(net)
      modifies this, spine
      ensures Valid() && forall i :: 0 <= i < |spine| ==> spine[i] in old(spine)
      ensures Batch(old(State()), None, lines).Some? && State() == Batch(old(State()), None, lines).value.c
      ensures res == Success ==>
                lines != [] && GoodNet(left) && Stream(net) == Flatten(lines) + Stream(left) &&
                |Stream(left)| < |Stream(net)|
      ensures res == ConnectionClosed ==> lines == [] && Stream(net) == [] && !Broken(net)
      ensures res != Success && res != ConnectionClosed ==>
                Flatten(lines) <= Stream(net) &&
                StopsAt(Batch(old(State()), None, lines).value, Stream(net)[|Flatten(lines)|..], Broken(net), size, res)
    {
      hide Reply, Batch, Linked, Stream, Broken, Flatten, LineReader.Rest, StopsAt;
      ghost var start := State();
      var rcv := new LineReader(size, net);
      var have, prev := false, null;
      ghost var stale: Option<nat> := None;
      lines, left := [], net;
      BatchNothing(start, rcv.Rest());
      while true
        invariant Broken(rcv.net) == Broken(net) && rcv.size == size
        invariant Valid() && rcv.Idle() && fresh(rcv) && fresh(rcv.buf)
        invariant forall i :: 0 <= i < |spine| ==> spine[i] in old(spine)
        invariant (have <==> stale.Some?) && (have ==> LinkTo(prev, stale.value))
        invariant Batch(start, None, lines) == Some(Progress(State(), stale))
        invariant Stream(net) == Flatten(lines) + rcv.Rest()
        invariant if lines == [] then rcv.Rest() == Stream(net) else 0 < |rcv.Rest()| < |Stream(net)|
        decreases |rcv.Rest()|
      {
        ghost var rest, slot := rcv.Rest(), 0;
        var line;
        res, line, prev, slot := OneLine(rcv, have, prev, stale);
        if res != Success {
          assert Stream(net)[|Flatten(lines)|..] == rest;
          return res, [], lines;
        }
        BatchSnoc(start, None, lines, line);
        Append(lines, line, rcv.Rest());
        have, stale, lines := true, Some(slot), lines + [line];
        NothingHeld(rcv);
        if rcv.cur == 0 {
          return Success, rcv.net, lines;
        }
      }
    }

    /** One `dspresult` as part of a run */
    method TakeReplies(size: nat, net: seq<Arrival>, ghost start: Client, ghost acts: seq<Act>)
      returns (ok: bool, left: seq<Arrival>, ghost now: seq<Act>)
      requires Valid() && size > 0 && GoodNet(net) && Run(start, acts) == Some(State())
      modifies this, spine
      ensures Valid() && forall i :: 0 <= i < |spine| ==> spine[i] in old(spine)
      ensures Run(start, now) == Some(State()) && actionSources <= old(actionSources)
      ensures ok ==> GoodNet(left) && |Stream(left)| < |Stream(net)|
    {
      hide Batch, Linked, Stream, Run;
      var res;
      ghost var lines;
      res, left, lines := DspResult(size, net);
      RunSnoc(start, acts, Replied(lines));
      RunReplied(old(State()), lines);
      now := acts + [Replied(lines)];
      ok := res == Success;
      BatchFrees(old(State()), None, lines);
    }

    /**
     `parallel_callback` for a file: waits for a free action source, takes the replies that are there each
     time the socket is readable, sends the request and remembers it. What it did is a run of the model.
     */
    method ScanFile(file: Bytes, source: bool, size: nat, net: seq<Arrival>, polls: nat)
      returns (ok: bool, left: seq<Arrival>, ghost acts: seq<Act>)
      requires Valid() && size > 0 && GoodNet(net)
      modifies this, spine
      ensures Valid() && Run(old(State()), acts) == Some(State())
      ensures ok ==> acts != [] && acts[|acts| - 1] == Sent(file, source)
    {
      hide Batch, Linked, Stream, Run;
      ghost var start := State();
      acts, left, ok := [], net, true;
      RunNothing(start);
      while source && actionSources >= max
        invariant Valid() && GoodNet(left) && Run(start, acts) == Some(State())
        invariant forall i :: 0 <= i < |spine| ==> spine[i] in old(spine)
        decreases |Stream(left)|
      {
        ok, left, acts := TakeReplies(size, left, start, acts);
        if !ok {
          return;
        }
      }
      var k := 0;
      while k < polls
        invariant Valid() && GoodNet(left) && Run(start, acts) == Some(State()) && (source ==> actionSources < max)
        invariant forall i :: 0 <= i < |spine| ==> spine[i] in old(spine)
      {
        ok, left, acts := TakeReplies(size, left, start, acts);
        if !ok {
          return;
        }
        k := k + 1;
      }
      RunSnoc(start, acts, Sent(file, source));
      RunSent(State(), file, source);
      Remember(file, source);
      acts := acts + [Sent(file, source)];
    }
  }

  lemma RunNothing(c: Client)
    ensures Run(c, []) == Some(c)
  {
  }

  lemma RunReplied(c: Client, lines: seq<Bytes>)
    requires Batch(c, None, lines).Some?
    ensures Run(c, [Replied(lines)]) == Some(Batch(c, None, lines).value.c)
  {
    hide Batch;
    assert [Replied(lines)][1..] == [];
  }

  lemma RunSent(c: Client, file: Bytes, source: bool)
    requires source ==> c.sources < c.max
    ensures Run(c, [Sent(file, source)]) == Some(Send(c, file, source))
  {
    hide Send;
    assert [Sent(file, source)][1..] == [];
  }

  lemma NothingHeld(rcv: LineReader)
    requires rcv.Idle()
    ensures if rcv.cur == 0 then rcv.Rest() == Stream(rcv.net) else rcv.Rest() != []
  {
  }

  /** Why it stopped: no line came, or the line was refused or led to a null link. */
  ghost predicate StopsAt(b: Progress, rest: Bytes, broken: bool, size: nat, res: Result) {
    var l := NextLine(rest, broken, size);
    if l.Line? then Reply(b.c, b.slot, l.line) == (if res == Crashed then Crash else Refused)
    else res == HardFailure && l != Closed
  }

  datatype Result = Success | HardFailure | ConnectionClosed | Crashed

  lemma BatchNothing(c: Client, rest: Bytes)
    ensures Batch(c, None, []) == Some(Progress(c, None)) && Flatten([]) + rest == rest
  {
  }

  lemma LineOf(all: Bytes, broken: bool, size: nat)
    ensures var l := NextLine(all, broken, size);
            && (l.Line? ==> 0 < |l.line| <= |all| && l.line == all[..|l.line|])
            && (l == Closed ==> all == [] && !broken)
  {
  }

  lemma Append(lines: seq<Bytes>, line: Bytes, rest: Bytes)
    ensures Flatten(lines) + (line + rest) == Flatten(lines + [line]) + rest
  {
    FlattenConcat(lines, [line]);
    assert [line][1..] == [] && Flatten([line]) == line;
  }

  datatype Outcome = Done | Refuse | NullDereference

  lemma LinkTarget(c: ParallelClient, link: ScanId?, p: nat)
    requires c.Valid() && c.LinkTo(link, p)
    ensures (if link == null then c.ids else link.next) == Nth(c.spine, p)
  {
    assert p > 0 ==> c.spine[p - 1].next == Nth(c.spine, p);
  }

  lemma FoundAt(entries: seq<Pending>, id: nat, p: nat)
    requires p < |entries| && entries[p].id == id && forall i :: 0 <= i < p ==> entries[i].id != id
    ensures Find(entries, id) == p
  {
  }

  lemma NotFound(entries: seq<Pending>, id: nat)
    requires forall i :: 0 <= i < |entries| ==> entries[i].id != id
    ensures Find(entries, id) == |entries|
  {
  }
}

/** Client and server count the requests of a session separately, and agree. */
module SessionCorrelation {
  import opened Options
  import opened Commands
  import opened SessionModel
  import opened Fragments
  import opened Requests
  import ScanIdModel

  /** The server's record of the request with number `k`: the content of the stream, or the passed descriptor. */
  function ScanOf(r: Request, k: nat): Event {
    match r
    case Descriptor(_) => Executed(Fildes, None, k, true)
    case Stream(chunks) => StreamScan(Flatten(chunks), k, true)
  }

  lemma {:induction false} ScanIsLogged(cfg: Config, rs: seq<Request>, k: nat, i: nat)
    requires (forall j :: 0 <= j < |rs| ==> Served(cfg, rs[j])) && i < |rs|
    ensures ScanOf(rs[i], k + i) in SessionEvents(cfg, rs, k)
    decreases |rs|
  {
    if i == 0 {
      assert ScanOf(rs[0], k) in RequestEvents(rs[0], k);
    } else {
      ScanIsLogged(cfg, rs[1..], k + 1, i - 1);
      assert rs[1..][i - 1] == rs[i];
    }
  }

  /** Request `k` on the wire carries the content of the `k`-th file that the client sent, or its descriptor. */
  predicate Carries(rs: seq<Request>, sent: seq<ScanIdModel.Request>, content: Bytes -> Bytes) {
    |rs| == |sent| &&
    forall k :: 0 <= k < |rs| && rs[k].Stream? ==> Flatten(rs[k].chunks) == content(sent[k].file)
  }

  /**
   For every split of the bytes and every order of replies: what is outstanding at the client under a number
   is a file that the server has scanned under that number, with its content.
   */
  lemma SameNumbers(cfg: Config, rs: seq<Request>, packets: seq<Bytes>,
                    max: nat, acts: seq<ScanIdModel.Act>, content: Bytes -> Bytes, i: nat)
    requires cfg.table == TABLE && cfg.bufSize >= 11 && GoodRequests(rs)
    requires Flatten(packets) == EncodeSession(rs) && AllLegal(cfg, NEW_CONN, packets)
    requires forall k :: 0 <= k < |rs| ==> Served(cfg, rs[k])
    requires ScanIdModel.Run(ScanIdModel.Start(max), acts).Some? && Carries(rs, ScanIdModel.AllSent(acts), content)
    requires i < |ScanIdModel.Run(ScanIdModel.Start(max), acts).value.entries|
    ensures var server := Turns(cfg, NEW_CONN, packets).log;
            var client := ScanIdModel.Run(ScanIdModel.Start(max), acts).value;
            var e := client.entries[i];
            && client.lastid == |ScanIds(server)| == |rs|
            && (forall k :: 0 <= k < |rs| ==> ScanIds(server)[k] == k + 1)
            && 1 <= e.id <= |rs|
            && (rs[e.id - 1].Stream? ==> StreamScan(content(e.file), e.id, true) in server)
            && (rs[e.id - 1].Descriptor? ==> Executed(Fildes, None, e.id, true) in server)
  {
    hide ScanIdModel.Run, ScanIdModel.AllSent, AllLegal, Turns, EncodeSession, SessionEvents;
    SessionRoundTrip(cfg, rs, packets);
    var opening := [Executed(IdSession, None, 0, false)];
    ScanIdsConcat(opening, SessionEvents(cfg, rs, 1));
    assert opening[1..] == [] && ScanIds(opening) == [];
    RequestsAreNumbered(cfg, rs, 1);
    ScanIdModel.EveryRun(max, acts);
    var e := ScanIdModel.Run(ScanIdModel.Start(max), acts).value.entries[i];
    ScanIsLogged(cfg, rs, 1, e.id - 1);
  }
}
