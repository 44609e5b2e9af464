/**
 `recvln`: lines ended by NUL out of a socket, through a fixed buffer whose unread part slides to the
 front when a line is incomplete. It refines splitting the byte stream at its NULs.
 */
module RecvLine {
  import opened Options
  import opened Commands
  import opened Wire
  import opened Fragments

  /**
   What `recv` will do: data in pieces, interruptions, a failure. The end of the sequence is the end of the
   stream.
   */
  datatype Arrival = Data(data: Bytes) | Interrupted | Failure

  /** The bytes that can still be received ... */
  function Stream(net: seq<Arrival>): Bytes {
    if net == [] || net[0].Failure? then []
    else (if net[0].Data? then net[0].data else []) + Stream(net[1..])
  }

  /** ... and whether a failure comes after them rather than the end of the stream. */
  function Broken(net: seq<Arrival>): bool {
    net != [] && (net[0].Failure? || Broken(net[1..]))
  }

  function Weight(net: seq<Arrival>): nat {
    if net == [] then 0 else 1 + (if net[0].Data? then |net[0].data| else 0) + Weight(net[1..])
  }

  /** `recv` never reports data of no length. */
  predicate GoodNet(net: seq<Arrival>) {
    forall i :: 0 <= i < |net| && net[i].Data? ==> net[i].data != []
  }

  datatype LineResult =
    | Line(line: Bytes)      // NUL included
    | Closed
    | LostConnection
    | Overlong

  /** The next line of a stream: the specification of `recvln`. */
  function NextLine(all: Bytes, broken: bool, size: nat): LineResult {
    var k := FirstNul(all);
    if k < |all| && k < size then Line(all[..k + 1])
    else if |all| >= size then Overlong
    else if all == [] && !broken then Closed
    else LostConnection
  }

  /** All the lines up to the one that fails. */
  function Lines(all: Bytes, size: nat): seq<Bytes>
    decreases |all|
  {
    var l := NextLine(all, false, size);
    if l.Line? then [l.line] + Lines(all[|l.line|..], size) else []
  }

  predicate IsPiece(piece: Bytes, size: nat) {
    0 < |piece| <= size && FirstNul(piece) == |piece| - 1
  }

  /**
   `all` cut at its NULs: each piece ends with its only NUL and fits the buffer, and what remains starts no
   such piece.
   */
  ghost predicate IsSplit(pieces: seq<Bytes>, tail: Bytes, all: Bytes, size: nat) {
    && Flatten(pieces) + tail == all
    && (forall i :: 0 <= i < |pieces| ==> IsPiece(pieces[i], size))
    && (FirstNul(tail) == |tail| || FirstNul(tail) >= size)
  }

  lemma LineShape(all: Bytes, size: nat)
    ensures var l := NextLine(all, false, size);
            if l.Line? then IsPiece(l.line, size)
            else FirstNul(all) == |all| || FirstNul(all) >= size
  {
    var k := FirstNul(all);
    if k < |all| {
      var line := all[..k + 1];
      assert line[k] == '\0' && forall i :: 0 <= i < k ==> line[i] != '\0';
    }
  }

  lemma ConsSplit(line: Bytes, more: seq<Bytes>, tail: Bytes, rest: Bytes, size: nat)
    requires IsSplit(more, tail, rest, size) && IsPiece(line, size)
    ensures IsSplit([line] + more, tail, line + rest, size)
  {
    hide FirstNul, IsPiece;
    var pieces := [line] + more;
    assert pieces[1..] == more && Flatten(pieces) == line + Flatten(more);
    assert line + Flatten(more) + tail == line + (Flatten(more) + tail);
  }

  lemma {:induction false} LinesSplit(all: Bytes, size: nat) returns (tail: Bytes)
    ensures IsSplit(Lines(all, size), tail, all, size)
    decreases |all|
  {
    hide NextLine, IsSplit;
    var l := NextLine(all, false, size);
    LineShape(all, size);
    LineFacts(all, false, size);
    if l.Line? {
      var rest := all[|l.line|..];
      tail := LinesSplit(rest, size);
      ConsSplit(l.line, Lines(rest, size), tail, rest, size);
      assert all == l.line + rest;
    } else {
      tail := all;
      EmptySplit(all, size);
    }
  }

  lemma EmptySplit(all: Bytes, size: nat)
    requires FirstNul(all) == |all| || FirstNul(all) >= size
    ensures IsSplit([], all, all, size)
  {
    assert [] + all == all;
  }

  /** There is only one way to cut a stream like that. */
  lemma {:induction false} SplitUnique(pieces: seq<Bytes>, tail: Bytes, all: Bytes, size: nat)
    requires IsSplit(pieces, tail, all, size)
    ensures pieces == Lines(all, size)
    decreases |pieces|
  {
    if pieces == [] {
      assert all == tail;
    } else {
      var first, more := pieces[0], pieces[1..];
      var rest := Flatten(more) + tail;
      assert all == first + rest;
      FirstNulAppend(first, rest);
      assert all[..|first|] == first && all[|first|..] == rest;
      SplitUnique(more, tail, rest, size);
      assert pieces == [first] + more;
    }
  }

  class LineReader {
    const size: nat
    const buf: array<char>
    var bol: nat
    var cur: nat
    var r: nat
    var net: seq<Arrival>

    ghost predicate Valid()
      reads this
    {
      buf.Length == size && size > 0 && bol <= cur && cur + r <= size && GoodNet(net)
    }

    /** Between calls: what is left over from the last `recv` starts a line. */
    ghost predicate Idle()
      reads this
    {
      Valid() && bol == cur && (r == 0 <==> cur == 0)
    }

    /** The bytes of the current line and after that were received. */
    ghost function Held(): (held: Bytes)
      reads this, buf
      requires Valid()
      ensures |held| == cur + r - bol
    {
      buf[bol..cur + r]
    }

    /** ... or will be. */
    ghost function Rest(): Bytes
      reads this, buf
      requires Valid()
    {
      Held() + Stream(net)
    }

    /** `recvlninit` */
    constructor (size: nat, net: seq<Arrival>)
      requires size > 0 && GoodNet(net)
      ensures Idle() && Rest() == Stream(net) && this.net == net && this.size == size && fresh(buf)
    {
      this.size := size;
      buf := new char[size];
      bol, cur, r := 0, 0, 0;
      this.net := net;
      new;
      assert buf[0..0] == [];
    }

    /** The data goes to the buffer behind what is there. */
    method Fill(d: Bytes)
      requires buf.Length == size && cur + |d| <= size
      modifies buf
      ensures buf[..cur] == old(buf[..cur]) && buf[cur..cur + |d|] == d
    {
      forall i | 0 <= i < |d| {
        buf[cur + i] := d[i];
      }
    }

    method SkipInterrupts()
      requires GoodNet(net)
      modifies this`net
      ensures GoodNet(net) && (net == [] || !net[0].Interrupted?)
      ensures Stream(net) == old(Stream(net)) && Broken(net) == old(Broken(net)) && Weight(net) <= old(Weight(net))
    {
      while net != [] && net[0].Interrupted?
        invariant GoodNet(net) && Stream(net) == old(Stream(net)) && Broken(net) == old(Broken(net)) &&
                  Weight(net) <= old(Weight(net))
        decreases |net|
      {
        assert Stream(net) == [] + Stream(net[1..]);
        net := net[1..];
      }
    }

    /** One `recv` that is not interrupted */
    method Receive() returns (n: nat, failed: bool)
      requires Valid() && r == 0 && cur < size
      modifies this`net, buf
      ensures GoodNet(net) && cur + n <= size && Weight(net) <= old(Weight(net))
      ensures buf[..cur] == old(buf[..cur])
      ensures n > 0 ==> !failed && Weight(net) < old(Weight(net))
      ensures buf[cur..cur + n] + Stream(net) == old(Stream(net)) && Broken(net) == old(Broken(net))
      ensures n == 0 ==> Stream(net) == [] && failed == Broken(net)
    {
      SkipInterrupts();
      n, failed := 0, false;
      if net == [] {
      } else if net[0].Failure? {
        failed := true;
      } else {
        ghost var was := net;
        var d, space := net[0].data, size - cur;
        if |d| <= space {
          n, net := |d|, net[1..];
        } else {
          n := space;
          d := d[..space];
          net := [Data(net[0].data[space..])] + net[1..];
          assert net[1..] == was[1..];
          assert was[0].data == d + net[0].data;
        }
        Fill(d);
      }
      assert buf[cur..cur] == [];
    }

    /** What was received of the line before the last `recv` holds no NUL. */
    ghost predicate Scanned()
      reads this, buf
      requires Valid()
    {
      FirstNul(buf[bol..cur]) == cur - bol
    }

    /** `memchr` for the NUL, in what was received last */
    method FindNul() returns (eol: Option<nat>)
      requires Valid() && Scanned()
      ensures eol == if FirstNul(Held()) < |Held()| then Some(bol + FirstNul(Held())) else None
      ensures eol.Some? ==> cur <= eol.value < cur + r
    {
      ghost var held := buf[bol..cur + r];
      assert forall j :: 0 <= j < cur - bol ==> held[j] == buf[bol..cur][j];
      var i := cur;
      while i < cur + r
        invariant cur <= i <= cur + r && forall j :: 0 <= j < i - bol ==> held[j] != '\0'
      {
        if buf[i] == '\0' {
          assert held[i - bol] == '\0';
          return Some(i);
        }
        assert held[i - bol] != '\0';
        i := i + 1;
      }
      return None;
    }

    /** Moves the incomplete line to the front. */
    method Slide()
      requires Valid() && FirstNul(Held()) == |Held()|
      modifies this`bol, this`cur, this`r, buf
      ensures Valid() && bol == 0 && r == 0 && cur == |Held()| && Held() == old(Held()) && Scanned()
    {
      ghost var held := buf[bol..cur + r];
      r := r + (cur - bol);
      if bol != 0 {
        forall i | 0 <= i < r {
          buf[i] := buf[bol + i];
        }
        bol := 0;
      }
      cur := r;
      r := 0;
      assert buf[bol..cur] == held;
    }

    /** The line ends with the NUL at `eol`; what was received behind it stays. */
    method TakeLine(eol: nat) returns (res: LineResult)
      requires Valid() && cur <= eol < cur + r
      modifies this`bol, this`cur, this`r
      ensures Idle()
      ensures var held, k := old(Held()), eol - old(bol);
              res == Line(held[..k + 1]) && Held() == held[k + 1..]
    {
      ghost var held, k := buf[bol..cur + r], eol - bol;
      var end := eol + 1;
      res := Line(buf[bol..end]);
      assert buf[bol..end] == held[..k + 1];
      r := cur + r - end;
      bol := if r > 0 then end else 0;
      cur := bol;
      assert buf[bol..cur + r] == held[k + 1..];
    }

    /** Receives more of an incomplete line. */
    method More() returns (failed: bool)
      requires Valid() && bol == 0 && r == 0 && cur < size && Scanned()
      modifies this`r, this`net, buf
      ensures Valid() && Scanned() && Rest() == old(Rest()) && Broken(net) == old(Broken(net))
      ensures r > 0 ==> Weight(net) < old(Weight(net))
      ensures r == 0 ==> Rest() == buf[..cur] && failed == Broken(net)
    {
      hide Stream, Broken, Weight, GoodNet;
      ghost var before := buf[..cur];
      r, failed := Receive();
      assert buf[bol..cur] == before;
      assert buf[bol..cur + r] == before + buf[cur..cur + r];
      assert before + buf[cur..cur + r] + Stream(net) == before + (buf[cur..cur + r] + Stream(net));
    }

    /** Ends the line in what was received, or finds it overlong, or makes room for more. */
    method Search() returns (res: Option<LineResult>)
      requires Valid() && r > 0 && (bol == cur || bol == 0) && Scanned()
      modifies this`bol, this`cur, this`r, buf
      ensures res.Some? ==> res.value == NextLine(old(Rest()), Broken(net), size)
      ensures res.Some? && res.value.Line? ==> Idle() && Rest() == old(Rest())[|res.value.line|..]
      ensures res.None? ==> Valid() && bol == 0 && r == 0 && cur < size && Scanned() && Rest() == old(Rest())
    {
      hide NextLine, Stream, Broken, GoodNet, FirstNul, Held, Scanned;
      ghost var held := Held();
      var eol := FindNul();
      if eol.Some? {
        LineFound(held, Stream(net), Broken(net), size);
        var line := TakeLine(eol.value);
        return Some(line);
      }
      if r + (cur - bol) == size {
        NoLineInFull(held, Stream(net), Broken(net), size);
        return Some(Overlong);
      }
      Slide();
      return None;
    }

    /** `recvln` */
    method Recvln() returns (res: LineResult)
      requires Idle()
      modifies this, buf
      ensures res == NextLine(old(Rest()), old(Broken(net)), size)
      ensures res.Line? ==> Idle() && Rest() == old(Rest())[|res.line|..] && Broken(net) == old(Broken(net))
    {
      hide NextLine, Stream, Broken, Weight, GoodNet, Rest, FirstNul;
      ghost var all, broken := Rest(), Broken(net);
      while true
        invariant Valid() && (bol == cur || bol == 0) && (r == 0 ==> bol == 0 && cur < size) && Scanned()
        invariant Rest() == all && Broken(net) == broken
        decreases Weight(net), r
      {
        if r == 0 {
          var failed := More();
          if r == 0 {
            NoLine(all, broken, size);
            if failed || cur != 0 {
              return LostConnection;
            }
            return Closed;
          }
        }
        var found := Search();
        if found.Some? {
          return found.value;
        }
      }
    }

    /** Lines until there are no more, as `dsresult` reads them */
    method ReadLines() returns (lines: seq<Bytes>, last: LineResult)
      requires Idle()
      modifies this, buf
      ensures lines == Lines(old(Rest()), size) && !last.Line?
      ensures last == Closed <==> Flatten(lines) == old(Rest()) && !old(Broken(net))
    {
      hide NextLine, Stream, Broken, Weight, GoodNet, Rest, FirstNul, Held, Lines, Flatten;
      ghost var all, broken := Rest(), Broken(net);
      lines := [];
      assert [] + Lines(all, size) == Lines(all, size);
      StartLines(all);
      while true
        invariant Idle() && Broken(net) == broken
        invariant lines + Lines(Rest(), size) == Lines(all, size) && Flatten(lines) + Rest() == all
        decreases |Rest()|
      {
        ghost var rest := Rest();
        LineFacts(rest, broken, size);
        last := Recvln();
        if !last.Line? {
          assert lines + [] == lines;
          assert rest == [] ==> Flatten(lines) + rest == Flatten(lines);
          return;
        }
        LinesNext(lines, last.line, rest, size);
        lines := lines + [last.line];
      }
    }
  }

  lemma StartLines(all: Bytes)
    ensures Flatten([]) + all == all
  {
  }

  lemma LineFacts(all: Bytes, broken: bool, size: nat)
    ensures var l := NextLine(all, broken, size);
            && (l.Line? ==>
                  0 < |l.line| <= |all| && l.line == all[..|l.line|] &&
                  Lines(all, size) == [l.line] + Lines(all[|l.line|..], size))
            && (!l.Line? ==> Lines(all, size) == [])
            && (l == Closed <==> all == [] && !broken && size > 0)
  {
  }

  lemma LinesNext(lines: seq<Bytes>, line: Bytes, rest: Bytes, size: nat)
    requires |line| <= |rest| && line == rest[..|line|] && Lines(rest, size) == [line] + Lines(rest[|line|..], size)
    ensures lines + [line] + Lines(rest[|line|..], size) == lines + Lines(rest, size)
    ensures Flatten(lines + [line]) + rest[|line|..] == Flatten(lines) + rest
  {
    hide Lines;
    FlattenConcat(lines, [line]);
    assert [line][1..] == [] && Flatten([line]) == line;
    assert rest == line + rest[|line|..];
  }

  lemma NoLine(all: Bytes, broken: bool, size: nat)
    requires FirstNul(all) == |all| < size
    ensures NextLine(all, broken, size) == if all == [] && !broken then Closed else LostConnection
  {
  }

  lemma LineFound(held: Bytes, later: Bytes, broken: bool, size: nat)
    requires FirstNul(held) < |held| <= size
    ensures var all, k := held + later, FirstNul(held);
            NextLine(all, broken, size) == Line(held[..k + 1]) && all[k + 1..] == held[k + 1..] + later
  {
    hide FirstNul;
    FirstNulAppend(held, later);
    var all, k := held + later, FirstNul(held);
    assert all[..k + 1] == held[..k + 1];
    assert all[k + 1..] == held[k + 1..] + later;
  }

  lemma NoLineInFull(held: Bytes, later: Bytes, broken: bool, size: nat)
    requires FirstNul(held) == |held| == size
    ensures NextLine(held + later, broken, size) == Overlong
  {
    FirstNulAppend(held, later);
  }
}
