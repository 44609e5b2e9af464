/**
 Whether the way a client's bytes are split into packets matters. It does not as long as the
 connection stays open. After a command that closes the connection, the loop in
 `parse_dispatch_cmd` goes on with what is left of the same packet, so a further command is
 executed or not depending on the split. This module says exactly when.
 */
module Fragments {
  import opened Commands
  import opened Wire
  import opened SessionModel

  function Flatten(packets: seq<Bytes>): Bytes {
    if packets == [] then [] else packets[0] + Flatten(packets[1..])
  }

  /** The steps up to the one that closes the connection: what a split at every byte would do. */
  function Serve(cfg: Config, s: Conn): Conn
    decreases Rank(s)
  {
    if s.open && CanStep(cfg, s) then Serve(cfg, Step(cfg, s)) else s
  }

  /** The last state in which the connection is open. */
  function LastOpen(cfg: Config, s: Conn): Conn
    decreases Rank(s)
  {
    if CanStep(cfg, s) && Step(cfg, s).open then LastOpen(cfg, Step(cfg, s)) else s
  }

  lemma {:induction false} ServeViaLastOpen(cfg: Config, s: Conn)
    requires s.open
    ensures var l := LastOpen(cfg, s);
            l.open && (CanStep(cfg, l) ==> !Step(cfg, l).open) &&
            Serve(cfg, s) == if CanStep(cfg, l) then Step(cfg, l) else l
    decreases Rank(s)
  {
    if CanStep(cfg, s) && Step(cfg, s).open {
      ServeViaLastOpen(cfg, Step(cfg, s));
    }
  }

  lemma {:induction false} ServeAppend(cfg: Config, s: Conn, q: Bytes)
    ensures Serve(cfg, s).open ==> Serve(cfg, Plus(s, q)) == Serve(cfg, Plus(Serve(cfg, s), q))
    ensures !Serve(cfg, s).open ==> Serve(cfg, Plus(s, q)) == Plus(Serve(cfg, s), q)
    decreases Rank(s)
  {
    if s.open && CanStep(cfg, s) {
      StepAppend(cfg, s, q);
      ServeAppend(cfg, Step(cfg, s), q);
    }
  }

  lemma {:induction false} LastOpenAppend(cfg: Config, s: Conn, q: Bytes)
    requires s.open
    ensures var l := LastOpen(cfg, s);
            LastOpen(cfg, Plus(s, q)) == if CanStep(cfg, l) then Plus(l, q) else LastOpen(cfg, Plus(l, q))
    decreases Rank(s)
  {
    if CanStep(cfg, s) {
      StepAppend(cfg, s, q);
      if Step(cfg, s).open {
        LastOpenAppend(cfg, Step(cfg, s), q);
      }
    }
  }

  lemma {:induction false} DrainFromServe(cfg: Config, s: Conn)
    ensures Drain(cfg, s) == Drain(cfg, Serve(cfg, s))
    ensures Serve(cfg, s).open ==> Drain(cfg, s) == Serve(cfg, s) && !CanStep(cfg, Serve(cfg, s))
    decreases Rank(s)
  {
    if s.open && CanStep(cfg, s) {
      DrainFromServe(cfg, Step(cfg, s));
    }
  }

  /** A step never reopens a connection, and the log only grows. */
  lemma StepFacts(cfg: Config, s: Conn)
    requires CanStep(cfg, s)
    ensures !s.open ==> !Step(cfg, s).open
    ensures |Step(cfg, s).log| >= |s.log|
    ensures s.mode == CommandMode && CanExecute(cfg, s.pending) ==> |Step(cfg, s).log| == |s.log| + 1
  {
    if s.mode == CommandMode && CanExecute(cfg, s.pending) {
      assert !Overlong(cfg, s.pending);
    }
  }

  lemma {:induction false} DrainFacts(cfg: Config, s: Conn)
    ensures !s.open ==> !Drain(cfg, s).open
    ensures |Drain(cfg, s).log| >= |s.log|
    decreases Rank(s)
  {
    if CanStep(cfg, s) {
      StepFacts(cfg, s);
      DrainFacts(cfg, Step(cfg, s));
    }
  }

  lemma {:induction false} TurnsFacts(cfg: Config, s: Conn, packets: seq<Bytes>)
    ensures !s.open ==> Turns(cfg, s, packets) == s
    ensures |Turns(cfg, s, packets).log| >= |s.log|
    decreases |packets|
  {
    if packets != [] {
      DrainFacts(cfg, Plus(s, packets[0]));
      TurnsFacts(cfg, Turn(cfg, s, packets[0]), packets[1..]);
    }
  }

  lemma {:induction false} TurnsConcat(cfg: Config, s: Conn, a: seq<Bytes>, b: seq<Bytes>)
    ensures Turns(cfg, s, a + b) == Turns(cfg, Turns(cfg, s, a), b)
    decreases |a|
  {
    if a == [] {
      assert a + b == b;
    } else {
      assert (a + b)[1..] == a[1..] + b;
      TurnsConcat(cfg, Turn(cfg, s, a[0]), a[1..], b);
    }
  }

  /** A command closed the connection and left the parser in command mode, with a whole command behind it. */
  predicate MoreFollows(cfg: Config, c: Conn) {
    !c.open && c.mode == CommandMode && CanExecute(cfg, c.pending)
  }

  /** ... and both commands fit the receive buffer together. */
  predicate Trailing(cfg: Config, s: Conn) {
    var l := LastOpen(cfg, s);
    CanStep(cfg, l) && l.mode == CommandMode && HasLine(cfg, l.pending) && MoreFollows(cfg, Step(cfg, l)) &&
    LineSize(cfg, l.pending) + LineSize(cfg, Step(cfg, l).pending) <= cfg.bufSize
  }

  /** A packet as `read_fd_data` can deliver it: it fits the buffer, or it is the byte that finds the buffer full. */
  predicate Legal(cfg: Config, s: Conn, packet: Bytes) {
    |packet| == 1 || |s.pending| + |packet| <= cfg.bufSize
  }

  predicate AllLegal(cfg: Config, s: Conn, packets: seq<Bytes>)
    decreases |packets|
  {
    packets == [] || (Legal(cfg, s, packets[0]) && AllLegal(cfg, Turn(cfg, s, packets[0]), packets[1..]))
  }

  // --- Unchanged while no command trails ------------------------------------------------

  lemma QuietClose(cfg: Config, c: Conn)
    requires !c.open && !MoreFollows(cfg, c) && c.mode != StreamMode
    ensures Drain(cfg, c).log == c.log && Drain(cfg, c).dump == c.dump
  {
    if CanStep(cfg, c) {
      assert Step(cfg, c).mode == Failed;
    }
  }

  lemma ClosedModes(cfg: Config, s: Conn)
    requires s.open && CanStep(cfg, s) && !Step(cfg, s).open
    ensures Step(cfg, s).mode != StreamMode
  {
  }

  lemma {:induction false} PendingShrinks(cfg: Config, s: Conn)
    ensures |LastOpen(cfg, s).pending| <= |s.pending|
    decreases Rank(s)
  {
    if CanStep(cfg, s) && Step(cfg, s).open {
      PendingShrinks(cfg, Step(cfg, s));
    }
  }

  /** A command that closes the connection in command mode was a line. */
  lemma ClosingLine(cfg: Config, l: Conn)
    requires l.open && CanStep(cfg, l) && MoreFollows(cfg, Step(cfg, l))
    ensures l.mode == CommandMode && HasLine(cfg, l.pending)
    ensures LineSize(cfg, l.pending) + |Step(cfg, l).pending| == |l.pending|
  {
  }

  lemma {:induction false} OneByteQuiet(cfg: Config, s: Conn, q: Bytes)
    requires s.open && !CanStep(cfg, s) && |q| == 1
    ensures !MoreFollows(cfg, Serve(cfg, Plus(s, q)))
  {
    var t := Plus(s, q);
    ServeViaLastOpen(cfg, t);
    var l := LastOpen(cfg, t);
    if CanStep(cfg, l) && MoreFollows(cfg, Step(cfg, l)) {
      PendingShrinks(cfg, t);
      ClosingLine(cfg, l);
      OneByteStays(cfg, s, q);
    }
  }

  /** After one byte at most one line is complete, and it reaches to the end. */
  lemma OneByteStays(cfg: Config, s: Conn, q: Bytes)
    requires s.open && !CanStep(cfg, s) && |q| == 1 && CanStep(cfg, Plus(s, q))
    ensures Step(cfg, Plus(s, q)).pending == [] || Step(cfg, Plus(s, q)).mode == Failed
  {
    var t := Plus(s, q);
    if s.mode == CommandMode && !Overlong(cfg, t.pending) {
      FirstNulAppend(s.pending, q);
      if HasLine(cfg, s.pending) {
        LineAppend(cfg, s.pending, q);
      }
    }
  }

  /** One packet at an open, idle connection: either it stays open, or nothing is logged after the close. */
  lemma TurnServes(cfg: Config, s: Conn, packet: Bytes, rest: Bytes)
    requires s.open && !CanStep(cfg, s) && Legal(cfg, s, packet)
    requires !Trailing(cfg, Plus(s, packet + rest))
    ensures var c := Serve(cfg, Plus(s, packet));
            && (c.open ==> Turn(cfg, s, packet) == c && !CanStep(cfg, c))
            && (!c.open ==>
                  var t := Turn(cfg, s, packet); !t.open && t.log == c.log && t.dump == c.dump)
  {
    var t := Plus(s, packet);
    DrainFromServe(cfg, t);
    ServeViaLastOpen(cfg, t);
    DrainFacts(cfg, Serve(cfg, t));
    var l := LastOpen(cfg, t);
    if !Serve(cfg, t).open {
      ClosedModes(cfg, l);
      if MoreFollows(cfg, Step(cfg, l)) {
        TrailingInPacket(cfg, s, packet, rest);
      } else {
        QuietClose(cfg, Step(cfg, l));
      }
    }
  }

  lemma TrailingInPacket(cfg: Config, s: Conn, packet: Bytes, rest: Bytes)
    requires s.open && !CanStep(cfg, s) && Legal(cfg, s, packet)
    requires MoreFollows(cfg, Serve(cfg, Plus(s, packet)))
    ensures Trailing(cfg, Plus(s, packet + rest))
  {
    hide Step, CanStep, CanExecute, LineSize, HasLine;
    var t := Plus(s, packet);
    if |packet| == 1 {
      OneByteQuiet(cfg, s, packet);
    }
    ServeViaLastOpen(cfg, t);
    var l := LastOpen(cfg, t);
    PendingShrinks(cfg, t);
    ClosingLine(cfg, l);
    LastOpenAppend(cfg, t, rest);
    StepAppend(cfg, l, rest);
    LineAppend(cfg, l.pending, rest);
    NextLineFits(cfg, Step(cfg, l), rest);
    assert Plus(t, rest) == Plus(s, packet + rest);
  }

  lemma NextLineFits(cfg: Config, c: Conn, q: Bytes)
    requires MoreFollows(cfg, c)
    ensures MoreFollows(cfg, Plus(c, q)) && LineSize(cfg, c.pending + q) <= |c.pending|
  {
    LineAppend(cfg, c.pending, q);
  }

  /**
   The commands executed, the files scanned and the content of the open file do not depend on how the
   bytes were split, unless a command trails a closing one. While the connection is open the whole
   state is the same, so the buffer holds exactly the bytes that were not consumed.
   */
  lemma {:induction false} SplitDoesNotMatter(cfg: Config, s: Conn, packets: seq<Bytes>)
    requires s.open && !CanStep(cfg, s) && AllLegal(cfg, s, packets)
    requires !Trailing(cfg, Plus(s, Flatten(packets)))
    ensures var c := Serve(cfg, Plus(s, Flatten(packets)));
            && (c.open ==> Turns(cfg, s, packets) == c)
            && Turns(cfg, s, packets).open == c.open
            && Turns(cfg, s, packets).log == c.log
            && Turns(cfg, s, packets).dump == c.dump
    decreases |packets|
  {
    hide Step, CanStep;
    if packets == [] {
      assert Plus(s, []) == s;
    } else {
      var packet, rest := packets[0], packets[1..];
      var c0 := Serve(cfg, Plus(s, packet));
      TurnServes(cfg, s, packet, Flatten(rest));
      ServeAppend(cfg, Plus(s, packet), Flatten(rest));
      assert Plus(Plus(s, packet), Flatten(rest)) == Plus(s, Flatten(packets));
      if c0.open {
        ServeViaLastOpen(cfg, Plus(s, packet));
        LastOpenAppend(cfg, Plus(s, packet), Flatten(rest));
        SplitDoesNotMatter(cfg, c0, rest);
      } else {
        TurnsFacts(cfg, Turn(cfg, s, packet), rest);
      }
    }
  }

  // --- When it does matter ------------------------------------------------------------

  function Singles(b: Bytes): seq<Bytes> {
    if b == [] then [] else [[b[0]]] + Singles(b[1..])
  }

  lemma {:induction false} FlattenSingles(b: Bytes)
    ensures Flatten(Singles(b)) == b
  {
    if b != [] {
      FlattenSingles(b[1..]);
      assert Singles(b)[1..] == Singles(b[1..]);
      assert b == [b[0]] + b[1..];
    }
  }

  lemma {:induction false} FlattenConcat(a: seq<Bytes>, b: seq<Bytes>)
    ensures Flatten(a + b) == Flatten(a) + Flatten(b)
    decreases |a|
  {
    if a == [] {
      assert a + b == b;
    } else {
      assert (a + b)[1..] == a[1..] + b;
      FlattenConcat(a[1..], b);
    }
  }

  lemma {:induction false} SinglesLegal(cfg: Config, s: Conn, b: Bytes, more: seq<Bytes>)
    requires AllLegal(cfg, Turns(cfg, s, Singles(b)), more)
    ensures AllLegal(cfg, s, Singles(b) + more)
    decreases |b|
  {
    if b == [] {
      assert Singles(b) + more == more;
    } else {
      assert (Singles(b) + more)[1..] == Singles(b[1..]) + more;
      assert Singles(b)[1..] == Singles(b[1..]);
      SinglesLegal(cfg, Turn(cfg, s, [b[0]]), b[1..], more);
    }
  }

  lemma SinglesStart(cfg: Config, s: Conn)
    requires s.open && !CanStep(cfg, s)
    ensures Turns(cfg, s, Singles([])) == s && Serve(cfg, Plus(s, [])) == s
  {
    hide Step, CanStep;
    assert Plus(s, []) == s;
  }

  lemma SinglesHead(cfg: Config, s: Conn, b: Bytes)
    requires b != []
    ensures Turns(cfg, s, Singles(b)) == Turns(cfg, Turn(cfg, s, [b[0]]), Singles(b[1..]))
    ensures Plus(Plus(s, [b[0]]), b[1..]) == Plus(s, b)
  {
    hide Turn, Turns;
    TurnsHead(cfg, s, [b[0]], Singles(b[1..]));
    assert Singles(b) == [[b[0]]] + Singles(b[1..]);
    assert [b[0]] + b[1..] == b;
    assert s.pending + [b[0]] + b[1..] == s.pending + b;
  }

  lemma TurnsHead(cfg: Config, s: Conn, packet: Bytes, packets: seq<Bytes>)
    ensures Turns(cfg, s, [packet] + packets) == Turns(cfg, Turn(cfg, s, packet), packets)
  {
    hide Turn;
    assert ([packet] + packets)[1..] == packets;
  }

  /** Byte by byte, the connection is served up to its close and no further. */
  lemma {:induction false} SinglesServe(cfg: Config, s: Conn, b: Bytes)
    requires s.open && !CanStep(cfg, s)
    ensures var c := Serve(cfg, Plus(s, b));
            Turns(cfg, s, Singles(b)).log == c.log && (c.open ==> Turns(cfg, s, Singles(b)) == c)
    decreases |b|
  {
    hide Step, CanStep, Singles, Turns, Serve, Drain;
    if b == [] {
      SinglesStart(cfg, s);
    } else {
      var q, rest := [b[0]], b[1..];
      var t := Plus(s, q);
      SinglesHead(cfg, s, b);
      DrainFromServe(cfg, t);
      ServeAppend(cfg, t, rest);
      var c0 := Serve(cfg, t);
      if c0.open {
        SinglesServe(cfg, c0, rest);
      } else {
        OneByteCloses(cfg, s, q);
        TurnsFacts(cfg, Turn(cfg, s, q), Singles(rest));
      }
    }
  }

  lemma OneByteCloses(cfg: Config, s: Conn, q: Bytes)
    requires s.open && !CanStep(cfg, s) && |q| == 1 && !Serve(cfg, Plus(s, q)).open
    ensures Turn(cfg, s, q).log == Serve(cfg, Plus(s, q)).log && !Turn(cfg, s, q).open
  {
    hide Step, CanStep, CanExecute;
    var t := Plus(s, q);
    DrainFromServe(cfg, t);
    OneByteQuiet(cfg, s, q);
    ServeViaLastOpen(cfg, t);
    ClosedModes(cfg, LastOpen(cfg, t));
    QuietClose(cfg, Serve(cfg, t));
    DrainFacts(cfg, Serve(cfg, t));
  }

  function StepBytes(cfg: Config, s: Conn): nat
    requires CanStep(cfg, s) && Step(cfg, s).open
  {
    if s.mode == CommandMode then LineSize(cfg, s.pending) else if s.chunk == 0 then 4 else 1
  }

  lemma StepTakes(cfg: Config, s: Conn)
    requires CanStep(cfg, s) && Step(cfg, s).open
    ensures StepBytes(cfg, s) <= |s.pending| && Step(cfg, s).pending == s.pending[StepBytes(cfg, s)..]
  {
  }

  lemma StepCanOnPrefix(cfg: Config, s: Conn)
    requires CanStep(cfg, s) && Step(cfg, s).open && StepBytes(cfg, s) <= |s.pending|
    ensures CanStep(cfg, s.(pending := s.pending[..StepBytes(cfg, s)]))
  {
    var n := StepBytes(cfg, s);
    if s.mode == CommandMode {
      FirstNulPrefix(s.pending, n);
      assert s.pending[..n][1..FirstNul(s.pending)] == s.pending[1..FirstNul(s.pending)];
    }
  }

  /** How many bytes a step takes, and that it looks at no others. */
  lemma StepLocal(cfg: Config, s: Conn) returns (n: nat)
    requires CanStep(cfg, s) && Step(cfg, s).open
    ensures n <= |s.pending| && Step(cfg, s).pending == s.pending[n..]
    ensures var p := s.(pending := s.pending[..n]);
            CanStep(cfg, p) && Step(cfg, p) == Step(cfg, s).(pending := [])
    ensures Rank(Step(cfg, s)) < Rank(s)
  {
    hide Step, CanStep, StepBytes;
    StepTakes(cfg, s);
    StepCanOnPrefix(cfg, s);
    StepRanks(cfg, s);
    n := StepBytes(cfg, s);
    var p, q := s.(pending := s.pending[..n]), s.pending[n..];
    StepAppend(cfg, p, q);
    assert s == Plus(p, q) by { assert s.pending == s.pending[..n] + q; }
    assert |Step(cfg, p).pending + q| == |q|;
  }

  lemma StepRanks(cfg: Config, s: Conn)
    requires CanStep(cfg, s)
    ensures Rank(Step(cfg, s)) < Rank(s)
  {
  }

  lemma FirstNulPrefix(b: Bytes, n: nat)
    requires FirstNul(b) < n <= |b|
    ensures FirstNul(b[..n]) == FirstNul(b)
  {
    FirstNulAppend(b[..n], b[n..]);
    assert b == b[..n] + b[n..];
  }

  lemma NothingPending(cfg: Config, s: Conn)
    requires s.pending == []
    ensures !CanStep(cfg, s)
  {
  }

  /** The bytes before the last open state lead to that state, with nothing pending. */
  lemma {:induction false} ServePrefix(cfg: Config, s: Conn) returns (u: Bytes)
    requires s.open
    ensures var l := LastOpen(cfg, s);
            s.pending == u + l.pending && Serve(cfg, s.(pending := u)) == l.(pending := [])
    decreases Rank(s)
  {
    hide Step, CanStep;
    u := [];
    if CanStep(cfg, s) && Step(cfg, s).open {
      var n := StepLocal(cfg, s);
      var u1 := ServePrefix(cfg, Step(cfg, s));
      u := s.pending[..n] + u1;
      assert s.pending == s.pending[..n] + s.pending[n..];
      ServeStep(cfg, s, n, u1);
    } else {
      NothingPending(cfg, s.(pending := []));
    }
  }

  lemma ServeStep(cfg: Config, s: Conn, n: nat, u: Bytes)
    requires s.open && CanStep(cfg, s) && n <= |s.pending|
    requires var p := s.(pending := s.pending[..n]);
             CanStep(cfg, p) && Step(cfg, p) == Step(cfg, s).(pending := [])
    ensures Serve(cfg, s.(pending := s.pending[..n] + u)) == Serve(cfg, Step(cfg, s).(pending := u))
  {
    hide Step, CanStep;
    var p := s.(pending := s.pending[..n]);
    StepAppend(cfg, p, u);
    assert Plus(p, u) == s.(pending := s.pending[..n] + u);
    assert Plus(Step(cfg, s).(pending := []), u) == Step(cfg, s).(pending := u) by { assert [] + u == u; }
  }

  /** A closing command and a further one in one packet: both are executed. */
  lemma BothExecuted(cfg: Config, l: Conn, both: Bytes)
    requires l.open && l.pending == [] && CanStep(cfg, Plus(l, both))
    requires MoreFollows(cfg, Step(cfg, Plus(l, both)))
    ensures |Turn(cfg, l, both).log| > |Step(cfg, Plus(l, both)).log|
  {
    hide CanExecute, Step;
    var t := Plus(l, both);
    var c := Step(cfg, t);
    assert CanStep(cfg, c);
    StepFacts(cfg, c);
    DrainFacts(cfg, Step(cfg, c));
    assert Drain(cfg, t) == Drain(cfg, Step(cfg, c));
  }

  /** The two commands that make a stream trailing, cut out of it. */
  lemma TwoLines(cfg: Config, l: Conn) returns (both: Bytes, rest: Bytes)
    requires l.open && l.mode == CommandMode && CanStep(cfg, l) && HasLine(cfg, l.pending)
    requires MoreFollows(cfg, Step(cfg, l))
    requires LineSize(cfg, l.pending) + LineSize(cfg, Step(cfg, l).pending) <= cfg.bufSize
    ensures l.pending == both + rest && |both| <= cfg.bufSize
    ensures CanStep(cfg, l.(pending := both))
    ensures var c := Step(cfg, l.(pending := both)); MoreFollows(cfg, c) && c.log == Step(cfg, l).log
  {
    hide Step, CanStep, AfterCommand, RecogniseIn, FirstNul, ParseLine, LineSize;
    var n := LineSize(cfg, l.pending);
    var c := Step(cfg, l);
    var m := LineSize(cfg, c.pending);
    ClosingLine(cfg, l);
    StepClosing(cfg, l);
    both, rest := l.pending[..n + m], l.pending[n + m..];
    assert l.pending == both + rest;
    LinePrefix(cfg, l.pending, n + m);
    LinePrefix(cfg, c.pending, m);
    assert both[n..] == c.pending[..m];
    StepClosing(cfg, l.(pending := both));
    AfterCommandPending(cfg, l, ParseLine(cfg, l.pending), both);
  }

  lemma LinePrefix(cfg: Config, b: Bytes, n: nat)
    requires HasLine(cfg, b) && LineSize(cfg, b) <= n <= |b|
    ensures CanExecute(cfg, b[..n]) && LineSize(cfg, b[..n]) == LineSize(cfg, b) &&
            ParseLine(cfg, b[..n]) == ParseLine(cfg, b)
  {
    FirstNulPrefix(b, n);
    assert b[..n][1..FirstNul(b)] == b[1..FirstNul(b)];
  }

  lemma StepClosing(cfg: Config, l: Conn)
    requires l.mode == CommandMode && CanExecute(cfg, l.pending)
    ensures CanStep(cfg, l)
    ensures Step(cfg, l) ==
            AfterCommand(cfg, l, ParseLine(cfg, l.pending)).(pending := l.pending[LineSize(cfg, l.pending)..])
  {
    assert !Overlong(cfg, l.pending);
  }

  lemma OnlySinglesLegal(cfg: Config, s: Conn, b: Bytes)
    ensures AllLegal(cfg, s, Singles(b))
  {
    SinglesLegal(cfg, s, b, []);
    assert Singles(b) + [] == Singles(b);
  }

  lemma MixedLegal(cfg: Config, s: Conn, u: Bytes, both: Bytes, rest: Bytes)
    requires Turns(cfg, s, Singles(u)).pending == [] && |both| <= cfg.bufSize
    ensures AllLegal(cfg, s, Singles(u) + ([both] + Singles(rest)))
  {
    hide Turn, Turns;
    var l := Turns(cfg, s, Singles(u));
    OnlySinglesLegal(cfg, Turn(cfg, l, both), rest);
    assert ([both] + Singles(rest))[1..] == Singles(rest);
    SinglesLegal(cfg, s, u, [both] + Singles(rest));
  }

  lemma MixedFlatten(u: Bytes, both: Bytes, rest: Bytes)
    ensures Flatten(Singles(u) + ([both] + Singles(rest))) == u + (both + rest)
  {
    FlattenConcat(Singles(u), [both] + Singles(rest));
    FlattenSingles(u);
    FlattenSingles(rest);
    assert ([both] + Singles(rest))[1..] == Singles(rest);
  }

  lemma MixedLog(cfg: Config, s: Conn, u: Bytes, both: Bytes, rest: Bytes)
    ensures |Turns(cfg, s, Singles(u) + ([both] + Singles(rest))).log| >=
            |Turn(cfg, Turns(cfg, s, Singles(u)), both).log|
  {
    hide Turn, Singles;
    TurnsConcat(cfg, s, Singles(u), [both] + Singles(rest));
    var l := Turns(cfg, s, Singles(u));
    assert ([both] + Singles(rest))[1..] == Singles(rest);
    TurnsFacts(cfg, Turn(cfg, l, both), Singles(rest));
  }

  /** With a trailing command, one packet for both commands executes more than a byte at a time does. */
  lemma TrailingMatters(cfg: Config, s: Conn, w: Bytes) returns (packets: seq<Bytes>)
    requires s.open && s.pending == [] && Trailing(cfg, Plus(s, w))
    ensures AllLegal(cfg, s, packets) && Flatten(packets) == w
    ensures |Turns(cfg, s, packets).log| > |Turns(cfg, s, Singles(w)).log|
  {
    hide Step, CanStep, CanExecute, HasLine, LineSize, Turn, Turns, Singles, Serve, LastOpen;
    NothingPending(cfg, s);
    var t := Plus(s, w);
    assert t.pending == w by { assert [] + w == w; }
    var l := LastOpen(cfg, t);
    ServeViaLastOpen(cfg, t);
    var u := ServePrefix(cfg, t);
    var both, rest := TwoLines(cfg, l);
    assert Plus(s, u) == t.(pending := u) by { assert [] + u == u; }
    SinglesServe(cfg, s, u);
    var l0 := l.(pending := []);
    assert Turns(cfg, s, Singles(u)) == l0;
    assert Plus(l0, both) == l.(pending := both) by { assert [] + both == both; }
    BothExecuted(cfg, l0, both);
    packets := Singles(u) + ([both] + Singles(rest));
    MixedLegal(cfg, s, u, both, rest);
    MixedFlatten(u, both, rest);
    MixedLog(cfg, s, u, both, rest);
    SinglesServe(cfg, s, w);
  }

  /** Two ways to deliver the same bytes with different effects. */
  ghost predicate SplitMatters(cfg: Config, s: Conn, w: Bytes) {
    exists ps, qs ::
      && AllLegal(cfg, s, ps) && AllLegal(cfg, s, qs) && Flatten(ps) == w && Flatten(qs) == w
      && Turns(cfg, s, ps).log != Turns(cfg, s, qs).log
  }

  /** The split into packets matters exactly when a whole command trails a closing one and both fit the buffer. */
  lemma SplitMattersIff(cfg: Config, s: Conn, w: Bytes)
    requires s.open && s.pending == []
    ensures SplitMatters(cfg, s, w) <==> Trailing(cfg, Plus(s, w))
  {
    hide Step, CanStep, Turns, Singles, Serve, AllLegal, Trailing;
    NothingPending(cfg, s);
    if Trailing(cfg, Plus(s, w)) {
      var ps := TrailingMatters(cfg, s, w);
      OnlySinglesLegal(cfg, s, w);
      FlattenSingles(w);
      assert SplitMatters(cfg, s, w);
    } else {
      forall ps | AllLegal(cfg, s, ps) && Flatten(ps) == w
        ensures Turns(cfg, s, ps).log == Serve(cfg, Plus(s, w)).log
      {
        SplitDoesNotMatter(cfg, s, ps);
      }
    }
  }
}
