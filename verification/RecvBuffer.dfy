/**
 The receive side of a connection as clamd runs it: one buffer that packets are read into,
 parsed in place and shifted, shared by the command parser and the stream decoder. A packet
 has the effect that the bufferless model gives it.
 */
module RecvBuffer {
  import opened Options
  import opened Commands
  import opened Wire
  import opened SessionModel

  /** Any part of a chunk can be taken in one go. */
  lemma {:induction false} DataSteps(cfg: Config, s: Conn, n: nat)
    requires s.mode == StreamMode && n <= s.chunk && n <= |s.pending|
    ensures Drain(cfg, s) ==
            Drain(cfg, s.(chunk := s.chunk - n, dump := s.dump + s.pending[..n], pending := s.pending[n..]))
    decreases n
  {
    hide Drain;
    if n == 0 {
      assert s.dump + s.pending[..0] == s.dump && s.pending[0..] == s.pending;
    } else {
      var t := StepStream(s);
      DrainStep(cfg, s);
      DataSteps(cfg, t, n - 1);
      assert t.dump + t.pending[..n - 1] == s.dump + s.pending[..n];
      assert t.pending[n - 1..] == s.pending[n..];
    }
  }

  lemma DrainStep(cfg: Config, s: Conn)
    requires CanStep(cfg, s)
    ensures Drain(cfg, s) == Drain(cfg, Step(cfg, s))
  {
    hide Step, CanStep;
  }

  lemma DrainStuck(cfg: Config, s: Conn)
    requires !CanStep(cfg, s)
    ensures Drain(cfg, s) == s
  {
    hide Step, CanStep;
  }

  /** In a buffer that holds everything, whether a command can be executed is whether it is complete. */
  lemma CommandStep(cfg: Config, s: Conn)
    requires s.mode == CommandMode && |s.pending| <= cfg.bufSize
    ensures CanStep(cfg, s) <==> CanExecute(cfg, s.pending)
    ensures CanStep(cfg, s) ==>
              Step(cfg, s) ==
              AfterCommand(cfg, s, ParseLine(cfg, s.pending)).(pending := s.pending[LineSize(cfg, s.pending)..])
  {
  }

  lemma CommandEffect(cfg: Config, s: Conn, b: Bytes)
    requires s.mode == CommandMode && |b| <= cfg.bufSize && CanExecute(cfg, b)
    ensures CanStep(cfg, s.(pending := b))
    ensures Step(cfg, s.(pending := b)) == AfterCommand(cfg, s, ParseLine(cfg, b)).(pending := b[LineSize(cfg, b)..])
  {
    hide AfterCommand;
    CommandStep(cfg, s.(pending := b));
    AfterCommandPending(cfg, s, ParseLine(cfg, b), b);
  }

  /** A command that fills the buffer without an end: the model gives up with the next byte, as the full buffer does. */
  lemma FullBuffer(cfg: Config, s: Conn, packet: Bytes)
    requires s.open && s.mode == CommandMode && packet != []
    requires |s.pending| == cfg.bufSize > 0 && s.pending[0] == 'z' && FirstNul(s.pending) == |s.pending|
    ensures Turn(cfg, s, packet) == Plus(s, packet).(open := false, mode := Failed)
  {
    var t := Plus(s, packet);
    FirstNulAppend(s.pending, packet);
    assert Overlong(cfg, t.pending);
    DrainStep(cfg, t);
    DrainStuck(cfg, Step(cfg, t));
  }

  class FdBuf {
    const cfg: Config
    const buffer: array<char>
    var off: nat
    var open: bool
    var mode: Mode
    var inSession: bool
    var id: nat
    var chunksize: nat
    var quota: int
    var dump: Bytes
    var log: seq<Event>

    ghost predicate Valid()
      reads this
    {
      buffer.Length == cfg.bufSize + 1 && off <= cfg.bufSize
    }

    /** The connection when the bytes before `pos` are consumed. */
    ghost function At(pos: nat): Conn
      reads this, buffer
      requires Valid() && pos <= off
    {
      Conn(open, mode, inSession, id, chunksize, quota, dump, buffer[pos..off], log)
    }

    ghost function State(): Conn
      reads this, buffer
      requires Valid()
    {
      At(0)
    }

    /** `buf_init` for a new connection */
    constructor (cfg: Config)
      ensures Valid() && State() == NEW_CONN && this.cfg == cfg && fresh(buffer)
    {
      this.cfg := cfg;
      buffer := new char[cfg.bufSize + 1];
      off, open, mode, inSession, id := 0, true, CommandMode, false, 0;
      chunksize, quota, dump, log := 0, 0, [], [];
    }

    /** Moves the bytes from `pos` on to the front. */
    method Shift(pos: nat)
      requires Valid() && pos <= off
      modifies this`off, buffer
      ensures Valid() && off == old(off) - pos
      ensures State() == old(At(pos))
    {
      ghost var left := buffer[pos..off];
      forall i | 0 <= i < off - pos {
        buffer[i] := buffer[pos + i];
      }
      off := off - pos;
      assert buffer[0..off] == left;
    }

    /** `get_cmd` for commands that start with 'z': where the NUL is, counted from `pos` */
    method GetCmd(pos: nat) returns (len: Option<nat>)
      requires Valid() && pos <= off
      ensures len.Some? <==> HasLine(cfg, buffer[pos..off])
      ensures len.Some? ==> len.value == FirstNul(buffer[pos..off])
    {
      ghost var b := buffer[pos..off];
      if off == 0 || pos >= off {
        return None;
      }
      if buffer[pos] != 'z' {
        return None;
      }
      var i := pos;
      while i < off && buffer[i] != '\0'
        invariant pos <= i <= off
        invariant forall j :: 0 <= j < i - pos ==> b[j] != '\0'
      {
        i := i + 1;
      }
      if i == off {
        return None;
      }
      return Some(i - pos);
    }

    /** `execute_or_dispatch_command` and what `parse_dispatch_cmd` does with its answer */
    method RunCommand(p: Parsed)
      requires Valid() && mode == CommandMode
      modifies this
      ensures Valid() && off == old(off)
      ensures State() == AfterCommand(cfg, old(State()), p)
    {
      var v := Perform(cfg, p.command, inSession);
      var last := cfg.alone(|log|);
      log := log + [Executed(p.command, p.argument, id, inSession)];
      inSession := v.inSession;
      if v.stream {
        mode, quota, dump := StreamMode, cfg.streamMax, [];
      }
      if !inSession || v.done {
        if v.done && (!inSession || last) {
          open := false;
          inSession := false;
        } else if mode != StreamMode {
          mode := WaitReply;
          open := false;
        }
      }
      if mode == CommandMode {
        id := id + 1;
      }
    }

    /** The command at `pos` and its size, if it is complete */
    method FindCommand(pos: nat) returns (p: Option<Parsed>, size: nat)
      requires Valid() && pos <= off
      ensures p.Some? <==> CanExecute(cfg, buffer[pos..off])
      ensures p.Some? ==> p.value == ParseLine(cfg, buffer[pos..off]) && size == LineSize(cfg, buffer[pos..off])
    {
      hide RecogniseIn;
      var len := GetCmd(pos);
      if len.None? {
        return None, 0;
      }
      assert buffer[pos + 1..pos + len.value] == buffer[pos..off][1..len.value];
      var parsed := ParseCommand(cfg.table, buffer[pos + 1..pos + len.value], false);
      size := len.value + 1;
      if parsed.command == Fildes {
        size := size + 1;
        if pos + size > off {
          return None, 0;
        }
      }
      p := Some(parsed);
    }

    /** One turn of the loop in `parse_dispatch_cmd`: the size of the command executed, or zero if none is complete */
    method ExecuteAt(pos: nat) returns (size: nat)
      requires Valid() && pos <= off && mode == CommandMode
      modifies this
      ensures Valid() && off == old(off) && buffer[..] == old(buffer[..])
      ensures size == 0 ==> State() == old(State()) && !CanStep(cfg, old(At(pos)))
      ensures size > 0 ==> pos + size <= off && CanStep(cfg, old(At(pos))) && At(pos + size) == Step(cfg, old(At(pos)))
    {
      hide Step, CanStep, AfterCommand, RecogniseIn;
      ghost var whole, b := State(), buffer[pos..off];
      CommandStep(cfg, At(pos));
      var p, n := FindCommand(pos);
      if p.None? {
        return 0;
      }
      CommandEffect(cfg, whole, b);
      RunCommand(p.value);
      size := n;
      assert buffer[pos + size..off] == b[size..];
    }

    /** `parse_dispatch_cmd` */
    method ParseDispatchCmd()
      requires Valid()
      modifies this, buffer
      ensures Valid() && off <= old(off)
      ensures Drain(cfg, State()) == Drain(cfg, old(State()))
      ensures mode == CommandMode ==> !CanStep(cfg, State())
      ensures old(mode) != CommandMode ==> State() == old(State())
    {
      hide Step, CanStep, Drain;
      ghost var start := State();
      var pos: nat := 0;
      while mode == CommandMode
        invariant Valid() && pos <= off && off == old(off) && buffer[..] == old(buffer[..])
        invariant Drain(cfg, At(pos)) == Drain(cfg, start)
        invariant old(mode) != CommandMode ==> pos == 0 && State() == start
        decreases mode == CommandMode, off - pos
      {
        ghost var before := At(pos);
        var size := ExecuteAt(pos);
        if size == 0 {
          assert At(pos) == before;
          break;
        }
        DrainStep(cfg, before);
        pos := pos + size;
      }
      Shift(pos);
    }

    /** The part of `handle_stream` that reads a chunk size at `pos` */
    method ReadChunkSize(pos: nat)
      requires Valid() && mode == StreamMode && chunksize == 0 && pos + 4 <= off
      modifies this
      ensures Valid() && off == old(off) && buffer[..] == old(buffer[..])
      ensures At(pos + 4) == StepStream(old(At(pos)))
      ensures mode == Failed ==> !open
      ensures mode == CommandMode ==> open
    {
      ghost var b := buffer[pos..off];
      var n := FromBe32(buffer[pos..pos + 4]);
      assert n == FromBe32(b);
      assert buffer[pos + 4..off] == b[4..];
      if n == 0 {
        EndOfStream();
      } else if n > quota {
        open := false;
        mode := Failed;
      } else {
        chunksize := n;
        quota := quota - n;
      }
    }

    /** The part of `handle_stream` that writes chunk data at `pos` to the temporary file */
    method CopyData(pos: nat) returns (size: nat)
      requires Valid() && mode == StreamMode && pos <= off
      modifies this`chunksize, this`dump
      ensures pos + size <= off && size <= old(chunksize)
      ensures size == old(chunksize) || pos + size == off
      ensures chunksize == old(chunksize) - size
      ensures Drain(cfg, At(pos + size)) == Drain(cfg, old(At(pos)))
    {
      hide Step, CanStep, Drain;
      ghost var before := At(pos);
      size := if pos + chunksize < off then chunksize else off - pos;
      DataSteps(cfg, before, size);
      assert buffer[pos..off][..size] == buffer[pos..pos + size];
      assert buffer[pos..off][size..] == buffer[pos + size..off];
      chunksize := chunksize - size;
      dump := dump + buffer[pos..pos + size];
    }

    /** `handle_stream`: whether it came to the end of the stream */
    method HandleStream() returns (ended: bool)
      requires Valid() && mode == StreamMode
      modifies this, buffer
      ensures Valid() && off <= old(off)
      ensures mode != Failed ==> Drain(cfg, State()) == Drain(cfg, old(State()))
      ensures mode == Failed ==> !open && State().(pending := []) == Drain(cfg, old(State())).(pending := [])
      ensures ended <==> mode != StreamMode && mode != Failed
      ensures mode == StreamMode ==> (if chunksize == 0 then off < 4 else off == 0)
      ensures ended ==> off < old(off)
      ensures ended && mode == CommandMode ==> open
    {
      hide Drain, StepStream;
      ghost var start := State();
      var pos: nat := 0;
      while true
        invariant Valid() && pos <= off && off == old(off) && mode == StreamMode
        invariant Drain(cfg, At(pos)) == Drain(cfg, start)
        decreases off - pos
      {
        if chunksize == 0 {
          if off - pos < 4 {
            Shift(pos);
            return false;
          }
          DrainStep(cfg, At(pos));
          ReadChunkSize(pos);
          pos := pos + 4;
          if mode == Failed {
            DrainStuck(cfg, At(pos));
            return false;
          }
          if mode != StreamMode {
            Shift(pos);
            return true;
          }
        }
        var size := CopyData(pos);
        pos := pos + size;
        if pos == off {
          ghost var last := At(pos);
          off := 0;
          assert State() == last;
          return false;
        }
      }
      return false;
    }

    /** The end of a stream in `handle_stream` */
    method EndOfStream()
      requires Valid()
      modifies this`log, this`mode, this`open, this`id
      ensures State() == EndStream(old(State()))
    {
      log := log + [StreamScan(dump, id, inSession)];
      if !open {
        mode := Finished;
      } else if inSession {
        mode := CommandMode;
      } else {
        mode := WaitReply;
        open := false;
      }
      id := id + 1;
    }

    /** `read_fd_data`: false when the buffer is full already */
    method ReadFdData(packet: Bytes) returns (ok: bool)
      requires Valid() && (off < cfg.bufSize ==> off + |packet| <= cfg.bufSize)
      modifies this`off, buffer
      ensures Valid()
      ensures ok <==> old(off) < cfg.bufSize
      ensures ok ==> State() == Plus(old(State()), packet)
      ensures !ok ==> State() == old(State())
    {
      if off >= cfg.bufSize {
        return false;
      }
      ghost var had := buffer[0..off];
      forall i | 0 <= i < |packet| {
        buffer[off + i] := packet[i];
      }
      off := off + |packet|;
      assert buffer[0..off] == had + packet;
      return true;
    }

    /**
     What the receive loop does with a packet for this connection. An open connection is then exactly
     what the model says, the buffer included; of a closed one everything but the bytes left over is.
     */
    method ServePacket(packet: Bytes)
      requires Valid() && open && (mode == CommandMode || mode == StreamMode)
      requires off < cfg.bufSize ==> off + |packet| <= cfg.bufSize
      modifies this, buffer
      ensures Valid()
      ensures old(off) == cfg.bufSize ==> !open && mode == Failed && log == old(log)
      ensures old(off) < cfg.bufSize && open ==> State() == Turn(cfg, old(State()), packet) && !CanStep(cfg, State())
      ensures old(off) < cfg.bufSize ==> State().(pending := []) == Turn(cfg, old(State()), packet).(pending := [])
    {
      hide Step, Drain;
      var ok := ReadFdData(packet);
      if !ok {
        open, mode := false, Failed;
        return;
      }
      ghost var end := Drain(cfg, State());
      assert end == Turn(cfg, old(State()), packet);
      while open && off > 0
        invariant Valid() && Drain(cfg, State()) == end
        invariant mode != Failed && (open || (mode != CommandMode && mode != StreamMode))
        decreases off
      {
        ParseDispatchCmd();
        assert Drain(cfg, State()) == end;
        if mode != StreamMode {
          ServedAll(end);
          return;
        }
        var ended := HandleStream();
        if !ended {
          if mode != Failed {
            ServedAll(end);
          }
          return;
        }
      }
      ServedAll(end);
    }

    lemma ServedAll(end: Conn)
      requires Valid() && Drain(cfg, State()) == end && !CanStep(cfg, State())
      ensures State() == end
    {
      DrainStuck(cfg, State());
    }
  }
}
