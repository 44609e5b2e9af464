/** The table of watched descriptors, as a sequence of slots. */
module FdSlots {
  import opened Options
  import opened SessionModel

  /** A slot; its command buffer is known by a handle, and a listening socket has none. */
  datatype Slot = Slot(fd: int, buffer: Option<nat>, off: nat, mode: Mode, id: nat, chunksize: nat, quota: int)

  /** `buf_init` */
  function Initial(fd: int, buffer: Option<nat>): Slot {
    Slot(fd, buffer, 0, CommandMode, 0, 0, 0)
  }

  /** The slots in use, in order. */
  function Survivors(s: seq<Slot>): seq<Slot> {
    if s == [] then []
    else Survivors(s[..|s| - 1]) + if s[|s| - 1].fd >= 0 then [s[|s| - 1]] else []
  }

  /** The first slot of a descriptor, or the length. */
  function FindFd(s: seq<Slot>, fd: int): (p: nat)
    ensures p <= |s|
    ensures p < |s| ==> s[p].fd == fd
    ensures forall i :: 0 <= i < p ==> s[i].fd != fd
  {
    if s == [] || s[0].fd == fd then 0 else 1 + FindFd(s[1..], fd)
  }

  function Removed(s: seq<Slot>, fd: int): seq<Slot> {
    var p := FindFd(s, fd);
    if p < |s| then s[p := s[p].(fd := -1)] else s
  }

  /** `fds_add`, with the handle that a new buffer would get */
  function Added(s: seq<Slot>, fd: int, listenOnly: bool, handle: nat): seq<Slot> {
    var p := FindFd(s, fd);
    var kept := if p < |s| then s[p].buffer else None;
    var buffer := if listenOnly then None else if kept.Some? then kept else Some(handle);
    if p < |s| then s[p := Initial(fd, buffer)] else s + [Initial(fd, buffer)]
  }

  predicate DistinctFds(s: seq<Slot>) {
    forall i, j :: 0 <= i < j < |s| && s[i].fd >= 0 ==> s[i].fd != s[j].fd
  }

  predicate DistinctBuffers(s: seq<Slot>) {
    forall i, j :: 0 <= i < j < |s| && s[i].buffer.Some? ==> s[i].buffer != s[j].buffer
  }

  /** The handles of the buffers in the table */
  function Buffers(s: seq<Slot>): set<nat> {
    set i | 0 <= i < |s| && s[i].buffer.Some? :: s[i].buffer.value
  }

  // --- Compaction ----------------------------------------------------------------------

  lemma {:induction false} SurvivorsSnoc(s: seq<Slot>, x: Slot)
    ensures Survivors(s + [x]) == Survivors(s) + if x.fd >= 0 then [x] else []
  {
    assert (s + [x])[..|s|] == s;
  }

  /**
   Every survivor is a slot of the table, with all its state, at the place its index is mapped to; the order is
   kept.
   */
  lemma {:induction false} SurvivorsAre(s: seq<Slot>) returns (at: seq<nat>)
    ensures |at| == |Survivors(s)|
    ensures forall k :: 0 <= k < |at| ==> at[k] < |s| && s[at[k]] == Survivors(s)[k] && s[at[k]].fd >= 0
    ensures forall k, l :: 0 <= k < l < |at| ==> at[k] < at[l]
    ensures forall i :: 0 <= i < |s| && s[i].fd >= 0 ==> i in at
    decreases |s|
  {
    if s == [] {
      at := [];
    } else {
      var n := |s| - 1;
      at := SurvivorsAre(s[..n]);
      if s[n].fd >= 0 {
        at := at + [n];
      }
    }
  }

  lemma SurvivorsKeep(s: seq<Slot>)
    requires DistinctFds(s) && DistinctBuffers(s)
    ensures DistinctFds(Survivors(s)) && DistinctBuffers(Survivors(s))
  {
    var at := SurvivorsAre(s);
  }

  // --- Every sequence of operations ------------------------------------------------------

  lemma RemovedKeeps(s: seq<Slot>, fd: int)
    requires DistinctFds(s) && DistinctBuffers(s)
    ensures DistinctFds(Removed(s, fd)) && DistinctBuffers(Removed(s, fd))
  {
  }

  lemma AddedKeeps(s: seq<Slot>, fd: int, listenOnly: bool, handle: nat)
    requires DistinctFds(s) && DistinctBuffers(s) && handle !in Buffers(s) && fd >= 0
    ensures DistinctFds(Added(s, fd, listenOnly, handle)) && DistinctBuffers(Added(s, fd, listenOnly, handle))
  {
    assert forall i :: 0 <= i < |s| && s[i].buffer.Some? ==> s[i].buffer.value in Buffers(s);
  }

  /**
   A descriptor that is added starts like a new connection, whatever its slot held before; the others are left
   alone.
   */
  lemma AddedStartsFresh(s: seq<Slot>, fd: int, listenOnly: bool, handle: nat)
    requires DistinctFds(s) && fd >= 0
    ensures var t, p := Added(s, fd, listenOnly, handle), FindFd(s, fd);
            && p < |t| && t[p].fd == fd && (t[p].buffer.None? <==> listenOnly)
            && (p < |s| && s[p].buffer.Some? && !listenOnly ==> t[p].buffer == s[p].buffer)
            && t[p].mode == NEW_CONN.mode && t[p].id == NEW_CONN.id && t[p].off == |NEW_CONN.pending|
            && t[p].chunksize == NEW_CONN.chunk && t[p].quota == NEW_CONN.quota
            && (forall i :: 0 <= i < |t| && i != p ==> i < |s| && t[i] == s[i] && t[i].fd != fd)
  {
  }

  /** A descriptor that is removed is gone after the next cleanup; every other one is still there with its state. */
  lemma RemovedIsGone(s: seq<Slot>, fd: int)
    requires DistinctFds(s) && fd >= 0
    ensures forall x :: x in Survivors(Removed(s, fd)) <==> x in s && x.fd >= 0 && x.fd != fd
  {
    var r := Removed(s, fd);
    var at := SurvivorsAre(r);
    forall x | x in Survivors(r) ensures x in s && x.fd >= 0 && x.fd != fd {
      var k :| 0 <= k < |at| && Survivors(r)[k] == x;
      assert r[at[k]] == x && s[at[k]].fd >= 0;
      GoneFrom(s, fd, at[k]);
    }
    forall x | x in s && x.fd >= 0 && x.fd != fd ensures x in Survivors(r) {
      var i :| 0 <= i < |s| && s[i] == x;
      assert r[i] == x;
      var k :| 0 <= k < |at| && at[k] == i;
      assert Survivors(r)[k] == x;
    }
  }

  lemma GoneFrom(s: seq<Slot>, fd: int, i: nat)
    requires DistinctFds(s) && fd >= 0 && i < |s|
    ensures Removed(s, fd)[i].fd != fd && (Removed(s, fd)[i].fd >= 0 ==> Removed(s, fd)[i] == s[i])
  {
  }

  datatype Op = Add(fd: int, listenOnly: bool, handle: nat) | Remove(fd: int) | Cleanup

  function Apply(s: seq<Slot>, op: Op): seq<Slot> {
    match op
    case Add(fd, listenOnly, handle) => if fd < 0 then s else Added(s, fd, listenOnly, handle)
    case Remove(fd) => Removed(s, fd)
    case Cleanup => Survivors(s)
  }

  /** A new buffer's handle is not in use. */
  predicate Possible(s: seq<Slot>, ops: seq<Op>)
    decreases |ops|
  {
    ops == [] || ((ops[0].Add? ==> ops[0].handle !in Buffers(s)) && Possible(Apply(s, ops[0]), ops[1..]))
  }

  function ApplyAll(s: seq<Slot>, ops: seq<Op>): seq<Slot>
    decreases |ops|
  {
    if ops == [] then s else ApplyAll(Apply(s, ops[0]), ops[1..])
  }

  /** No descriptor and no buffer is ever in two slots. */
  lemma {:induction false} TableInvariant(s: seq<Slot>, ops: seq<Op>)
    requires DistinctFds(s) && DistinctBuffers(s) && Possible(s, ops)
    ensures DistinctFds(ApplyAll(s, ops)) && DistinctBuffers(ApplyAll(s, ops))
    decreases |ops|
  {
    hide DistinctFds, DistinctBuffers, Added, Removed, Survivors, Buffers;
    if ops != [] {
      if ops[0].Cleanup? {
        SurvivorsKeep(s);
      } else if ops[0].Remove? {
        RemovedKeeps(s, ops[0].fd);
      } else if ops[0].fd >= 0 {
        AddedKeeps(s, ops[0].fd, ops[0].listenOnly, ops[0].handle);
      }
      TableInvariant(Apply(s, ops[0]), ops[1..]);
    }
  }
}

/** The table in place: compacted and grown by the receive loop, with buffers that are freed by hand. */
module FdTables {
  import opened Options
  import opened FdSlots

  function Drop(s: seq<Slot>, p: nat): seq<Slot>
    requires p < |s|
  {
    s[..p] + s[p + 1..]
  }

  lemma DropKeeps(s: seq<Slot>, p: nat)
    requires p < |s| && DistinctBuffers(s)
    ensures DistinctBuffers(Drop(s, p))
    ensures Buffers(Drop(s, p)) == Buffers(s) - if s[p].buffer.Some? then {s[p].buffer.value} else {}
  {
    var d := Drop(s, p);
    forall h | h in Buffers(s) && Some(h) != s[p].buffer ensures h in Buffers(d) {
      var i :| 0 <= i < |s| && s[i].buffer == Some(h);
      assert d[if i < p then i else i - 1] == s[i];
    }
    forall h | h in Buffers(d) ensures h in Buffers(s) && Some(h) != s[p].buffer {
      var i :| 0 <= i < |d| && d[i].buffer == Some(h);
      assert d[i] == s[if i < p then i else i + 1];
    }
  }

  /** Midway through the table: `kept` are the survivors so far, and no buffer is held twice. */
  ghost predicate Compacting(s: seq<Slot>, i: nat, kept: seq<Slot>) {
    i <= |s| && kept == Survivors(s[..i]) && DistinctBuffers(kept + s[i..])
  }

  lemma NoneYet(s: seq<Slot>)
    requires DistinctBuffers(s)
    ensures Compacting(s, 0, []) && [] + s[0..] == s
  {
    assert [] + s[0..] == s;
  }

  lemma CompactNext(s: seq<Slot>, i: nat, kept: seq<Slot>)
    requires i < |s| && Compacting(s, i, kept)
    ensures var all, left := Buffers(kept + s[i..]), Buffers(kept + s[i + 1..]);
            var b := s[i].buffer;
            if s[i].fd >= 0 then Compacting(s, i + 1, kept + [s[i]]) && Buffers(kept + [s[i]] + s[i + 1..]) == all
            else
              Compacting(s, i + 1, kept) &&
              (if b.Some? then b.value in all && left == all - {b.value} else left == all)
  {
    hide DistinctBuffers, Buffers, Survivors;
    var all := kept + s[i..];
    assert s[..i + 1] == s[..i] + [s[i]];
    SurvivorsSnoc(s[..i], s[i]);
    assert all == kept + [s[i]] + s[i + 1..];
    assert all[|kept|] == s[i];
    DropKeeps(all, |kept|);
    assert Drop(all, |kept|) == kept + s[i + 1..];
    if s[i].buffer.Some? {
      BufferHeld(all, |kept|);
    }
    assert kept + [] == kept;
  }

  class FdTable {
    var buf: array<Slot>
    var nfds: nat
    var live: set<nat>           // buffers that are allocated
    var nextHandle: nat

    ghost predicate Valid()
      reads this, buf
    {
      && nfds <= buf.Length
      && DistinctFds(buf[..nfds]) && DistinctBuffers(buf[..nfds])
      && live == Buffers(buf[..nfds]) && forall h :: h in live ==> h < nextHandle
    }

    ghost function Slots(): seq<Slot>
      reads this, buf
      requires nfds <= buf.Length
    {
      buf[..nfds]
    }

    constructor ()
      ensures Valid() && Slots() == []
    {
      buf := new Slot[0];
      nfds, live, nextHandle := 0, {}, 0;
    }

    /** `free`: what is freed must be allocated. */
    method Free(h: nat)
      requires h in live
      modifies this`live
      ensures live == old(live) - {h}
    {
      live := live - {h};
    }

    method Malloc() returns (h: nat)
      modifies this`live, this`nextHandle
      ensures h == old(nextHandle) && nextHandle == h + 1 && live == old(live) + {h}
    {
      h := nextHandle;
      live, nextHandle := live + {h}, nextHandle + 1;
    }

    /** `realloc` of the table, keeping the first `n` slots */
    method Resize(n: nat, size: nat)
      requires n <= size && n <= buf.Length
      modifies this`buf
      ensures fresh(buf) && buf.Length == size && buf[..n] == old(buf[..n])
    {
      var a := new Slot[size](_ => Initial(-1, None));
      forall i | 0 <= i < n {
        a[i] := buf[i];
      }
      buf := a;
    }

    method Move(i: nat, j: nat)
      requires j <= i < nfds <= buf.Length
      modifies buf
      ensures buf[..j + 1] == old(buf[..j] + [buf[i]]) && buf[i + 1..nfds] == old(buf[i + 1..nfds])
    {
      if i != j {
        buf[j] := buf[i];
      }
    }

    /** In the first loop of `fds_cleanup`, at slot `i` */
    ghost predicate Halfway(s: seq<Slot>, i: nat, j: nat, kept: seq<Slot>)
      reads this, buf
    {
      && j == |kept| && j <= i <= nfds <= buf.Length && |s| == nfds && buf[..j] == kept && buf[i..nfds] == s[i..]
      && Compacting(s, i, kept) && live == Buffers(kept + s[i..])
    }

    method CompactOne(i: nat, j: nat, ghost s: seq<Slot>, ghost kept: seq<Slot>) returns (k: nat, ghost now: seq<Slot>)
      requires i < nfds && Halfway(s, i, j, kept)
      modifies this`live, buf
      ensures Halfway(s, i + 1, k, now)
    {
      hide Compacting, Buffers;
      CompactNext(s, i, kept);
      assert buf[i] == buf[i..nfds][0] == s[i];
      assert buf[i + 1..nfds] == buf[i..nfds][1..] == s[i + 1..];
      if buf[i].fd < 0 {
        if buf[i].buffer.Some? {
          Free(buf[i].buffer.value);
        }
        return j, kept;
      }
      Move(i, j);
      return j + 1, kept + [s[i]];
    }

    /** The first loop of `fds_cleanup`: moves the slots in use to the front and frees the other buffers. */
    method Compact() returns (j: nat)
      requires Valid()
      modifies this`live, buf
      ensures j <= nfds && buf[..j] == Survivors(old(Slots())) && live == Buffers(buf[..j])
    {
      ghost var s, kept := Slots(), [];
      NoneYet(s);
      j := 0;
      var i := 0;
      while i < nfds
        invariant 0 <= i <= nfds && Halfway(s, i, j, kept)
      {
        hide Halfway;
        j, kept := CompactOne(i, j, s, kept);
        i := i + 1;
      }
      assert s[..nfds] == s && kept + s[nfds..] == kept;
    }

    /** The second loop of `fds_cleanup` */
    method ClearFrom(j: nat)
      requires j <= nfds <= buf.Length
      modifies buf
      ensures buf[..j] == old(buf[..j])
    {
      var i := j;
      while i < nfds
        invariant j <= i <= nfds && buf[..j] == old(buf[..j])
      {
        buf[i] := buf[i].(fd := -1);
        i := i + 1;
      }
    }

    /** `fds_cleanup` */
    method Cleanup()
      requires Valid()
      modifies this`live, this`buf, this`nfds, buf
      ensures Valid() && Slots() == Survivors(old(Slots()))
      ensures fresh(buf) || buf == old(buf)
    {
      hide DistinctBuffers, Buffers, Survivors, DistinctFds;
      ghost var s := Slots();
      SurvivorsKeep(s);
      SurvivorBuffers(s);
      var j := Compact();
      if j == nfds {
        return;
      }
      ClearFrom(j);
      Resize(j, j);
      nfds := j;
    }

    /** `fds_remove` */
    method Remove(fd: int)
      requires Valid()
      modifies buf
      ensures Valid() && Slots() == Removed(old(Slots()), fd)
    {
      ghost var s := Slots();
      RemovedKeeps(s, fd);
      var i := 0;
      while i < nfds
        invariant 0 <= i <= nfds && buf[..] == old(buf[..]) && forall k :: 0 <= k < i ==> s[k].fd != fd
      {
        if buf[i].fd == fd {
          assert FindFd(s, fd) == i;
          buf[i] := buf[i].(fd := -1);
          assert buf[..nfds] == s[i := s[i].(fd := -1)];
          SameBuffers(s, i, -1);
          return;
        }
        i := i + 1;
      }
    }

    /** The part of `buf_init` about the buffer: it is kept, allocated or freed. */
    method InitBuffer(kept: Option<nat>, listenOnly: bool) returns (buffer: Option<nat>)
      requires kept.Some? ==> kept.value in live
      modifies this`live, this`nextHandle
      ensures buffer == if listenOnly then None else if kept.Some? then kept else Some(old(nextHandle))
      ensures live == (if listenOnly && kept.Some? then old(live) - {kept.value}
                       else if !listenOnly && kept.None? then old(live) + {old(nextHandle)} else old(live))
      ensures old(nextHandle) <= nextHandle && (!listenOnly && kept.None? ==> nextHandle == old(nextHandle) + 1)
    {
      buffer := kept;
      if !listenOnly {
        if kept.None? {
          var h := Malloc();
          buffer := Some(h);
        }
      } else {
        if kept.Some? {
          Free(kept.value);
        }
        buffer := None;
      }
    }

    /** `fds_add`, when memory can be had */
    method Add(fd: int, listenOnly: bool) returns (ok: bool)
      requires Valid()
      modifies this, buf
      ensures ok == (fd >= 0) && Valid()
      ensures Slots() == if ok then Added(old(Slots()), fd, listenOnly, old(nextHandle)) else old(Slots())
      ensures fresh(buf) || buf == old(buf)
    {
      hide DistinctBuffers, DistinctFds, Buffers;
      if fd < 0 {
        return false;
      }
      ghost var s, handle := Slots(), nextHandle;
      AddedKeeps(s, fd, listenOnly, handle);
      var n: nat := 0;
      while n < nfds && buf[n].fd != fd
        invariant 0 <= n <= nfds && forall k :: 0 <= k < n ==> s[k].fd != fd
      {
        n := n + 1;
      }
      FoundFd(s, fd, n);
      AddedBuffers(s, fd, listenOnly, handle);
      if n < nfds {
        if buf[n].buffer.Some? {
          BufferHeld(s, n);
        }
        var buffer := InitBuffer(buf[n].buffer, listenOnly);
        buf[n] := Initial(fd, buffer);
        assert buf[..nfds] == s[n := Initial(fd, buffer)];
        return true;
      }
      Resize(nfds, nfds + 1);
      var buffer := InitBuffer(None, listenOnly);
      buf[nfds] := Initial(fd, buffer);
      nfds := nfds + 1;
      assert buf[..nfds] == s + [Initial(fd, buffer)];
      return true;
    }
  }

  lemma FoundFd(s: seq<Slot>, fd: int, n: nat)
    requires n <= |s| && (n < |s| ==> s[n].fd == fd) && forall k :: 0 <= k < n ==> s[k].fd != fd
    ensures FindFd(s, fd) == n
  {
  }

  /** Which buffers the table has after `fds_add` */
  lemma AddedBuffers(s: seq<Slot>, fd: int, listenOnly: bool, handle: nat)
    requires DistinctBuffers(s) && handle !in Buffers(s)
    ensures var p := FindFd(s, fd);
            var kept := if p < |s| then s[p].buffer else None;
            Buffers(Added(s, fd, listenOnly, handle)) ==
              (if listenOnly && kept.Some? then Buffers(s) - {kept.value}
               else if !listenOnly && kept.None? then Buffers(s) + {handle} else Buffers(s))
  {
    hide Buffers, DistinctBuffers, FindFd, Drop;
    var p, t := FindFd(s, fd), Added(s, fd, listenOnly, handle);
    if p < |s| {
      DropKeeps(s, p);
      DropSame(s, t, p);
      if s[p].buffer.Some? {
        BufferHeld(s, p);
      }
    } else {
      DropSame(t, t, p);
      DropLast(s, t[p]);
    }
  }

  lemma DropLast(s: seq<Slot>, x: Slot)
    ensures Drop(s + [x], |s|) == s
  {
  }

  /** The buffers of a table are those of one slot and of the others. */
  lemma DropSame(s: seq<Slot>, t: seq<Slot>, p: nat)
    requires p < |s| == |t| && forall i :: 0 <= i < |s| && i != p ==> t[i] == s[i]
    ensures Buffers(t) == Buffers(Drop(s, p)) + if t[p].buffer.Some? then {t[p].buffer.value} else {}
  {
    var d := Drop(s, p);
    forall h | h in Buffers(t) && Some(h) != t[p].buffer ensures h in Buffers(d) {
      var i :| 0 <= i < |t| && t[i].buffer == Some(h);
      assert d[if i < p then i else i - 1] == t[i];
    }
    forall h | h in Buffers(d) ensures h in Buffers(t) {
      var i :| 0 <= i < |d| && d[i].buffer == Some(h);
      assert d[i] == t[if i < p then i else i + 1];
    }
  }

  lemma BufferHeld(s: seq<Slot>, p: nat)
    requires p < |s| && s[p].buffer.Some?
    ensures s[p].buffer.value in Buffers(s)
  {
  }

  lemma SameBuffers(s: seq<Slot>, p: nat, fd: int)
    requires p < |s|
    ensures Buffers(s[p := s[p].(fd := fd)]) == Buffers(s)
  {
    var t := s[p := s[p].(fd := fd)];
    assert forall i :: 0 <= i < |s| ==> t[i].buffer == s[i].buffer;
  }

  lemma SurvivorBuffers(s: seq<Slot>)
    ensures Buffers(Survivors(s)) <= Buffers(s)
  {
    var at := SurvivorsAre(s);
    forall h | h in Buffers(Survivors(s)) ensures h in Buffers(s) {
      var k :| 0 <= k < |Survivors(s)| && Survivors(s)[k].buffer == Some(h);
      assert s[at[k]].buffer == Some(h);
    }
  }
}
