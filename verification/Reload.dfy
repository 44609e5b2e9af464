/**
 Who holds a reference to which scan engine. An engine is freed when its count reaches zero.
 */
module EngineRefs {
  import opened Options
  import opened WorkPicker

  type Engine = nat

  datatype Dispatcher = RecvLoop | ByJob(job: Job)

  /** A connection object handed to the pool; it holds a reference to its engine until its job ends. */
  datatype Conn = Conn(job: Job, engine: Engine, accepted: bool, from: Dispatcher)

  /** A STATS job keeps an engine alive while it reads the memory use. */
  datatype Pin = Pin(holder: Job, engine: Engine)

  /** A reload thread that has not published its result. */
  datatype Loader = Loader(settings: bool, engine: Option<Engine>)

  datatype Holds = Holds(
    refs: map<Engine, nat>,      // every engine ever created; zero: freed
    current: Option<Engine>,     // `engine` of the receive loop
    offered: Option<Engine>,       // `g_newengine`
    loaders: seq<Loader>,
    conns: seq<Conn>,
    pins: seq<Pin>,
    slots: map<Job, Engine>)     // `engine` of each worker's task descriptor, by its job; absent: NULL

  function Ref(refs: map<Engine, nat>, e: Engine): nat {
    if e in refs then refs[e] else 0
  }

  function AddRef(refs: map<Engine, nat>, e: Engine): map<Engine, nat> {
    refs[e := Ref(refs, e) + 1]
  }

  /** `cl_engine_free` */
  function FreeRef(refs: map<Engine, nat>, e: Engine): map<Engine, nat> {
    if Ref(refs, e) == 0 then refs else refs[e := Ref(refs, e) - 1]
  }

  predicate Freed(refs: map<Engine, nat>, e: Engine) {
    e in refs && refs[e] == 0
  }

  /** No freed engine comes back. */
  ghost predicate StaysFreed(refs: map<Engine, nat>, refs': map<Engine, nat>) {
    forall e :: Freed(refs, e) ==> Freed(refs', e)
  }

  function One(o: Option<Engine>, e: Engine): nat {
    if o == Some(e) then 1 else 0
  }

  function LoaderCount(loaders: seq<Loader>, e: Engine): nat {
    if loaders == [] then 0
    else LoaderCount(loaders[..|loaders| - 1], e) + One(loaders[|loaders| - 1].engine, e)
  }

  function ConnCount(conns: seq<Conn>, e: Engine): nat {
    if conns == [] then 0
    else ConnCount(conns[..|conns| - 1], e) + if conns[|conns| - 1].engine == e then 1 else 0
  }

  function PinCount(pins: seq<Pin>, e: Engine): nat {
    if pins == [] then 0
    else PinCount(pins[..|pins| - 1], e) + if pins[|pins| - 1].engine == e then 1 else 0
  }

  function Owners(h: Holds, e: Engine): nat {
    One(h.current, e) + One(h.offered, e) + LoaderCount(h.loaders, e) + ConnCount(h.conns, e) + PinCount(h.pins, e)
  }

  /** Every reference count is the number of owners. */
  ghost predicate RefsExact(h: Holds) {
    forall e :: Ref(h.refs, e) == Owners(h, e)
  }

  function RemoveAt<T>(s: seq<T>, i: nat): seq<T>
    requires i < |s|
  {
    s[..i] + s[i + 1..]
  }

  lemma {:induction false} ConnRemoved(conns: seq<Conn>, i: nat, e: Engine)
    requires i < |conns|
    ensures ConnCount(conns, e) == ConnCount(RemoveAt(conns, i), e) + if conns[i].engine == e then 1 else 0
    decreases |conns|
  {
    var n := |conns| - 1;
    if i == n {
      assert RemoveAt(conns, i) == conns[..n];
    } else {
      assert RemoveAt(conns, i)[..n - 1] == RemoveAt(conns[..n], i);
      ConnRemoved(conns[..n], i, e);
    }
  }

  lemma {:induction false} PinRemoved(pins: seq<Pin>, i: nat, e: Engine)
    requires i < |pins|
    ensures PinCount(pins, e) == PinCount(RemoveAt(pins, i), e) + if pins[i].engine == e then 1 else 0
    decreases |pins|
  {
    var n := |pins| - 1;
    if i == n {
      assert RemoveAt(pins, i) == pins[..n];
    } else {
      assert RemoveAt(pins, i)[..n - 1] == RemoveAt(pins[..n], i);
      PinRemoved(pins[..n], i, e);
    }
  }

  lemma {:induction false} ConnMarked(conns: seq<Conn>, i: nat, e: Engine)
    requires i < |conns|
    ensures ConnCount(conns[i := conns[i].(accepted := true)], e) == ConnCount(conns, e)
    decreases |conns|
  {
    var n := |conns| - 1;
    var marked := conns[i := conns[i].(accepted := true)];
    if i == n {
      assert marked[..n] == conns[..n];
    } else {
      assert marked[..n] == conns[..n][i := conns[i].(accepted := true)];
      ConnMarked(conns[..n], i, e);
    }
  }

  /** Whoever holds an engine finds it alive. */
  lemma HeldIsAlive(h: Holds)
    requires RefsExact(h)
    ensures h.current.Some? ==> Ref(h.refs, h.current.value) > 0
    ensures h.offered.Some? ==> Ref(h.refs, h.offered.value) > 0
    ensures forall i :: 0 <= i < |h.conns| ==> Ref(h.refs, h.conns[i].engine) > 0
    ensures forall i :: 0 <= i < |h.pins| ==> Ref(h.refs, h.pins[i].engine) > 0
  {
    forall i | 0 <= i < |h.conns| ensures Ref(h.refs, h.conns[i].engine) > 0 {
      ConnRemoved(h.conns, i, h.conns[i].engine);
    }
    forall i | 0 <= i < |h.pins| ensures Ref(h.refs, h.pins[i].engine) > 0 {
      PinRemoved(h.pins, i, h.pins[i].engine);
    }
  }

  // --- Operations on holders -------------------------------------------------------

  function AddConn(h: Holds, c: Conn): Holds {
    h.(refs := AddRef(h.refs, c.engine), conns := h.conns + [c])
  }

  function DropConn(h: Holds, i: nat): Holds
    requires i < |h.conns|
  {
    h.(refs := FreeRef(h.refs, h.conns[i].engine), conns := RemoveAt(h.conns, i))
  }

  function MarkConn(h: Holds, i: nat): Holds
    requires i < |h.conns|
  {
    h.(conns := h.conns[i := h.conns[i].(accepted := true)])
  }

  function AddPin(h: Holds, p: Pin): Holds {
    h.(refs := AddRef(h.refs, p.engine), pins := h.pins + [p])
  }

  function DropPin(h: Holds, i: nat): Holds
    requires i < |h.pins|
  {
    h.(refs := FreeRef(h.refs, h.pins[i].engine), pins := RemoveAt(h.pins, i))
  }

  function DropCurrent(h: Holds): Holds {
    match h.current
    case None => h
    case Some(e) => h.(refs := FreeRef(h.refs, e), current := None)
  }

  function StartLoader(h: Holds, settings: bool): Holds {
    h.(loaders := h.loaders + [Loader(settings, None)])
  }

  /** The last loader creates its engine, with one reference. */
  function CreateEngine(h: Holds, e: Engine): Holds
    requires h.loaders != []
  {
    var n := |h.loaders| - 1;
    h.(refs := h.refs[e := 1], loaders := h.loaders[n := h.loaders[n].(engine := Some(e))])
  }

  /** The last loader ends: it hands its engine over, or frees it. */
  function Publish(h: Holds, ok: bool): Holds
    requires h.loaders != []
  {
    var n := |h.loaders| - 1;
    var made := h.loaders[n].engine;
    var h' := h.(loaders := h.loaders[..n], offered := None);
    if made.None? then h'
    else if ok then h'.(offered := made)
    else h'.(refs := FreeRef(h.refs, made.value))
  }

  /** The receive loop takes the new engine over; the old one is freed only when reloads are concurrent. */
  function Activate(h: Holds, concurrent: bool): Holds {
    if h.offered.None? then h
    else (if concurrent then DropCurrent(h) else h).(current := h.offered, offered := None)
  }

  /** An added reference is counted, and revives an engine exactly when it was freed. */
  lemma ConnAddedExact(h: Holds, c: Conn)
    requires RefsExact(h)
    ensures RefsExact(AddConn(h, c))
    ensures StaysFreed(h.refs, AddConn(h, c).refs) <==> !Freed(h.refs, c.engine)
  {
    assert !Freed(AddConn(h, c).refs, c.engine);
    assert (h.conns + [c])[..|h.conns|] == h.conns;
    forall e ensures Ref(AddConn(h, c).refs, e) == Owners(AddConn(h, c), e) {
      assert Ref(h.refs, e) == Owners(h, e);
    }
  }

  lemma ConnDroppedExact(h: Holds, i: nat)
    requires RefsExact(h) && i < |h.conns|
    ensures RefsExact(DropConn(h, i)) && StaysFreed(h.refs, DropConn(h, i).refs)
  {
    forall e ensures Ref(DropConn(h, i).refs, e) == Owners(DropConn(h, i), e) {
      assert Ref(h.refs, e) == Owners(h, e);
      ConnRemoved(h.conns, i, e);
    }
  }

  lemma ConnMarkedExact(h: Holds, i: nat)
    requires RefsExact(h) && i < |h.conns|
    ensures RefsExact(MarkConn(h, i))
  {
    forall e ensures Ref(MarkConn(h, i).refs, e) == Owners(MarkConn(h, i), e) {
      assert Ref(h.refs, e) == Owners(h, e);
      ConnMarked(h.conns, i, e);
    }
  }

  lemma PinAddedExact(h: Holds, p: Pin)
    requires RefsExact(h)
    ensures RefsExact(AddPin(h, p))
    ensures StaysFreed(h.refs, AddPin(h, p).refs) <==> !Freed(h.refs, p.engine)
  {
    assert !Freed(AddPin(h, p).refs, p.engine);
    assert (h.pins + [p])[..|h.pins|] == h.pins;
    forall e ensures Ref(AddPin(h, p).refs, e) == Owners(AddPin(h, p), e) {
      assert Ref(h.refs, e) == Owners(h, e);
    }
  }

  lemma PinDroppedExact(h: Holds, i: nat)
    requires RefsExact(h) && i < |h.pins|
    ensures RefsExact(DropPin(h, i)) && StaysFreed(h.refs, DropPin(h, i).refs)
  {
    forall e ensures Ref(DropPin(h, i).refs, e) == Owners(DropPin(h, i), e) {
      assert Ref(h.refs, e) == Owners(h, e);
      PinRemoved(h.pins, i, e);
    }
  }

  lemma CurrentDroppedExact(h: Holds)
    requires RefsExact(h)
    ensures RefsExact(DropCurrent(h)) && StaysFreed(h.refs, DropCurrent(h).refs)
  {
    forall e ensures Ref(DropCurrent(h).refs, e) == Owners(DropCurrent(h), e) {
      assert Ref(h.refs, e) == Owners(h, e);
    }
  }

  lemma LoaderStartedExact(h: Holds, settings: bool)
    requires RefsExact(h)
    ensures RefsExact(StartLoader(h, settings))
  {
    var h' := StartLoader(h, settings);
    assert h'.loaders[..|h.loaders|] == h.loaders;
    forall e ensures Ref(h'.refs, e) == Owners(h', e) {
      assert Ref(h.refs, e) == Owners(h, e);
    }
  }

  lemma EngineCreatedExact(h: Holds, e: Engine)
    requires RefsExact(h) && h.loaders != [] && h.loaders[|h.loaders| - 1].engine == None && e !in h.refs
    ensures RefsExact(CreateEngine(h, e)) && StaysFreed(h.refs, CreateEngine(h, e).refs)
  {
    var n := |h.loaders| - 1;
    var h' := CreateEngine(h, e);
    assert h'.loaders[..n] == h.loaders[..n];
    forall d ensures Ref(h'.refs, d) == Owners(h', d) {
      assert Ref(h.refs, d) == Owners(h, d);
    }
  }

  lemma PublishedExact(h: Holds, ok: bool)
    requires RefsExact(h) && h.loaders != [] && h.offered == None
    ensures RefsExact(Publish(h, ok)) && StaysFreed(h.refs, Publish(h, ok).refs)
  {
    forall e ensures Ref(Publish(h, ok).refs, e) == Owners(Publish(h, ok), e) {
      assert Ref(h.refs, e) == Owners(h, e);
    }
  }

  lemma ActivatedExact(h: Holds, concurrent: bool)
    requires RefsExact(h) && (!concurrent && h.offered.Some? ==> h.current == None)
    ensures RefsExact(Activate(h, concurrent)) && StaysFreed(h.refs, Activate(h, concurrent).refs)
  {
    CurrentDroppedExact(h);
    var d := if concurrent then DropCurrent(h) else h;
    forall e ensures Ref(Activate(h, concurrent).refs, e) == Owners(Activate(h, concurrent), e) {
      assert Ref(d.refs, e) == Owners(d, e);
    }
  }
}

/**
 Database reload: the receive loop with its three stages, the reload thread, and the jobs
 of the thread pool that keep using the engine they started with. One action is one region
 under the lock that protects what it changes; any action may come between two others.
 */
module ReloadMachine {
  import opened Options
  import opened WorkPicker
  import opened PoolModel
  import opened EngineRefs

  datatype Stage = Idle | Reloading | NewDbAvailable

  /** Where the receive loop is. */
  datatype Pc =
    | Head                          // serving connections, at the top of its loop
    | Dispatching                   // inside thrmgr_dispatch with a new connection object
    | SettingUp                     // in reload_db, engine still in place
    | AwaitThreads(settings: bool)  // in thrmgr_wait_for_threads
    | Spawning(settings: bool)      // about to create the reload thread
    | Joining                       // waiting for the reload thread to end

  datatype Sys = Sys(concurrent: bool, pool: Pool, h: Holds, reload: bool, stage: Stage, pc: Pc)

  datatype Act =
    // the receive loop and whoever asks for a reload
    | Request
    | BeginReload
    | SetUpFails
    | SetUp
    | ThreadsGone
    | Spawn(ok: bool)
    | Joined
    | TakeOver
    // the reload thread
    | Create(engine: Engine)
    | PublishResult(ok: bool)
    // connection objects on their way to the pool
    | RecvConn(job: Job)
    | ControllerConn(job: Job, parent: nat)
    | Submit(i: nat, bulk: bool, created: bool)
    | Resubmit(i: nat, bulk: bool, created: bool)
    | Abandon(i: nat)
    // a running job: it names its engine, takes the name back, frees its object, and returns to its worker
    | SetActive(i: nat)
    | ClearActive(i: nat)
    | DropEngine(i: nat)
    | JobEnd(job: Job)
    // a running STATS job reads the slot of any job
    | PinEngine(reader: nat, seen: Job)
    | Unpin(k: nat)
    // a worker of the pool moves, or a running job claims or releases a MULTISCAN slot
    | PoolMove(s: Step)

  predicate InFlight(p: Pool, job: Job) {
    job in p.q.single || job in p.q.bulk || job in p.w.running
  }

  /** No connection object carries this job. */
  predicate Unused(h: Holds, job: Job) {
    forall i :: 0 <= i < |h.conns| ==> h.conns[i].job != job
  }

  predicate Fresh(s: Sys, job: Job) {
    Unused(s.h, job) && !InFlight(s.pool, job)
  }

  predicate PendingAt(h: Holds, i: nat) {
    i < |h.conns| && !h.conns[i].accepted
  }

  predicate RunningAt(s: Sys, i: nat) {
    i < |s.h.conns| && s.h.conns[i].accepted && s.h.conns[i].job in s.pool.w.running
  }

  /** A job is through with its command once it neither dispatches to the pool nor holds a pin. */
  predicate CommandDone(h: Holds, job: Job) {
    && (forall i :: 0 <= i < |h.conns| && !h.conns[i].accepted ==> h.conns[i].from != ByJob(job))
    && (forall k :: 0 <= k < |h.pins| ==> h.pins[k].holder != job)
  }

  predicate IsControl(a: Act) {
    a.Request? || a.BeginReload? || a.SetUpFails? || a.SetUp? || a.ThreadsGone? || a.Spawn? || a.Joined? ||
    a.TakeOver? || a.Create? || a.PublishResult?
  }

  predicate Enabled(s: Sys, a: Act) {
    match a
    case Request => true
    case BeginReload => s.pc == Head && s.reload && s.stage == Idle
    case SetUpFails => s.pc == SettingUp
    case SetUp => s.pc == SettingUp
    case ThreadsGone => s.pc.AwaitThreads? && s.pool.w.alive == 0
    case Spawn(_) => s.pc.Spawning?
    case Joined => s.pc == Joining && s.h.loaders == []
    case TakeOver => s.pc == Head && s.reload && s.stage == NewDbAvailable
    case Create(e) => s.h.loaders != [] && s.h.loaders[|s.h.loaders| - 1] == Loader(true, None) && e !in s.h.refs
    case PublishResult(_) => s.h.loaders != []
    case RecvConn(job) => s.pc == Head && s.h.current.Some? && Fresh(s, job)
    case ControllerConn(job, parent) => RunningAt(s, parent) && Fresh(s, job)
    case Submit(i, _, _) => PendingAt(s.h, i)
    case Resubmit(i, bulk, created) =>
      PendingAt(s.h, i) && PoolModel.Enabled(s.pool, Retry(s.h.conns[i].job, bulk, created, Outside))
    case Abandon(i) => PendingAt(s.h, i)
    case SetActive(i) => RunningAt(s, i)
    case ClearActive(i) => RunningAt(s, i)
    case DropEngine(i) =>
      RunningAt(s, i) && CommandDone(s.h, s.h.conns[i].job) && s.h.conns[i].job !in s.h.slots
    case JobEnd(job) => Unused(s.h, job) && PoolModel.Enabled(s.pool, Finish(job))
    case PinEngine(reader, seen) => RunningAt(s, reader) && seen in s.h.slots
    case Unpin(k) => k < |s.h.pins|
    case PoolMove(step) =>
      PoolModel.Enabled(s.pool, step) && !IsDispatch(step) && !step.Finish?
  }

  function NextControl(s: Sys, a: Act): Sys
    requires Enabled(s, a) && IsControl(a)
  {
    match a
    case Request => s.(reload := true)
    case BeginReload => s.(stage := Reloading, pc := SettingUp)
    case SetUpFails => s.(reload := false, stage := Idle, pc := Head)
    case SetUp =>
      if s.h.current.Some? && !s.concurrent
      then s.(h := DropCurrent(s.h), pc := AwaitThreads(true))
      else s.(pc := Spawning(s.h.current.Some?))
    case ThreadsGone => s.(pc := Spawning(s.pc.settings))
    case Spawn(ok) =>
      if ok then s.(h := StartLoader(s.h, s.pc.settings), pc := if s.concurrent then Head else Joining)
      else s.(reload := false, stage := Idle, pc := Head)
    case Joined => s.(pc := Head)
    case TakeOver => s.(h := Activate(s.h, s.concurrent), stage := Idle, reload := false)
    case Create(e) => s.(h := CreateEngine(s.h, e))
    case PublishResult(ok) => s.(h := Publish(s.h, ok), stage := NewDbAvailable)
  }

  function AfterDispatch(s: Sys, i: nat): Pc
    requires i < |s.h.conns|
  {
    if s.h.conns[i].from == RecvLoop then Head else s.pc
  }

  function NextSubmit(s: Sys, i: nat, bulk: bool, step: Step): Sys
    requires PendingAt(s.h, i) && IsDispatch(step) && PoolModel.Enabled(s.pool, step)
  {
    if Contended(s.pool, bulk) then s.(pool := PoolModel.Next(s.pool, step))
    else s.(pool := PoolModel.Next(s.pool, step), h := MarkConn(s.h, i), pc := AfterDispatch(s, i))
  }

  function NextJob(s: Sys, a: Act): Sys
    requires Enabled(s, a) && !IsControl(a)
  {
    match a
    case RecvConn(job) => s.(h := AddConn(s.h, Conn(job, s.h.current.value, false, RecvLoop)), pc := Dispatching)
    case ControllerConn(job, parent) =>
      var c := s.h.conns[parent];
      s.(h := AddConn(s.h, Conn(job, c.engine, false, ByJob(c.job))))
    case Submit(i, bulk, created) => NextSubmit(s, i, bulk, Arrive(s.h.conns[i].job, bulk, created, Outside))
    case Resubmit(i, bulk, created) => NextSubmit(s, i, bulk, Retry(s.h.conns[i].job, bulk, created, Outside))
    case Abandon(i) => s.(h := DropConn(s.h, i), pc := AfterDispatch(s, i))
    case SetActive(i) => s.(h := s.h.(slots := s.h.slots[s.h.conns[i].job := s.h.conns[i].engine]))
    case ClearActive(i) => s.(h := s.h.(slots := s.h.slots - {s.h.conns[i].job}))
    case DropEngine(i) => s.(h := DropConn(s.h, i))
    case JobEnd(job) => s.(pool := PoolModel.Next(s.pool, Finish(job)))
    case PinEngine(reader, seen) => s.(h := AddPin(s.h, Pin(s.h.conns[reader].job, s.h.slots[seen])))
    case Unpin(k) => s.(h := DropPin(s.h, k))
    case PoolMove(step) => s.(pool := PoolModel.Next(s.pool, step))
  }

  function Next(s: Sys, a: Act): Sys
    requires Enabled(s, a)
  {
    if IsControl(a) then NextControl(s, a) else NextJob(s, a)
  }

  function Exec(s: Sys, acts: seq<Act>): Option<Sys>
    decreases |acts|
  {
    if acts == [] then Some(s)
    else if Enabled(s, acts[0]) then Exec(Next(s, acts[0]), acts[1..])
    else None
  }

  lemma {:induction false} ExecSnoc(s: Sys, acts: seq<Act>, r: Sys, a: Act)
    requires Exec(s, acts) == Some(r) && Enabled(r, a)
    ensures Exec(s, acts + [a]) == Some(Next(r, a))
    decreases |acts|
  {
    if acts == [] {
      assert (acts + [a])[1..] == [];
    } else {
      assert (acts + [a])[1..] == acts[1..] + [a];
      ExecSnoc(Next(s, acts[0]), acts[1..], r, a);
    }
  }

  /** clamd when its receive loop starts, with a loaded engine. */
  function Start(concurrent: bool, pool: Pool, engine: Engine): Sys {
    Sys(concurrent, pool, Holds(map[engine := 1], Some(engine), None, [], [], [], map[]), false, Idle, Head)
  }

  // --- Stages and reference counts ---------------------------------------------------

  ghost predicate Between(s: Sys) {
    s.pc == SettingUp || s.pc.AwaitThreads? || s.pc.Spawning?
  }

  /** A reload that is past giving up the old engine, if it does so at all. */
  ghost predicate EngineDropped(s: Sys) {
    s.pc.AwaitThreads? || s.pc.Spawning? || s.pc == Joining || s.h.loaders != [] || s.stage == NewDbAvailable
  }

  /** The stages, the flag, the new engine and the reload thread agree. */
  ghost predicate StagesAgree(s: Sys) {
    && (s.stage != Idle ==> s.reload)
    && (s.h.offered.Some? ==> s.stage == NewDbAvailable)
    && |s.h.loaders| <= 1
    && (s.h.loaders != [] || Between(s) ==> s.stage == Reloading)
    && (Between(s) ==> s.h.loaders == [])
    && (s.pc.AwaitThreads? ==> s.pc.settings)
    && (s.concurrent ==> s.h.current.Some? && !s.pc.AwaitThreads? && s.pc != Joining)
    && (!s.concurrent && EngineDropped(s) ==> s.h.current == None)
  }

  lemma ControlExact(s: Sys, a: Act)
    requires RefsExact(s.h) && StagesAgree(s) && Enabled(s, a) && IsControl(a)
    ensures RefsExact(NextControl(s, a).h) && StaysFreed(s.h.refs, NextControl(s, a).h.refs)
  {
    match a
    case SetUp => CurrentDroppedExact(s.h);
    case Spawn(ok) => LoaderStartedExact(s.h, s.pc.settings);
    case TakeOver => ActivatedExact(s.h, s.concurrent);
    case Create(e) => EngineCreatedExact(s.h, e);
    case PublishResult(ok) => PublishedExact(s.h, ok);
    case _ =>
  }

  lemma ControlStages(s: Sys, a: Act)
    requires StagesAgree(s) && Enabled(s, a) && IsControl(a)
    ensures StagesAgree(NextControl(s, a))
  {
  }

  // --- Jobs, connection objects, slots and pins --------------------------------------

  predicate PendingFromRecv(c: Conn) {
    !c.accepted && c.from == RecvLoop
  }

  ghost predicate Apart(conns: seq<Conn>) {
    && (forall i, j :: 0 <= i < j < |conns| ==> conns[i].job != conns[j].job)
    && (forall i, j :: 0 <= i < j < |conns| ==> !(PendingFromRecv(conns[i]) && PendingFromRecv(conns[j])))
  }

  /** The connection object of an accepted job is still there. */
  ghost predicate HasConn(conns: seq<Conn>, job: Job) {
    exists i :: 0 <= i < |conns| && conns[i].accepted && conns[i].job == job
  }

  /** A job in the pool is a name used once, and a job that waits there has its object. */
  ghost predicate JobsKnown(conns: seq<Conn>, queued: multiset<Job>, running: multiset<Job>) {
    && (forall j :: queued[j] + running[j] <= 1)
    && (forall j :: j in queued ==> HasConn(conns, j))
  }

  ghost predicate ConnPlaced(c: Conn, conns: seq<Conn>, queued: multiset<Job>, running: multiset<Job>,
      dispatching: bool)
  {
    if c.accepted then c.job in queued || c.job in running
    else
      && c.job !in queued && c.job !in running
      && match c.from
         case RecvLoop => dispatching
         case ByJob(j) => j in running && HasConn(conns, j)
  }

  /** Connection objects and pins belong to threads that are there. */
  ghost predicate Placed(conns: seq<Conn>, pins: seq<Pin>, queued: multiset<Job>, running: multiset<Job>,
      dispatching: bool)
  {
    && Apart(conns)
    && JobsKnown(conns, queued, running)
    && (forall i :: 0 <= i < |conns| ==> ConnPlaced(conns[i], conns, queued, running, dispatching))
    && (forall k :: 0 <= k < |pins| ==> pins[k].holder in running && HasConn(conns, pins[k].holder))
  }

  ghost predicate JobsPlaced(s: Sys) {
    Placed(s.h.conns, s.h.pins, Queued(s.pool.q), s.pool.w.running, s.pc == Dispatching)
  }

  /** The job holds this engine through its own connection object. */
  ghost predicate HeldBy(conns: seq<Conn>, job: Job, e: Engine) {
    exists i :: 0 <= i < |conns| && conns[i].accepted && conns[i].job == job && conns[i].engine == e
  }

  /** A set slot belongs to a running job and names an engine that this job still holds. */
  ghost predicate SlotsHeld(h: Holds, running: multiset<Job>) {
    forall j :: j in h.slots ==> j in running && HeldBy(h.conns, j, h.slots[j])
  }

  ghost predicate Inv(s: Sys) {
    PoolModel.Inv(s.pool) && RefsExact(s.h) && StagesAgree(s) && JobsPlaced(s) && SlotsHeld(s.h, s.pool.w.running)
  }

  lemma ControlPlaced(s: Sys, a: Act)
    requires JobsPlaced(s) && Enabled(s, a) && IsControl(a)
    ensures JobsPlaced(NextControl(s, a)) && NextControl(s, a).pool == s.pool
    ensures NextControl(s, a).h.conns == s.h.conns && NextControl(s, a).h.slots == s.h.slots
  {
    hide Placed, Queued, NextControl;
    ControlFrame(s, a);
  }

  lemma ControlFrame(s: Sys, a: Act)
    requires Enabled(s, a) && IsControl(a)
    ensures var s' := NextControl(s, a);
            && s'.pool == s.pool && s'.h.conns == s.h.conns && s'.h.pins == s.h.pins && s'.h.slots == s.h.slots
            && (s'.pc == s.pc || (s.pc != Dispatching && s'.pc != Dispatching))
  {
    hide Ref;
  }

  /** What a step of the pool does to its jobs. */
  lemma PoolJobs(p: Pool, step: Step)
    requires PoolModel.Inv(p) && PoolModel.Enabled(p, step) && !step.Finish?
    ensures var p' := PoolModel.Next(p, step);
            && PoolModel.Inv(p')
            && (if Accepts(p, step) then Queued(p'.q) == Queued(p.q) + multiset{step.job} && p'.w.running == p.w.running
                else Moved(Queued(p.q), p.w.running, Queued(p'.q), p'.w.running))
  {
    hide PoolModel.Inv, Contended, Dispatch, Look, Queued;
    StepKeeps(p, step);
    match step
    case Arrive(job, bulk, created, caller) => DispatchJobs(p, job, bulk, created, caller);
    case Retry(job, bulk, created, caller) =>
      GateApart(p, Return(p.gate, bulk, caller), bulk);
      DispatchJobs(p.(gate := Return(p.gate, bulk, caller)), job, bulk, created, caller);
    case Enter => LookJobs(p.(w := ClockIn(p.w)));
    case Wake => LookJobs(p);
    case _ =>
  }

  /** Jobs only go from the queues to the workers. */
  ghost predicate Moved(queued: multiset<Job>, running: multiset<Job>, queued': multiset<Job>,
      running': multiset<Job>)
  {
    running <= running' &&
    forall j :: queued'[j] <= queued[j] && queued'[j] + running'[j] == queued[j] + running[j]
  }

  lemma DispatchJobs(p: Pool, job: Job, bulk: bool, created: bool, caller: Caller)
    ensures var p' := Dispatch(p, job, bulk, created, caller);
            && p.w.running == p'.w.running
            && Queued(p'.q) == if Contended(p, bulk) then Queued(p.q) else Queued(p.q) + multiset{job}
  {
    if !Contended(p, bulk) {
      var q' := Add(p.q, job, bulk);
      assert Queued(q') == Queued(p.q) + multiset{job};
    }
  }

  lemma LookJobs(p: Pool)
    requires p.w.waiting > 0
    ensures Moved(Queued(p.q), p.w.running, Queued(Look(p).q), Look(p).w.running)
  {
    hide Take, Taken, Signal, Contended, Queued;
    TakeQueued(p.q);
  }

  lemma TakeQueued(q: Queues)
    ensures Queued(q) == Queued(Take(q)) + if Taken(q).Some? then multiset{Taken(q).value} else multiset{}
  {
    match Choose(q)
    case Nothing =>
    case FromSingle => assert q.single == [q.single[0]] + q.single[1..];
    case FromBulk => assert q.bulk == [q.bulk[0]] + q.bulk[1..];
  }

  lemma MovedPlaced(conns: seq<Conn>, pins: seq<Pin>, queued: multiset<Job>, running: multiset<Job>,
      queued': multiset<Job>, running': multiset<Job>, dispatching: bool)
    requires Placed(conns, pins, queued, running, dispatching) && Moved(queued, running, queued', running')
    ensures Placed(conns, pins, queued', running', dispatching)
  {
    hide Apart, HasConn;
    forall i | 0 <= i < |conns| ensures ConnPlaced(conns[i], conns, queued', running', dispatching) {
      assert ConnPlaced(conns[i], conns, queued, running, dispatching);
    }
  }

  lemma MarkedHas(conns: seq<Conn>, i: nat, job: Job)
    requires i < |conns| && (HasConn(conns, job) || conns[i].job == job)
    ensures HasConn(conns[i := conns[i].(accepted := true)], job)
  {
    var conns' := conns[i := conns[i].(accepted := true)];
    if HasConn(conns, job) {
      var k :| 0 <= k < |conns| && conns[k].accepted && conns[k].job == job;
      assert conns'[k].accepted && conns'[k].job == job;
    } else {
      assert conns'[i].accepted && conns'[i].job == job;
    }
  }

  lemma MarkedPlaced(h: Holds, i: nat, queued: multiset<Job>, running: multiset<Job>, dispatching: bool)
    requires Placed(h.conns, h.pins, queued, running, dispatching) && PendingAt(h, i)
    ensures Placed(MarkConn(h, i).conns, h.pins, queued + multiset{h.conns[i].job}, running,
                   if h.conns[i].from == RecvLoop then false else dispatching)
  {
    hide HasConn;
    var conns, conns', job := h.conns, MarkConn(h, i).conns, h.conns[i].job;
    var d := if conns[i].from == RecvLoop then false else dispatching;
    assert ConnPlaced(conns[i], conns, queued, running, dispatching);
    forall j | HasConn(conns, j) || j == job ensures HasConn(conns', j) {
      MarkedHas(conns, i, j);
    }
    forall j | 0 <= j < |conns'| ensures ConnPlaced(conns'[j], conns', queued + multiset{job}, running, d) {
      assert ConnPlaced(conns[j], conns, queued, running, dispatching);
      assert j < i || j == i || i < j;
    }
  }

  lemma RemovedHas(conns: seq<Conn>, i: nat, job: Job)
    requires i < |conns| && HasConn(conns, job) && job != conns[i].job
    ensures HasConn(RemoveAt(conns, i), job)
  {
    var k :| 0 <= k < |conns| && conns[k].accepted && conns[k].job == job;
    assert RemoveAt(conns, i)[if k < i then k else k - 1] == conns[k];
  }

  lemma RemovedApart(conns: seq<Conn>, i: nat)
    requires Apart(conns) && i < |conns|
    ensures Apart(RemoveAt(conns, i))
  {
    var conns' := RemoveAt(conns, i);
    forall j | 0 <= j < |conns'| ensures conns'[j] == conns[if j < i then j else j + 1] {
    }
  }

  /** An object leaves: one that was never accepted, or that of a running job that is through with its command. */
  lemma DroppedPlaced(h: Holds, i: nat, queued: multiset<Job>, running: multiset<Job>, dispatching: bool)
    requires Placed(h.conns, h.pins, queued, running, dispatching) && i < |h.conns|
    requires h.conns[i].accepted ==> h.conns[i].job in running && CommandDone(h, h.conns[i].job)
    ensures Placed(RemoveAt(h.conns, i), h.pins, queued, running,
                   if PendingFromRecv(h.conns[i]) then false else dispatching)
  {
    hide HasConn, Apart;
    var conns, conns' := h.conns, RemoveAt(h.conns, i);
    var d := if PendingFromRecv(conns[i]) then false else dispatching;
    RemovedApart(conns, i);
    NotNeeded(h, i, queued, running, dispatching);
    forall j | HasConn(conns, j) && j != conns[i].job ensures HasConn(conns', j) {
      RemovedHas(conns, i, j);
    }
    forall j | 0 <= j < |conns'| ensures ConnPlaced(conns'[j], conns', queued, running, d) {
      var k := if j < i then j else j + 1;
      assert conns'[j] == conns[k];
      OtherPlaced(h, i, k, queued, running, dispatching);
    }
  }

  /** Nobody waits for, dispatches for or pins under the job of an object that leaves. */
  lemma NotNeeded(h: Holds, i: nat, queued: multiset<Job>, running: multiset<Job>, dispatching: bool)
    requires Placed(h.conns, h.pins, queued, running, dispatching) && i < |h.conns|
    requires h.conns[i].accepted ==> h.conns[i].job in running && CommandDone(h, h.conns[i].job)
    ensures h.conns[i].job !in queued
    ensures forall k :: 0 <= k < |h.pins| ==> h.pins[k].holder != h.conns[i].job
    ensures forall k :: 0 <= k < |h.conns| && !h.conns[k].accepted ==> h.conns[k].from != ByJob(h.conns[i].job)
  {
    hide HasConn, Apart;
    assert ConnPlaced(h.conns[i], h.conns, queued, running, dispatching);
    forall k | 0 <= k < |h.conns| && !h.conns[k].accepted ensures h.conns[k].from != ByJob(h.conns[i].job) {
      assert ConnPlaced(h.conns[k], h.conns, queued, running, dispatching);
    }
  }

  lemma OtherPlaced(h: Holds, i: nat, k: nat, queued: multiset<Job>, running: multiset<Job>, dispatching: bool)
    requires Placed(h.conns, h.pins, queued, running, dispatching) && i < |h.conns| && k < |h.conns| && i != k
    requires !h.conns[k].accepted ==> h.conns[k].from != ByJob(h.conns[i].job)
    ensures ConnPlaced(h.conns[k], RemoveAt(h.conns, i), queued, running,
                       if PendingFromRecv(h.conns[i]) then false else dispatching)
  {
    hide HasConn;
    var c := h.conns[k];
    assert ConnPlaced(c, h.conns, queued, running, dispatching);
    assert k < i || i < k;
    if !c.accepted && c.from.ByJob? {
      RemovedHas(h.conns, i, c.from.job);
    }
  }

  /** A job without an object returns to its worker. */
  lemma EndedPlaced(h: Holds, job: Job, queued: multiset<Job>, running: multiset<Job>, dispatching: bool)
    requires Placed(h.conns, h.pins, queued, running, dispatching) && Unused(h, job)
    ensures Placed(h.conns, h.pins, queued, running - multiset{job}, dispatching)
  {
    assert !HasConn(h.conns, job);
    hide HasConn, Apart;
    forall i | 0 <= i < |h.conns|
      ensures ConnPlaced(h.conns[i], h.conns, queued, running - multiset{job}, dispatching)
    {
      assert ConnPlaced(h.conns[i], h.conns, queued, running, dispatching);
    }
  }

  lemma AddedHas(conns: seq<Conn>, c: Conn, job: Job)
    requires HasConn(conns, job)
    ensures HasConn(conns + [c], job)
  {
    var k :| 0 <= k < |conns| && conns[k].accepted && conns[k].job == job;
    assert (conns + [c])[k] == conns[k];
  }

  lemma AddedPlaced(h: Holds, c: Conn, queued: multiset<Job>, running: multiset<Job>, dispatching: bool)
    requires Placed(h.conns, h.pins, queued, running, dispatching)
    requires !c.accepted && Unused(h, c.job) && c.job !in queued && c.job !in running
    requires match c.from
             case RecvLoop => !dispatching
             case ByJob(j) => j in running && HasConn(h.conns, j)
    ensures Placed(h.conns + [c], h.pins, queued, running, dispatching || c.from == RecvLoop)
  {
    hide HasConn;
    var conns' := h.conns + [c];
    forall j | HasConn(h.conns, j) ensures HasConn(conns', j) {
      AddedHas(h.conns, c, j);
    }
    forall i | 0 <= i < |conns'|
      ensures ConnPlaced(conns'[i], conns', queued, running, dispatching || c.from == RecvLoop)
    {
      if i < |h.conns| {
        assert ConnPlaced(h.conns[i], h.conns, queued, running, dispatching);
      }
    }
    forall i | 0 <= i < |h.conns| ensures !(PendingFromRecv(h.conns[i]) && PendingFromRecv(c)) {
      assert ConnPlaced(h.conns[i], h.conns, queued, running, dispatching);
    }
  }

  lemma PinnedPlaced(h: Holds, pin: Pin, queued: multiset<Job>, running: multiset<Job>, dispatching: bool)
    requires Placed(h.conns, h.pins, queued, running, dispatching)
    requires pin.holder in running && HasConn(h.conns, pin.holder)
    ensures Placed(h.conns, h.pins + [pin], queued, running, dispatching)
  {
    hide HasConn, Apart, JobsKnown, ConnPlaced;
  }

  lemma UnpinnedPlaced(h: Holds, k: nat, queued: multiset<Job>, running: multiset<Job>, dispatching: bool)
    requires Placed(h.conns, h.pins, queued, running, dispatching) && k < |h.pins|
    ensures Placed(h.conns, RemoveAt(h.pins, k), queued, running, dispatching)
  {
    hide HasConn, Apart, JobsKnown, ConnPlaced;
  }

  lemma SubmitPlaced(s: Sys, i: nat, bulk: bool, step: Step)
    requires PoolModel.Inv(s.pool) && JobsPlaced(s) && PendingAt(s.h, i) && PoolModel.Enabled(s.pool, step)
    requires IsDispatch(step) && step.job == s.h.conns[i].job && step.bulk == bulk
    ensures PoolModel.Inv(NextSubmit(s, i, bulk, step).pool) && JobsPlaced(NextSubmit(s, i, bulk, step))
    ensures s.pool.w.running <= NextSubmit(s, i, bulk, step).pool.w.running
  {
    hide PoolModel.Inv, PoolModel.Next, PoolModel.Enabled, Contended, Queued, Placed;
    PoolJobs(s.pool, step);
    var p' := PoolModel.Next(s.pool, step);
    if Contended(s.pool, bulk) {
      MovedPlaced(s.h.conns, s.h.pins, Queued(s.pool.q), s.pool.w.running, Queued(p'.q), p'.w.running,
          s.pc == Dispatching);
    } else {
      MarkedPlaced(s.h, i, Queued(s.pool.q), s.pool.w.running, s.pc == Dispatching);
    }
  }

  lemma EndPlaced(s: Sys, job: Job)
    requires PoolModel.Inv(s.pool) && JobsPlaced(s) && Enabled(s, JobEnd(job))
    ensures var s' := NextJob(s, JobEnd(job));
            PoolModel.Inv(s'.pool) && JobsPlaced(s') && s'.pool.w.running == s.pool.w.running - multiset{job}
  {
    hide PoolModel.Inv, Queued, Placed;
    StepKeeps(s.pool, Finish(job));
    EndedPlaced(s.h, job, Queued(s.pool.q), s.pool.w.running, s.pc == Dispatching);
  }

  lemma FreshJob(s: Sys, job: Job)
    requires Fresh(s, job)
    ensures job !in Queued(s.pool.q) && job !in s.pool.w.running
  {
  }

  lemma JobPlaced(s: Sys, a: Act)
    requires PoolModel.Inv(s.pool) && JobsPlaced(s) && Enabled(s, a) && !IsControl(a)
    ensures PoolModel.Inv(NextJob(s, a).pool) && JobsPlaced(NextJob(s, a))
    ensures !a.JobEnd? ==> s.pool.w.running <= NextJob(s, a).pool.w.running
  {
    hide PoolModel.Inv, PoolModel.Next, Contended, Queued, Placed, InFlight;
    var s' := NextJob(s, a);
    var queued, running, dispatching := Queued(s.pool.q), s.pool.w.running, s.pc == Dispatching;
    match a
    case RecvConn(job) =>
      FreshJob(s, job);
      AddedPlaced(s.h, Conn(job, s.h.current.value, false, RecvLoop), queued, running, dispatching);
    case ControllerConn(job, parent) =>
      FreshJob(s, job);
      AddedPlaced(s.h, Conn(job, s.h.conns[parent].engine, false, ByJob(s.h.conns[parent].job)), queued, running,
          dispatching);
    case Submit(i, bulk, created) => SubmitPlaced(s, i, bulk, Arrive(s.h.conns[i].job, bulk, created, Outside));
    case Resubmit(i, bulk, created) => SubmitPlaced(s, i, bulk, Retry(s.h.conns[i].job, bulk, created, Outside));
    case Abandon(i) => DroppedPlaced(s.h, i, queued, running, dispatching);
    case SetActive(_) =>
    case ClearActive(_) =>
    case DropEngine(i) => DroppedPlaced(s.h, i, queued, running, dispatching);
    case JobEnd(job) => EndPlaced(s, job);
    case PinEngine(reader, seen) =>
      PinnedPlaced(s.h, Pin(s.h.conns[reader].job, s.h.slots[seen]), queued, running, dispatching);
    case Unpin(k) => UnpinnedPlaced(s.h, k, queued, running, dispatching);
    case PoolMove(step) =>
      PoolJobs(s.pool, step);
      MovedPlaced(s.h.conns, s.h.pins, queued, running, Queued(s'.pool.q), s'.pool.w.running, dispatching);
  }

  // --- Slots ---------------------------------------------------------------------------

  lemma AddedHeld(conns: seq<Conn>, c: Conn, job: Job, e: Engine)
    requires HeldBy(conns, job, e)
    ensures HeldBy(conns + [c], job, e)
  {
    var k :| 0 <= k < |conns| && conns[k].accepted && conns[k].job == job && conns[k].engine == e;
    assert (conns + [c])[k] == conns[k];
  }

  lemma MarkedHeld(conns: seq<Conn>, i: nat, job: Job, e: Engine)
    requires i < |conns| && HeldBy(conns, job, e)
    ensures HeldBy(conns[i := conns[i].(accepted := true)], job, e)
  {
    var k :| 0 <= k < |conns| && conns[k].accepted && conns[k].job == job && conns[k].engine == e;
    var c := conns[i := conns[i].(accepted := true)][k];
    assert c.accepted && c.job == job && c.engine == e;
  }

  lemma RemovedHeld(conns: seq<Conn>, i: nat, job: Job, e: Engine)
    requires i < |conns| && HeldBy(conns, job, e) && (conns[i].accepted ==> conns[i].job != job)
    ensures HeldBy(RemoveAt(conns, i), job, e)
  {
    var k :| 0 <= k < |conns| && conns[k].accepted && conns[k].job == job && conns[k].engine == e;
    assert RemoveAt(conns, i)[if k < i then k else k - 1] == conns[k];
  }

  lemma SlotsAfterAdd(h: Holds, c: Conn, running: multiset<Job>)
    requires SlotsHeld(h, running)
    ensures SlotsHeld(AddConn(h, c), running)
  {
    hide HeldBy;
    forall j | j in h.slots ensures HeldBy(h.conns + [c], j, h.slots[j]) {
      AddedHeld(h.conns, c, j, h.slots[j]);
    }
  }

  lemma SlotsAfterMark(h: Holds, i: nat, running: multiset<Job>)
    requires SlotsHeld(h, running) && i < |h.conns|
    ensures SlotsHeld(MarkConn(h, i), running)
  {
    hide HeldBy;
    forall j | j in h.slots ensures HeldBy(MarkConn(h, i).conns, j, h.slots[j]) {
      MarkedHeld(h.conns, i, j, h.slots[j]);
    }
  }

  /** The slot has to be cleared before the object is freed. */
  lemma SlotsAfterDrop(h: Holds, i: nat, running: multiset<Job>)
    requires SlotsHeld(h, running) && i < |h.conns| && (h.conns[i].accepted ==> h.conns[i].job !in h.slots)
    ensures SlotsHeld(DropConn(h, i), running)
  {
    hide HeldBy;
    forall j | j in h.slots ensures HeldBy(RemoveAt(h.conns, i), j, h.slots[j]) {
      RemovedHeld(h.conns, i, j, h.slots[j]);
    }
  }

  lemma SlotsAfterEnd(h: Holds, job: Job, running: multiset<Job>)
    requires SlotsHeld(h, running) && Unused(h, job)
    ensures SlotsHeld(h, running - multiset{job})
  {
    forall j | j in h.slots ensures j in running - multiset{job} {
      assert j in running && HeldBy(h.conns, j, h.slots[j]);
    }
  }

  lemma SlotsAfterSubmit(s: Sys, i: nat, bulk: bool, step: Step)
    requires PoolModel.Inv(s.pool) && JobsPlaced(s) && PendingAt(s.h, i) && PoolModel.Enabled(s.pool, step)
    requires IsDispatch(step) && step.job == s.h.conns[i].job && step.bulk == bulk
    requires SlotsHeld(s.h, s.pool.w.running)
    ensures var s' := NextSubmit(s, i, bulk, step); SlotsHeld(s'.h, s'.pool.w.running)
  {
    hide PoolModel.Inv, PoolModel.Next, PoolModel.Enabled, Contended, JobsPlaced, HeldBy;
    SubmitPlaced(s, i, bulk, step);
    SlotsAfterMark(s.h, i, s.pool.w.running);
  }

  lemma JobSlots(s: Sys, a: Act)
    requires PoolModel.Inv(s.pool) && JobsPlaced(s) && SlotsHeld(s.h, s.pool.w.running)
    requires Enabled(s, a) && !IsControl(a)
    ensures SlotsHeld(NextJob(s, a).h, NextJob(s, a).pool.w.running)
  {
    hide PoolModel.Inv, PoolModel.Next, Contended, JobsPlaced, InFlight;
    var running := s.pool.w.running;
    match a
    case RecvConn(job) => SlotsAfterAdd(s.h, Conn(job, s.h.current.value, false, RecvLoop), running);
    case ControllerConn(job, parent) =>
      SlotsAfterAdd(s.h, Conn(job, s.h.conns[parent].engine, false, ByJob(s.h.conns[parent].job)), running);
    case Submit(i, bulk, created) => SlotsAfterSubmit(s, i, bulk, Arrive(s.h.conns[i].job, bulk, created, Outside));
    case Resubmit(i, bulk, created) => SlotsAfterSubmit(s, i, bulk, Retry(s.h.conns[i].job, bulk, created, Outside));
    case Abandon(i) => SlotsAfterDrop(s.h, i, running);
    case SetActive(i) => assert HeldBy(s.h.conns, s.h.conns[i].job, s.h.conns[i].engine);
    case ClearActive(i) =>
    case DropEngine(i) => SlotsAfterDrop(s.h, i, running);
    case JobEnd(job) =>
      EndPlaced(s, job);
      SlotsAfterEnd(s.h, job, running);
    case PinEngine(_, _) =>
    case Unpin(_) =>
    case PoolMove(_) => JobPlaced(s, a);
  }

  lemma HeldAlive(h: Holds, job: Job, e: Engine)
    requires RefsExact(h) && HeldBy(h.conns, job, e)
    ensures Ref(h.refs, e) > 0
  {
    hide RefsExact;
    HeldIsAlive(h);
  }

  // --- Every action keeps the invariant ------------------------------------------------

  predicate Takes(a: Act) {
    a.RecvConn? || a.ControllerConn? || a.PinEngine?
  }

  /** Whoever takes a reference takes it to an engine that is alive. */
  lemma TakenIsAlive(s: Sys, a: Act)
    requires RefsExact(s.h) && SlotsHeld(s.h, s.pool.w.running) && Enabled(s, a) && Takes(a)
    ensures RefsExact(NextJob(s, a).h) && StaysFreed(s.h.refs, NextJob(s, a).h.refs)
  {
    hide RefsExact, StaysFreed, HeldBy, InFlight;
    match a
    case RecvConn(job) =>
      HeldIsAlive(s.h);
      ConnAddedExact(s.h, Conn(job, s.h.current.value, false, RecvLoop));
    case ControllerConn(job, parent) =>
      HeldIsAlive(s.h);
      ConnAddedExact(s.h, Conn(job, s.h.conns[parent].engine, false, ByJob(s.h.conns[parent].job)));
    case PinEngine(reader, seen) =>
      HeldAlive(s.h, seen, s.h.slots[seen]);
      PinAddedExact(s.h, Pin(s.h.conns[reader].job, s.h.slots[seen]));
  }

  lemma JobExact(s: Sys, a: Act)
    requires RefsExact(s.h) && SlotsHeld(s.h, s.pool.w.running) && Enabled(s, a) && !IsControl(a)
    ensures RefsExact(NextJob(s, a).h) && StaysFreed(s.h.refs, NextJob(s, a).h.refs)
  {
    hide RefsExact, HeldBy, PoolModel.Next, PoolModel.Enabled, Contended, InFlight;
    if Takes(a) {
      TakenIsAlive(s, a);
    } else {
      match a
      case Submit(i, _, _) => ConnMarkedExact(s.h, i);
      case Resubmit(i, _, _) => ConnMarkedExact(s.h, i);
      case Abandon(i) => ConnDroppedExact(s.h, i);
      case SetActive(i) => SlotsApart(s.h, NextJob(s, a).h);
      case ClearActive(i) => SlotsApart(s.h, NextJob(s, a).h);
      case DropEngine(i) => ConnDroppedExact(s.h, i);
      case Unpin(k) => PinDroppedExact(s.h, k);
      case _ =>
    }
  }

  /** A slot is a name, not an owner. */
  lemma SlotsApart(h: Holds, h': Holds)
    requires RefsExact(h) && h' == h.(slots := h'.slots)
    ensures RefsExact(h')
  {
    forall e ensures Ref(h'.refs, e) == Owners(h', e) {
      assert Ref(h.refs, e) == Owners(h, e);
    }
  }

  lemma JobKeepsStages(s: Sys, a: Act)
    requires StagesAgree(s) && JobsPlaced(s) && Enabled(s, a) && !IsControl(a)
    ensures StagesAgree(NextJob(s, a))
  {
    hide PoolModel.Next, PoolModel.Enabled, Contended, Ref, Apart, Queued, HasConn, JobsKnown, InFlight;
    var s' := NextJob(s, a);
    if PendingExample(s, a).Some? {
      assert ConnPlaced(s.h.conns[PendingExample(s, a).value], s.h.conns, Queued(s.pool.q), s.pool.w.running,
                        s.pc == Dispatching);
    }
    assert s'.pc == s.pc || (s.pc == Head && s'.pc == Dispatching) || (s.pc == Dispatching && s'.pc == Head);
  }

  ghost function PendingExample(s: Sys, a: Act): Option<nat>
    requires Enabled(s, a) && !IsControl(a)
  {
    match a
    case Submit(i, _, _) => Some(i)
    case Resubmit(i, _, _) => Some(i)
    case Abandon(i) => Some(i)
    case _ => None
  }

  lemma ActKeeps(s: Sys, a: Act)
    requires Inv(s) && Enabled(s, a)
    ensures Inv(Next(s, a)) && Next(s, a).concurrent == s.concurrent
    ensures StaysFreed(s.h.refs, Next(s, a).h.refs)
  {
    hide PoolModel.Inv, RefsExact, StagesAgree, JobsPlaced, StaysFreed, Enabled, PoolModel.Next;
    if IsControl(a) {
      ControlExact(s, a);
      ControlStages(s, a);
      ControlPlaced(s, a);
      ControlMode(s, a);
    } else {
      JobExact(s, a);
      JobKeepsStages(s, a);
      JobPlaced(s, a);
      JobSlots(s, a);
      JobMode(s, a);
    }
  }

  lemma ControlMode(s: Sys, a: Act)
    requires Enabled(s, a) && IsControl(a)
    ensures NextControl(s, a).concurrent == s.concurrent
  {
  }

  lemma JobMode(s: Sys, a: Act)
    requires Enabled(s, a) && !IsControl(a)
    ensures NextJob(s, a).concurrent == s.concurrent
  {
    hide PoolModel.Next, PoolModel.Enabled, Contended, InFlight;
  }

  lemma {:induction false} RunKeeps(s: Sys, acts: seq<Act>, r: Sys)
    requires Inv(s) && Exec(s, acts) == Some(r)
    ensures Inv(r) && r.concurrent == s.concurrent && StaysFreed(s.h.refs, r.h.refs)
    decreases |acts|
  {
    hide Inv, Next, Enabled;
    if acts != [] {
      ActKeeps(s, acts[0]);
      RunKeeps(Next(s, acts[0]), acts[1..], r);
    }
  }

  lemma StartInv(concurrent: bool, maxThreads: int, maxQueue: int, engine: Engine)
    requires maxThreads > 0
    ensures Inv(Start(concurrent, NewPool(maxThreads, maxQueue).value, engine))
    ensures !Orphaned(NewPool(maxThreads, maxQueue).value)
  {
    hide NewPool, PoolModel.Inv;
    var s := Start(concurrent, NewPool(maxThreads, maxQueue).value, engine);
    FreshPool(maxThreads, maxQueue);
    EmptyJobs(s.pool);
    forall e ensures Ref(s.h.refs, e) == Owners(s.h, e) {
    }
  }

  lemma EmptyJobs(p: Pool)
    requires PoolModel.Inv(p) && p.w.alive == 0 && Items(p.q) == 0
    ensures Queued(p.q) == multiset{} && p.w.running == multiset{}
  {
    assert |p.w.running| == 0;
  }

  // --- Safety over every run -------------------------------------------------------------

  ghost predicate Reaches(concurrent: bool, maxThreads: int, maxQueue: int, engine: Engine, acts: seq<Act>, r: Sys) {
    && NewPool(maxThreads, maxQueue).Some?
    && Exec(Start(concurrent, NewPool(maxThreads, maxQueue).value, engine), acts) == Some(r)
  }

  lemma PoolExists(maxThreads: int, maxQueue: int)
    ensures NewPool(maxThreads, maxQueue).Some? <==> maxThreads > 0
  {
    hide NewPool;
  }

  lemma ReachedInv(concurrent: bool, maxThreads: int, maxQueue: int, engine: Engine, acts: seq<Act>, r: Sys)
    requires Reaches(concurrent, maxThreads, maxQueue, engine, acts, r)
    ensures Inv(r) && r.concurrent == concurrent
  {
    hide Inv, Exec;
    StartInv(concurrent, maxThreads, maxQueue, engine);
    RunKeeps(Start(concurrent, NewPool(maxThreads, maxQueue).value, engine), acts, r);
  }

  /**
   Over every run: at most one reload thread has not published, the new engine is set only when a
   new database is announced, and no stage but idle is left with the reload flag down. Every
   reference count is the number of owners. A job's slot is set only while the job holds that engine
   itself, so what STATS reads there is alive; and whatever happens next, an engine once freed is
   never referenced again.
   */
  lemma ReloadSafety(concurrent: bool, maxThreads: int, maxQueue: int, engine: Engine, acts: seq<Act>, r: Sys)
    requires Reaches(concurrent, maxThreads, maxQueue, engine, acts, r)
    ensures |r.h.loaders| <= 1
    ensures r.h.offered.Some? ==> r.stage == NewDbAvailable
    ensures r.stage != Idle ==> r.reload
    ensures forall e :: Ref(r.h.refs, e) == Owners(r.h, e)
    ensures r.h.current.Some? ==> Ref(r.h.refs, r.h.current.value) > 0
    ensures forall i :: 0 <= i < |r.h.conns| ==> Ref(r.h.refs, r.h.conns[i].engine) > 0
    ensures forall i :: 0 <= i < |r.h.pins| ==> Ref(r.h.refs, r.h.pins[i].engine) > 0
    ensures forall j :: j in r.h.slots ==> HeldBy(r.h.conns, j, r.h.slots[j]) && Ref(r.h.refs, r.h.slots[j]) > 0
    ensures forall more :: Exec(r, more).Some? ==> StaysFreed(r.h.refs, Exec(r, more).value.h.refs)
  {
    hide JobsPlaced, PoolModel.Inv, StaysFreed, HeldBy;
    ReachedInv(concurrent, maxThreads, maxQueue, engine, acts, r);
    HeldIsAlive(r.h);
    forall j | j in r.h.slots ensures Ref(r.h.refs, r.h.slots[j]) > 0 {
      HeldAlive(r.h, j, r.h.slots[j]);
    }
    forall more | Exec(r, more).Some? ensures StaysFreed(r.h.refs, Exec(r, more).value.h.refs) {
      RunKeeps(r, more, Exec(r, more).value);
    }
  }

  // --- When the pool has no thread ---------------------------------------------------------

  /** Once no thread is left and no queued job either, no connection object, pin or slot is left. */
  lemma NoThreadsNoHolders(s: Sys)
    requires Inv(s) && s.pool.w.alive == 0 && !Orphaned(s.pool) && s.pc != Dispatching
    ensures s.h.conns == [] && s.h.pins == [] && s.h.slots == map[]
  {
    hide RefsExact, StagesAgree, Placed;
    EmptyJobs(s.pool);
    HoldersNeedThreads(s.h.conns, s.h.pins, Queued(s.pool.q), s.pool.w.running, false);
  }

  lemma HoldersNeedThreads(conns: seq<Conn>, pins: seq<Pin>, queued: multiset<Job>, running: multiset<Job>,
      dispatching: bool)
    requires Placed(conns, pins, queued, running, dispatching)
    ensures conns != [] ==> |queued| > 0 || |running| > 0 || dispatching
    ensures pins != [] ==> |running| > 0
  {
    if conns != [] {
      assert ConnPlaced(conns[0], conns, queued, running, dispatching);
    }
    if pins != [] {
      assert pins[0].holder in running;
    }
  }

  /** An action that puts a job into the queue. */
  predicate AcceptsJob(s: Sys, a: Act) {
    (a.Submit? || a.Resubmit?) && !Contended(s.pool, a.bulk)
  }

  lemma OrphanAct(s: Sys, a: Act)
    requires Inv(s) && Enabled(s, a)
    ensures Orphaned(Next(s, a).pool) <==>
            if AcceptsJob(s, a) then s.pool.w.alive == 0 && !a.created else Orphaned(s.pool)
  {
    hide PoolModel.Inv, PoolModel.Next, Orphaned, Contended, JobsPlaced, RefsExact, StagesAgree, InFlight;
    if IsControl(a) {
      ControlPlaced(s, a);
    } else if a.Submit? {
      OrphanStep(s.pool, Arrive(s.h.conns[a.i].job, a.bulk, a.created, Outside));
    } else if a.Resubmit? {
      OrphanStep(s.pool, Retry(s.h.conns[a.i].job, a.bulk, a.created, Outside));
    } else if a.JobEnd? {
      OrphanStep(s.pool, Finish(a.job));
    } else if a.PoolMove? {
      OrphanStep(s.pool, a.s);
    }
  }

  /** The last job accepted in this run found no thread alive and none was created for it. */
  predicate LastAlone(s: Sys, acts: seq<Act>, before: bool)
    decreases |acts|
  {
    if acts == [] then before
    else
      Enabled(s, acts[0]) &&
      LastAlone(Next(s, acts[0]), acts[1..],
                if AcceptsJob(s, acts[0]) then s.pool.w.alive == 0 && !acts[0].created else before)
  }

  lemma {:induction false} LastAloneOrphans(s: Sys, acts: seq<Act>, r: Sys)
    requires Inv(s) && Exec(s, acts) == Some(r)
    ensures Orphaned(r.pool) <==> LastAlone(s, acts, Orphaned(s.pool))
    decreases |acts|
  {
    hide Inv, Orphaned, Next, Enabled, AcceptsJob;
    if acts != [] {
      ActKeeps(s, acts[0]);
      OrphanAct(s, acts[0]);
      LastAloneOrphans(Next(s, acts[0]), acts[1..], r);
    }
  }
}
