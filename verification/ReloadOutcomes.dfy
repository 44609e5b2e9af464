/**
 What a reload does to the engines: without concurrency the old one is given up and awaited before
 the new one is loaded, and a load that fails leaves the daemon with none.
 */
module ReloadOutcomes {
  import opened Options
  import opened WorkPicker
  import opened PoolModel
  import opened EngineRefs
  import opened ReloadMachine

  /** A reload thread that will load an engine is running or about to start. */
  ghost predicate LoadAhead(s: Sys) {
    s.pc == Spawning(true) || exists i :: 0 <= i < |s.h.loaders| && s.h.loaders[i].settings
  }

  /** Everything that holds an engine holds this one. */
  ghost predicate Uniform(h: Holds, e: Engine) {
    && (h.current.Some? ==> h.current.value == e)
    && (h.offered.Some? ==> h.offered.value == e)
    && (forall i :: 0 <= i < |h.loaders| && h.loaders[i].engine.Some? ==> h.loaders[i].engine.value == e)
    && (forall i :: 0 <= i < |h.conns| ==> h.conns[i].engine == e)
    && (forall i :: 0 <= i < |h.pins| ==> h.pins[i].engine == e)
  }

  ghost predicate OneEngine(s: Sys, e: Engine) {
    && Uniform(s.h, e)
    && (LoadAhead(s) ==> s.h.conns == [] && s.h.pins == [])
  }

  lemma OneEngineControl(s: Sys, a: Act, e: Engine) returns (e': Engine)
    requires ReloadMachine.Inv(s) && !s.concurrent && ReloadMachine.Enabled(s, a) && IsControl(a) && OneEngine(s, e)
    requires a.ThreadsGone? ==> !Orphaned(s.pool)
    ensures OneEngine(NextControl(s, a), e')
  {
    hide PoolModel.Inv, Orphaned, RefsExact, JobsPlaced, SlotsHeld, Ref;
    e' := if a.Create? then a.engine else e;
    if a.ThreadsGone? {
      NoThreadsNoHolders(s);
    }
    if a.Create? {
      assert s.h.loaders[|s.h.loaders| - 1].settings;
    }
  }

  lemma OneEngineJob(s: Sys, a: Act, e: Engine)
    requires ReloadMachine.Inv(s) && !s.concurrent && ReloadMachine.Enabled(s, a) && !IsControl(a) && OneEngine(s, e)
    ensures OneEngine(NextJob(s, a), e)
  {
    hide PoolModel.Inv, PoolModel.Next, PoolModel.Enabled, Contended, RefsExact, JobsPlaced, Uniform, InFlight, HeldBy;
    UniformJob(s, a, e);
    if LoadAhead(NextJob(s, a)) {
      assert LoadAhead(s);
    }
  }

  lemma UniformJob(s: Sys, a: Act, e: Engine)
    requires ReloadMachine.Enabled(s, a) && !IsControl(a) && Uniform(s.h, e) && SlotsHeld(s.h, s.pool.w.running)
    ensures Uniform(NextJob(s, a).h, e) && NextJob(s, a).h.loaders == s.h.loaders
  {
    hide Uniform, PoolModel.Next, PoolModel.Enabled, Contended, Ref, InFlight, HeldBy;
    match a
    case RecvConn(job) => UniformAdd(s.h, Conn(job, s.h.current.value, false, RecvLoop), e);
    case ControllerConn(job, parent) =>
      var c := s.h.conns[parent];
      UniformAdd(s.h, Conn(job, c.engine, false, ByJob(c.job)), e);
    case Submit(i, _, _) => UniformMark(s.h, i, e);
    case Resubmit(i, _, _) => UniformMark(s.h, i, e);
    case Abandon(i) => UniformDrop(s.h, i, e);
    case SetActive(_) => UniformSlots(s.h, NextJob(s, a).h, e);
    case ClearActive(_) => UniformSlots(s.h, NextJob(s, a).h, e);
    case DropEngine(i) => UniformDrop(s.h, i, e);
    case JobEnd(_) =>
    case PinEngine(reader, seen) => UniformPin(s.h, s.h.conns[reader].job, seen, e);
    case Unpin(k) => UniformUnpin(s.h, k, e);
    case PoolMove(_) =>
  }

  lemma UniformAdd(h: Holds, c: Conn, e: Engine)
    requires Uniform(h, e)
    requires h.current == Some(c.engine) || exists i :: 0 <= i < |h.conns| && h.conns[i].engine == c.engine
    ensures Uniform(AddConn(h, c), e)
  {
  }

  lemma UniformMark(h: Holds, i: nat, e: Engine)
    requires Uniform(h, e) && i < |h.conns|
    ensures Uniform(MarkConn(h, i), e)
  {
  }

  lemma UniformSlots(h: Holds, h': Holds, e: Engine)
    requires Uniform(h, e) && h' == h.(slots := h'.slots)
    ensures Uniform(h', e)
  {
  }

  lemma UniformPin(h: Holds, reader: Job, seen: Job, e: Engine)
    requires Uniform(h, e) && seen in h.slots && HeldBy(h.conns, seen, h.slots[seen])
    ensures Uniform(AddPin(h, Pin(reader, h.slots[seen])), e)
  {
  }

  lemma UniformUnpin(h: Holds, k: nat, e: Engine)
    requires Uniform(h, e) && k < |h.pins|
    ensures Uniform(DropPin(h, k), e)
  {
  }

  lemma UniformDrop(h: Holds, i: nat, e: Engine)
    requires Uniform(h, e) && i < |h.conns|
    ensures Uniform(DropConn(h, i), e)
  {
  }

  /** Some wait for the threads ended while the last accepted job had met no thread and got none. */
  predicate LoadsOverOrphan(s: Sys, acts: seq<Act>, alone: bool)
    decreases |acts|
  {
    acts != [] && ReloadMachine.Enabled(s, acts[0]) &&
    ((acts[0] == ThreadsGone && alone) ||
     LoadsOverOrphan(ReloadMachine.Next(s, acts[0]), acts[1..],
                     if AcceptsJob(s, acts[0]) then s.pool.w.alive == 0 && !acts[0].created else alone))
  }

  lemma {:induction false} OneEngineRun(s: Sys, acts: seq<Act>, r: Sys, e: Engine) returns (e': Engine)
    requires ReloadMachine.Inv(s) && !s.concurrent && ReloadMachine.Exec(s, acts) == Some(r) && OneEngine(s, e)
    requires !LoadsOverOrphan(s, acts, Orphaned(s.pool))
    ensures OneEngine(r, e')
    decreases |acts|
  {
    hide ReloadMachine.Inv, OneEngine, Orphaned, ReloadMachine.Enabled, AcceptsJob, NextControl, NextJob;
    e' := e;
    if acts != [] {
      ActKeeps(s, acts[0]);
      OrphanAct(s, acts[0]);
      if IsControl(acts[0]) {
        e' := OneEngineControl(s, acts[0], e);
      } else {
        OneEngineJob(s, acts[0], e);
      }
      e' := OneEngineRun(ReloadMachine.Next(s, acts[0]), acts[1..], r, e');
    }
  }

  lemma {:induction false} CountsElsewhere(h: Holds, e: Engine, d: Engine)
    requires Uniform(h, e) && d != e
    ensures Owners(h, d) == 0
  {
    LoadersElsewhere(h.loaders, e, d);
    ConnsElsewhere(h.conns, e, d);
    PinsElsewhere(h.pins, e, d);
  }

  lemma {:induction false} LoadersElsewhere(loaders: seq<Loader>, e: Engine, d: Engine)
    requires d != e && forall i :: 0 <= i < |loaders| && loaders[i].engine.Some? ==> loaders[i].engine.value == e
    ensures LoaderCount(loaders, d) == 0
    decreases |loaders|
  {
    if loaders != [] {
      LoadersElsewhere(loaders[..|loaders| - 1], e, d);
    }
  }

  lemma {:induction false} ConnsElsewhere(conns: seq<Conn>, e: Engine, d: Engine)
    requires d != e && forall i :: 0 <= i < |conns| ==> conns[i].engine == e
    ensures ConnCount(conns, d) == 0
    decreases |conns|
  {
    if conns != [] {
      ConnsElsewhere(conns[..|conns| - 1], e, d);
    }
  }

  lemma {:induction false} PinsElsewhere(pins: seq<Pin>, e: Engine, d: Engine)
    requires d != e && forall i :: 0 <= i < |pins| ==> pins[i].engine == e
    ensures PinCount(pins, d) == 0
    decreases |pins|
  {
    if pins != [] {
      PinsElsewhere(pins[..|pins| - 1], e, d);
    }
  }

  /**
   Without concurrency at most one engine is alive at any time, unless a wait for the threads was over
   with a job accepted last that no thread was there, or could be made, to take.
   */
  lemma AtMostOneEngine(maxThreads: int, maxQueue: int, engine: Engine, acts: seq<Act>, r: Sys, d: Engine, e: Engine)
    requires ReloadMachine.Reaches(false, maxThreads, maxQueue, engine, acts, r)
    requires !LoadsOverOrphan(Start(false, NewPool(maxThreads, maxQueue).value, engine), acts, false)
    requires Ref(r.h.refs, d) > 0 && Ref(r.h.refs, e) > 0
    ensures d == e
  {
    hide NewPool, PoolModel.Inv, Orphaned, ReloadMachine.Exec, JobsPlaced, StagesAgree, LoadsOverOrphan, SlotsHeld;
    var s := Start(false, NewPool(maxThreads, maxQueue).value, engine);
    PoolExists(maxThreads, maxQueue);
    StartInv(false, maxThreads, maxQueue, engine);
    ReloadMachine.ReachedInv(false, maxThreads, maxQueue, engine, acts, r);
    var only := OneEngineRun(s, acts, r, engine);
    assert Ref(r.h.refs, d) == Owners(r.h, d) && Ref(r.h.refs, e) == Owners(r.h, e);
    if d != only { CountsElsewhere(r.h, only, d); }
    if e != only { CountsElsewhere(r.h, only, e); }
  }

  /** A job in the queue keeps its engine alive. */
  lemma OrphanHolds(s: Sys) returns (e: Engine)
    requires ReloadMachine.Inv(s) && Orphaned(s.pool)
    ensures s.h.conns != [] && Ref(s.h.refs, e) > 0
  {
    hide RefsExact, StagesAgree, PoolModel.Inv, SlotsHeld, Apart, ConnPlaced;
    var q := s.pool.q;
    var job := if q.single != [] then q.single[0] else q.bulk[0];
    assert job in Queued(q);
    assert HasConn(s.h.conns, job);
    HeldIsAlive(s.h);
    e := s.h.conns[0].engine;
  }

  /**
   When the wait for the threads is over, every engine is freed if and only if the last job accepted
   before found a thread or got one. With such a job left over, the old engine stays alive.
   */
  lemma AllReleasedIff(maxThreads: int, maxQueue: int, engine: Engine, acts: seq<Act>, r: Sys)
    requires ReloadMachine.Reaches(false, maxThreads, maxQueue, engine, acts, r)
    requires ReloadMachine.Enabled(r, ThreadsGone)
    ensures (forall e :: Ref(r.h.refs, e) == 0) <==>
            !LastAlone(Start(false, NewPool(maxThreads, maxQueue).value, engine), acts, false)
    ensures (forall e :: Ref(r.h.refs, e) == 0) <==>
            r.pool.q.single == [] && r.pool.q.bulk == [] && r.pool.w.running == multiset{}
  {
    hide ReloadMachine.Exec, JobsPlaced, SlotsHeld, LastAlone, PoolModel.Inv;
    PoolExists(maxThreads, maxQueue);
    StartInv(false, maxThreads, maxQueue, engine);
    ReloadMachine.ReachedInv(false, maxThreads, maxQueue, engine, acts, r);
    LastAloneOrphans(Start(false, NewPool(maxThreads, maxQueue).value, engine), acts, r);
    if Orphaned(r.pool) {
      var e := OrphanHolds(r);
    } else {
      NoThreadsNoHolders(r);
      EmptyJobs(r.pool);
      forall e ensures Ref(r.h.refs, e) == 0 {
        assert Ref(r.h.refs, e) == Owners(r.h, e);
      }
    }
  }

  /** In that case the next engine is loaded beside the old one. */
  lemma TwoEngines(maxThreads: int, maxQueue: int, engine: Engine, acts: seq<Act>, r: Sys, e: Engine)
    returns (r': Sys, d: Engine)
    requires ReloadMachine.Reaches(false, maxThreads, maxQueue, engine, acts, r)
    requires ReloadMachine.Enabled(r, ThreadsGone) && e !in r.h.refs
    requires LastAlone(Start(false, NewPool(maxThreads, maxQueue).value, engine), acts, false)
    ensures ReloadMachine.Exec(r, [ThreadsGone, Spawn(true), Create(e)]) == Some(r')
    ensures d != e && Ref(r'.h.refs, d) > 0 && Ref(r'.h.refs, e) > 0
  {
    hide JobsPlaced, SlotsHeld, LastAlone, PoolModel.Inv, ReloadMachine.Exec;
    PoolExists(maxThreads, maxQueue);
    StartInv(false, maxThreads, maxQueue, engine);
    ReloadMachine.ReachedInv(false, maxThreads, maxQueue, engine, acts, r);
    LastAloneOrphans(Start(false, NewPool(maxThreads, maxQueue).value, engine), acts, r);
    d := OrphanHolds(r);
    r' := LoadRun(r, e);
  }

  lemma LoadRun(r: Sys, e: Engine) returns (r': Sys)
    requires StagesAgree(r) && ReloadMachine.Enabled(r, ThreadsGone) && e !in r.h.refs
    ensures ReloadMachine.Exec(r, [ThreadsGone, Spawn(true), Create(e)]) == Some(r')
    ensures r'.h.refs == r.h.refs[e := 1]
  {
    var r1 := ReloadMachine.Next(r, ThreadsGone);
    var r2 := ReloadMachine.Next(r1, Spawn(true));
    r' := ReloadMachine.Next(r2, Create(e));
    var acts := [ThreadsGone, Spawn(true), Create(e)];
    assert acts[1..] == [Spawn(true), Create(e)] && acts[1..][1..] == [Create(e)] && acts[1..][1..][1..] == [];
    assert ReloadMachine.Exec(r2, [Create(e)]) == Some(r') by {
      assert [Create(e)][1..] == [];
    }
    assert ReloadMachine.Exec(r1, [Spawn(true), Create(e)]) == Some(r') by {
      assert [Spawn(true), Create(e)][1..] == [Create(e)];
    }
  }

  /** It does happen, in every pool that accepts a job: its thread could not be created, then a reload is asked for. */
  lemma OrphanBesideLoad(maxThreads: int, maxQueue: int, engine: Engine, e: Engine) returns (acts: seq<Act>, r: Sys)
    requires maxThreads > 0 && maxQueue > 0 && e != engine
    ensures ReloadMachine.Reaches(false, maxThreads, maxQueue, engine, acts, r)
    ensures Ref(r.h.refs, engine) > 0 && Ref(r.h.refs, e) > 0
  {
    var s := Start(false, NewPool(maxThreads, maxQueue).value, engine);
    acts, r := AcceptedAloneRun(s);
    acts, r := Perform(s, acts, r, Request);
    acts, r := Perform(s, acts, r, BeginReload);
    acts, r := Perform(s, acts, r, SetUp);
    acts, r := Perform(s, acts, r, ThreadsGone);
    acts, r := Perform(s, acts, r, Spawn(true));
    acts, r := Perform(s, acts, r, Create(e));
  }

  lemma Perform(s: Sys, acts: seq<Act>, r: Sys, a: Act) returns (acts': seq<Act>, r': Sys)
    requires ReloadMachine.Exec(s, acts) == Some(r) && ReloadMachine.Enabled(r, a)
    ensures acts' == acts + [a] && r' == ReloadMachine.Next(r, a) && ReloadMachine.Exec(s, acts') == Some(r')
  {
    ExecSnoc(s, acts, r, a);
    acts', r' := acts + [a], ReloadMachine.Next(r, a);
  }

  lemma AcceptedAloneRun(s: Sys) returns (acts: seq<Act>, r: Sys)
    requires s.pool.w.alive == s.pool.w.idle == 0 && Items(s.pool.q) == 0 && s.pool.w.running == multiset{}
    requires s.pool.queueMax > 0 && s.pc == Head && s.h.current.Some? && s.h.conns == []
    ensures ReloadMachine.Exec(s, acts) == Some(r)
    ensures r.pool.w.alive == 0 && r.pc == Head && r.stage == s.stage && r.concurrent == s.concurrent
    ensures r.h == s.h.(refs := AddRef(s.h.refs, s.h.current.value), conns := r.h.conns)
  {
    acts, r := Perform(s, [], s, RecvConn(0));
    acts, r := Perform(s, acts, r, Submit(0, false, false));
  }

  // --- Failed reloads ------------------------------------------------------------------

  /**
   A reload that failed leaves an engine in place exactly when reloads are concurrent, or when it
   failed while setting up and there was one.
   */
  lemma FailedReloadKeepsEngine(concurrent: bool, maxThreads: int, maxQueue: int, engine: Engine, acts: seq<Act>,
      r: Sys, a: Act)
    requires ReloadMachine.Reaches(concurrent, maxThreads, maxQueue, engine, acts, r) && ReloadMachine.Enabled(r, a)
    requires a == SetUpFails || a == Spawn(false) || (a == TakeOver && r.h.offered == None)
    ensures ReloadMachine.Next(r, a) == r.(stage := Idle, reload := false, pc := Head)
    ensures ReloadMachine.Next(r, a).h.current == r.h.current
    ensures ReloadMachine.Next(r, a).h.current.Some? <==> concurrent || (a == SetUpFails && r.h.current.Some?)
  {
    hide JobsPlaced, SlotsHeld, RefsExact, PoolModel.Inv, ReloadMachine.Exec;
    ReloadMachine.ReachedInv(concurrent, maxThreads, maxQueue, engine, acts, r);
  }

  /** No engine, and no reload under way that could make one. */
  ghost predicate Engineless(s: Sys) {
    && s.h.current == None && s.h.offered == None
    && (forall i :: 0 <= i < |s.h.loaders| ==> s.h.loaders[i] == Loader(false, None))
    && !s.pc.AwaitThreads? && s.pc != Spawning(true)
  }

  /** Without an engine there are no settings to copy, so no later reload succeeds. */
  lemma {:induction false} NoRecovery(s: Sys, acts: seq<Act>, r: Sys)
    requires Engineless(s) && ReloadMachine.Exec(s, acts) == Some(r)
    ensures Engineless(r)
    decreases |acts|
  {
    if acts != [] {
      EnginelessStep(s, acts[0]);
      NoRecovery(ReloadMachine.Next(s, acts[0]), acts[1..], r);
    }
  }

  lemma EnginelessStep(s: Sys, a: Act)
    requires Engineless(s) && ReloadMachine.Enabled(s, a)
    ensures Engineless(ReloadMachine.Next(s, a))
  {
    hide PoolModel.Next, PoolModel.Enabled, Contended, Ref;
  }

  /** Without concurrency one failed reload is final: the daemon never has an engine again. */
  lemma FailedReloadIsFinal(maxThreads: int, maxQueue: int, engine: Engine, acts: seq<Act>, r: Sys, a: Act,
                            more: seq<Act>, t: Sys)
    requires ReloadMachine.Reaches(false, maxThreads, maxQueue, engine, acts, r) && ReloadMachine.Enabled(r, a)
    requires (a == TakeOver && r.h.offered == None) || a == Spawn(false)
    requires ReloadMachine.Exec(ReloadMachine.Next(r, a), more) == Some(t)
    ensures t.h.current == None
  {
    ReloadMachine.ReachedInv(false, maxThreads, maxQueue, engine, acts, r);
    NoRecovery(ReloadMachine.Next(r, a), more, t);
  }

  /** Such a failure does happen: one request and a database that does not load. */
  lemma EngineLostRun(maxThreads: int, maxQueue: int, engine: Engine) returns (acts: seq<Act>, r: Sys)
    requires maxThreads > 0
    ensures ReloadMachine.Reaches(false, maxThreads, maxQueue, engine, acts, r)
    ensures r.h.current == None && r.pc == Head && r.stage == Idle
  {
    var s := Start(false, NewPool(maxThreads, maxQueue).value, engine);
    acts, r := EngineDroppedRun(s);
    acts, r := Perform(s, acts, r, Spawn(true));
    acts, r := Perform(s, acts, r, PublishResult(false));
    acts, r := Perform(s, acts, r, Joined);
    acts, r := Perform(s, acts, r, TakeOver);
  }

  lemma EngineDroppedRun(s: Sys) returns (acts: seq<Act>, r: Sys)
    requires !s.concurrent && s.pool.w.alive == 0 && s.h.current.Some? && s.h.loaders == [] && s.h.offered == None
    requires s.stage == Idle && s.pc == Head
    ensures ReloadMachine.Exec(s, acts) == Some(r) && !r.concurrent
    ensures r.h.current == None && r.h.loaders == [] && r.h.offered == None
    ensures r.stage == Reloading && r.reload && r.pc == Spawning(true) && r.h == DropCurrent(s.h)
  {
    acts, r := Perform(s, [], s, Request);
    acts, r := Perform(s, acts, r, BeginReload);
    acts, r := Perform(s, acts, r, SetUp);
    acts, r := Perform(s, acts, r, ThreadsGone);
  }

  // --- Reloads that succeed --------------------------------------------------------------

  /** The new engine has one owner until it is taken over: the reload thread, then the announcement. */
  ghost predicate Exclusive(h: Holds) {
    && (h.offered.Some? ==> Ref(h.refs, h.offered.value) == 1)
    && (h.loaders != [] && h.loaders[0].engine.Some? ==> Ref(h.refs, h.loaders[0].engine.value) == 1)
  }

  predicate NewEngine(h: Holds, e: Engine) {
    h.offered == Some(e) || (h.loaders != [] && h.loaders[0].engine == Some(e))
  }

  ghost predicate InUse(h: Holds, e: Engine) {
    || h.current == Some(e)
    || (exists i :: 0 <= i < |h.conns| && h.conns[i].engine == e)
    || (exists i :: 0 <= i < |h.pins| && h.pins[i].engine == e)
  }

  lemma LoaderCounts(loaders: seq<Loader>, e: Engine)
    requires |loaders| == 1 && loaders[0].engine == Some(e)
    ensures LoaderCount(loaders, e) == 1
  {
    assert loaders[..0] == [];
  }

  /** Nobody works with an engine that is not taken over. */
  lemma NotShared(h: Holds, e: Engine)
    requires RefsExact(h) && Exclusive(h) && |h.loaders| <= 1 && InUse(h, e)
    ensures !NewEngine(h, e)
  {
    if NewEngine(h, e) {
      assert Ref(h.refs, e) == Owners(h, e) == 1;
      if h.offered != Some(e) {
        LoaderCounts(h.loaders, e);
      }
      UsersCount(h, e);
      assert false;
    }
  }

  lemma UsersCount(h: Holds, e: Engine)
    ensures InUse(h, e) <==> One(h.current, e) + ConnCount(h.conns, e) + PinCount(h.pins, e) > 0
  {
    ConnsCount(h.conns, e);
    PinsCount(h.pins, e);
  }

  lemma {:induction false} ConnsCount(conns: seq<Conn>, e: Engine)
    ensures ConnCount(conns, e) > 0 <==> exists i :: 0 <= i < |conns| && conns[i].engine == e
    decreases |conns|
  {
    if conns != [] {
      ConnsCount(conns[..|conns| - 1], e);
    }
  }

  lemma {:induction false} PinsCount(pins: seq<Pin>, e: Engine)
    ensures PinCount(pins, e) > 0 <==> exists i :: 0 <= i < |pins| && pins[i].engine == e
    decreases |pins|
  {
    if pins != [] {
      PinsCount(pins[..|pins| - 1], e);
    }
  }

  /** The engine whose count an action of a job changes, if any. */
  function Touched(s: Sys, a: Act): Option<Engine>
    requires ReloadMachine.Enabled(s, a) && !IsControl(a)
  {
    match a
    case RecvConn(_) => s.h.current
    case ControllerConn(_, parent) => Some(s.h.conns[parent].engine)
    case Abandon(i) => Some(s.h.conns[i].engine)
    case DropEngine(i) => Some(s.h.conns[i].engine)
    case PinEngine(_, seen) => Some(s.h.slots[seen])
    case Unpin(k) => Some(s.h.pins[k].engine)
    case _ => None
  }

  lemma TouchedOnly(s: Sys, a: Act)
    requires ReloadMachine.Enabled(s, a) && !IsControl(a) && SlotsHeld(s.h, s.pool.w.running)
    ensures var h, h' := s.h, NextJob(s, a).h;
            && h'.current == h.current && h'.offered == h.offered && h'.loaders == h.loaders
            && (Touched(s, a).Some? ==> InUse(h, Touched(s, a).value))
            && (forall e: Engine :: Touched(s, a) != Some(e) ==> Ref(h'.refs, e) == Ref(h.refs, e))
  {
    hide PoolModel.Next, PoolModel.Enabled, Contended, InFlight;
    if a.PinEngine? {
      assert HeldBy(s.h.conns, a.seen, s.h.slots[a.seen]);
    }
  }

  lemma JobExclusive(s: Sys, a: Act)
    requires ReloadMachine.Inv(s) && Exclusive(s.h) && ReloadMachine.Enabled(s, a) && !IsControl(a)
    ensures Exclusive(NextJob(s, a).h)
  {
    hide PoolModel.Inv, JobsPlaced, RefsExact, SlotsHeld, NextJob, ReloadMachine.Enabled, InUse;
    TouchedOnly(s, a);
    if Touched(s, a).Some? {
      NotShared(s.h, Touched(s, a).value);
    }
  }

  lemma ControlExclusive(s: Sys, a: Act)
    requires StagesAgree(s) && Exclusive(s.h) && ReloadMachine.Enabled(s, a) && IsControl(a)
    ensures Exclusive(NextControl(s, a).h)
  {
  }

  lemma {:induction false} RunExclusive(s: Sys, acts: seq<Act>, r: Sys)
    requires ReloadMachine.Inv(s) && Exclusive(s.h) && ReloadMachine.Exec(s, acts) == Some(r)
    ensures ReloadMachine.Inv(r) && Exclusive(r.h)
    decreases |acts|
  {
    hide JobsPlaced, RefsExact, SlotsHeld, PoolModel.Inv, ReloadMachine.Enabled, NextControl, NextJob, Exclusive;
    if acts != [] {
      ActKeeps(s, acts[0]);
      if IsControl(acts[0]) {
        ControlExclusive(s, acts[0]);
      } else {
        JobExclusive(s, acts[0]);
      }
      RunExclusive(ReloadMachine.Next(s, acts[0]), acts[1..], r);
    }
  }

  lemma ReachedExclusive(concurrent: bool, maxThreads: int, maxQueue: int, engine: Engine, acts: seq<Act>, r: Sys)
    requires ReloadMachine.Reaches(concurrent, maxThreads, maxQueue, engine, acts, r)
    ensures ReloadMachine.Inv(r) && Exclusive(r.h) && r.concurrent == concurrent
  {
    hide ReloadMachine.Inv, ReloadMachine.Exec, NewPool;
    PoolExists(maxThreads, maxQueue);
    StartInv(concurrent, maxThreads, maxQueue, engine);
    ReloadMachine.ReachedInv(concurrent, maxThreads, maxQueue, engine, acts, r);
    RunExclusive(Start(concurrent, NewPool(maxThreads, maxQueue).value, engine), acts, r);
  }

  /** A result is announced: this engine, or none. */
  predicate Announced(s: Sys, made: Option<Engine>, before: Option<Engine>) {
    s.stage == NewDbAvailable && s.h.offered == made && s.h.current == before
  }

  lemma AnnouncedStays(s: Sys, a: Act, made: Option<Engine>, before: Option<Engine>)
    requires ReloadMachine.Inv(s) && ReloadMachine.Enabled(s, a) && a != TakeOver && Announced(s, made, before)
    ensures Announced(ReloadMachine.Next(s, a), made, before)
  {
    hide PoolModel.Inv, JobsPlaced, RefsExact, PoolModel.Next, PoolModel.Enabled, Contended, Ref, SlotsHeld, InFlight;
  }

  lemma {:induction false} AnnouncedUntil(s: Sys, acts: seq<Act>, r: Sys, made: Option<Engine>, before: Option<Engine>)
    requires ReloadMachine.Inv(s) && Announced(s, made, before)
    requires ReloadMachine.Exec(s, acts) == Some(r) && TakeOver !in acts
    ensures Announced(r, made, before)
    decreases |acts|
  {
    hide ReloadMachine.Inv, ReloadMachine.Enabled, ReloadMachine.Next, Announced;
    if acts != [] {
      ActKeeps(s, acts[0]);
      AnnouncedStays(s, acts[0], made, before);
      AnnouncedUntil(ReloadMachine.Next(s, acts[0]), acts[1..], r, made, before);
    }
  }

  /** A connection object or a pin keeps this engine. */
  ghost predicate Kept(h: Holds, e: Engine) {
    || (exists i :: 0 <= i < |h.conns| && h.conns[i].engine == e)
    || (exists i :: 0 <= i < |h.pins| && h.pins[i].engine == e)
  }

  /** The receive loop gives its engine up: one owner less, and freed unless somebody keeps it. */
  lemma GivenUp(h: Holds, d: Engine)
    requires RefsExact(h) && h.current == Some(d) && Exclusive(h) && |h.loaders| <= 1
    ensures var refs := DropCurrent(h).refs;
            Ref(refs, d) == Ref(h.refs, d) - 1 && (Freed(refs, d) <==> !Kept(h, d)) && !NewEngine(h, d)
  {
    assert Ref(h.refs, d) == Owners(h, d);
    NotShared(h, d);
    ConnsCount(h.conns, d);
    PinsCount(h.pins, d);
    assert LoaderCount(h.loaders, d) == 0 by {
      if |h.loaders| == 1 {
        assert h.loaders[..0] == [];
      }
    }
  }

  /**
   A reload that succeeds: whatever happens between the announcement and the take-over, the receive loop then
   works with the engine that was loaded, and with no other owner yet; the reload is over. With concurrency the
   old engine loses one owner there and is freed if and only if no connection object and no pin keeps it.
   */
  lemma SuccessfulReload(concurrent: bool, maxThreads: int, maxQueue: int, engine: Engine, acts: seq<Act>, r: Sys,
                         e: Engine, between: seq<Act>, s: Sys)
    requires ReloadMachine.Reaches(concurrent, maxThreads, maxQueue, engine, acts, r)
    requires r.h.loaders != [] && r.h.loaders[0].engine == Some(e)
    requires ReloadMachine.Exec(ReloadMachine.Next(r, PublishResult(true)), between) == Some(s)
    requires TakeOver !in between && ReloadMachine.Enabled(s, TakeOver)
    ensures var t := ReloadMachine.Next(s, TakeOver);
            && t.h.current == Some(e) && t.h.offered == None && t.stage == Idle && !t.reload && t.pc == Head
            && Ref(t.h.refs, e) == 1 && t.h.conns == s.h.conns && t.h.pins == s.h.pins
            && r.h.current.Some? == concurrent
            && (concurrent ==>
                  var d := r.h.current.value;
                  d != e && Ref(t.h.refs, d) == Ref(s.h.refs, d) - 1 && (Freed(t.h.refs, d) <==> !Kept(s.h, d)))
  {
    hide JobsPlaced, SlotsHeld, PoolModel.Inv, ReloadMachine.Exec, RefsExact, Kept, Ref;
    ReachedExclusive(concurrent, maxThreads, maxQueue, engine, acts, r);
    var r1 := ReloadMachine.Next(r, PublishResult(true));
    ActKeeps(r, PublishResult(true));
    ControlExclusive(r, PublishResult(true));
    assert Announced(r1, Some(e), r.h.current);
    AnnouncedUntil(r1, between, s, Some(e), r.h.current);
    RunExclusive(r1, between, s);
    ReloadMachine.RunKeeps(r1, between, s);
    TakenOver(s, e);
  }

  lemma TakenOver(s: Sys, e: Engine)
    requires RefsExact(s.h) && Exclusive(s.h) && StagesAgree(s) && ReloadMachine.Enabled(s, TakeOver)
    requires s.h.offered == Some(e)
    ensures var t := ReloadMachine.Next(s, TakeOver);
            && t.h.current == Some(e) && t.h.offered == None && t.stage == Idle && !t.reload && t.pc == Head
            && Ref(t.h.refs, e) == 1 && t.h.conns == s.h.conns && t.h.pins == s.h.pins
            && (s.concurrent ==>
                  var d := s.h.current.value;
                  d != e && Ref(t.h.refs, d) == Ref(s.h.refs, d) - 1 && (Freed(t.h.refs, d) <==> !Kept(s.h, d)))
  {
    hide Kept, RefsExact;
    if s.concurrent {
      GivenUp(s.h, s.h.current.value);
    }
  }

  /** Without concurrency the old engine is given up before the new one is loaded, in the same way. */
  lemma OldEngineGivenUp(maxThreads: int, maxQueue: int, engine: Engine, acts: seq<Act>, r: Sys, d: Engine)
    requires ReloadMachine.Reaches(false, maxThreads, maxQueue, engine, acts, r)
    requires ReloadMachine.Enabled(r, SetUp) && r.h.current == Some(d)
    ensures var t := ReloadMachine.Next(r, SetUp);
            && t.h.current == None && t.pc == AwaitThreads(true)
            && Ref(t.h.refs, d) == Ref(r.h.refs, d) - 1 && (Freed(t.h.refs, d) <==> !Kept(r.h, d))
  {
    hide JobsPlaced, SlotsHeld, PoolModel.Inv, ReloadMachine.Exec, RefsExact, Kept, Ref;
    ReachedExclusive(false, maxThreads, maxQueue, engine, acts, r);
    GivenUp(r.h, d);
  }

  /** A load that failed: its engine is freed, and the take-over changes nothing but the stage and the flag. */
  lemma FailedLoad(concurrent: bool, maxThreads: int, maxQueue: int, engine: Engine, acts: seq<Act>, r: Sys,
                   between: seq<Act>, s: Sys)
    requires ReloadMachine.Reaches(concurrent, maxThreads, maxQueue, engine, acts, r) && r.h.loaders != []
    requires ReloadMachine.Exec(ReloadMachine.Next(r, PublishResult(false)), between) == Some(s)
    requires TakeOver !in between && ReloadMachine.Enabled(s, TakeOver)
    ensures ReloadMachine.Next(s, TakeOver) == s.(stage := Idle, reload := false)
    ensures s.h.current == r.h.current && s.h.offered == None
    ensures r.h.loaders[0].engine.Some? ==> Freed(s.h.refs, r.h.loaders[0].engine.value)
  {
    hide JobsPlaced, SlotsHeld, PoolModel.Inv, ReloadMachine.Exec, RefsExact;
    ReachedExclusive(concurrent, maxThreads, maxQueue, engine, acts, r);
    var r1 := ReloadMachine.Next(r, PublishResult(false));
    ActKeeps(r, PublishResult(false));
    assert Announced(r1, None, r.h.current);
    AnnouncedUntil(r1, between, s, None, r.h.current);
    ReloadMachine.RunKeeps(r1, between, s);
  }

  /** From the start, every other engine can be loaded and taken over, and the first one is freed. */
  lemma ReloadRun(concurrent: bool, maxThreads: int, maxQueue: int, engine: Engine, e: Engine)
    returns (acts: seq<Act>, r: Sys)
    requires maxThreads > 0 && e != engine
    ensures ReloadMachine.Reaches(concurrent, maxThreads, maxQueue, engine, acts, r)
    ensures r.h.current == Some(e) && Ref(r.h.refs, e) == 1 && Freed(r.h.refs, engine)
    ensures r.h.offered == None && r.h.loaders == [] && r.stage == Idle && !r.reload && r.pc == Head
  {
    hide ReloadMachine.Exec;
    var s := Start(concurrent, NewPool(maxThreads, maxQueue).value, engine);
    if concurrent {
      acts, r := ReadyToSpawnRun(s);
    } else {
      acts, r := EngineDroppedRun(s);
    }
    acts, r := LoadedRun(s, acts, r, e);
  }

  lemma ReadyToSpawnRun(s: Sys) returns (acts: seq<Act>, r: Sys)
    requires s.concurrent && s.h.current.Some? && s.stage == Idle && s.pc == Head
    ensures ReloadMachine.Exec(s, acts) == Some(r)
    ensures r == s.(stage := Reloading, reload := true, pc := Spawning(true))
  {
    acts, r := Perform(s, [], s, Request);
    acts, r := Perform(s, acts, r, BeginReload);
    acts, r := Perform(s, acts, r, SetUp);
  }

  lemma LoadedRun(s: Sys, before: seq<Act>, b: Sys, e: Engine) returns (acts: seq<Act>, r: Sys)
    requires ReloadMachine.Exec(s, before) == Some(b) && b.pc == Spawning(true) && b.h.loaders == [] && e !in b.h.refs
    requires b.reload && b.stage == Reloading && (b.concurrent ==> b.h.current.Some?)
    requires !b.concurrent ==> b.h.current == None
    ensures ReloadMachine.Exec(s, acts) == Some(r)
    ensures r == b.(pc := Head, stage := Idle, reload := false, h := r.h)
    ensures r.h.current == Some(e) && r.h.offered == None && r.h.loaders == []
    ensures r.h.refs == DropCurrent(b.h.(refs := b.h.refs[e := 1])).refs
  {
    hide Ref;
    acts, r := Perform(s, before, b, Spawn(true));
    acts, r := Perform(s, acts, r, Create(e));
    acts, r := Perform(s, acts, r, PublishResult(true));
    assert r.h.refs == b.h.refs[e := 1] && r.h.offered == Some(e) && r.h.loaders == [];
    if !b.concurrent {
      acts, r := Perform(s, acts, r, Joined);
    }
    acts, r := Perform(s, acts, r, TakeOver);
  }

  // --- Which engine a job works with -------------------------------------------------------

  ghost predicate Carries(conns: seq<Conn>, job: Job, e: Engine) {
    exists i :: 0 <= i < |conns| && conns[i].job == job && conns[i].engine == e
  }

  /** A job works with one engine all its life: the one current when it came in, or that of the job it is part of. */
  lemma EngineForLife(s: Sys, a: Act, job: Job, e: Engine)
    requires ReloadMachine.Inv(s) && ReloadMachine.Enabled(s, a)
    ensures Carries(ReloadMachine.Next(s, a).h.conns, job, e) <==>
            if a == RecvConn(job) then s.h.current == Some(e)
            else if a.ControllerConn? && a.job == job then s.h.conns[a.parent].engine == e
            else Carries(s.h.conns, job, e) && !((a.Abandon? || a.DropEngine?) && s.h.conns[a.i].job == job)
  {
    hide ReloadMachine.Inv, NextJob, NextControl, Carries;
    if IsControl(a) {
      ControlFrame(s, a);
    } else {
      EngineForLifeJob(s, a, job, e);
    }
  }

  lemma EngineForLifeJob(s: Sys, a: Act, job: Job, e: Engine)
    requires ReloadMachine.Inv(s) && ReloadMachine.Enabled(s, a) && !IsControl(a)
    ensures Carries(NextJob(s, a).h.conns, job, e) <==>
            if a == RecvConn(job) then s.h.current == Some(e)
            else if a.ControllerConn? && a.job == job then s.h.conns[a.parent].engine == e
            else Carries(s.h.conns, job, e) && !((a.Abandon? || a.DropEngine?) && s.h.conns[a.i].job == job)
  {
    hide PoolModel.Inv, RefsExact, StagesAgree, SlotsHeld, PoolModel.Next, PoolModel.Enabled, Contended, InFlight,
      HasConn, JobsKnown, ConnPlaced, Apart, Ref, Carries;
    var conns := s.h.conns;
    match a
    case RecvConn(j) =>
      AddedCarries(conns, Conn(j, s.h.current.value, false, RecvLoop), job, e);
      UnusedCarries(s.h, j, e);
    case ControllerConn(j, parent) =>
      AddedCarries(conns, Conn(j, conns[parent].engine, false, ByJob(conns[parent].job)), job, e);
      UnusedCarries(s.h, j, e);
    case Submit(i, _, _) => MarkedCarries(conns, i, job, e);
    case Resubmit(i, _, _) => MarkedCarries(conns, i, job, e);
    case Abandon(i) => RemovedCarries(conns, i, job, e);
    case DropEngine(i) => RemovedCarries(conns, i, job, e);
    case _ =>
  }

  lemma UnusedCarries(h: Holds, job: Job, e: Engine)
    requires Unused(h, job)
    ensures !Carries(h.conns, job, e)
  {
  }

  /** What STATS pins is the engine of the job it looked at. */
  lemma PinnedIsSeen(s: Sys, reader: nat, seen: Job)
    requires ReloadMachine.Inv(s) && ReloadMachine.Enabled(s, PinEngine(reader, seen))
    ensures var t := ReloadMachine.Next(s, PinEngine(reader, seen));
            && |t.h.pins| == |s.h.pins| + 1 && t.h.pins[..|s.h.pins|] == s.h.pins
            && t.h.pins[|s.h.pins|].holder == s.h.conns[reader].job
            && Carries(t.h.conns, seen, t.h.pins[|s.h.pins|].engine)
  {
    hide PoolModel.Inv, RefsExact, StagesAgree, JobsPlaced;
    assert HeldBy(s.h.conns, seen, s.h.slots[seen]);
  }

  lemma AddedCarries(conns: seq<Conn>, c: Conn, job: Job, e: Engine)
    ensures Carries(conns + [c], job, e) <==> Carries(conns, job, e) || (c.job == job && c.engine == e)
  {
    var conns' := conns + [c];
    if i :| 0 <= i < |conns| && conns[i].job == job && conns[i].engine == e {
      assert conns'[i] == conns[i];
    }
    assert conns'[|conns|] == c;
  }

  lemma MarkedCarries(conns: seq<Conn>, i: nat, job: Job, e: Engine)
    requires i < |conns|
    ensures Carries(conns[i := conns[i].(accepted := true)], job, e) <==> Carries(conns, job, e)
  {
    var conns' := conns[i := conns[i].(accepted := true)];
    if k :| 0 <= k < |conns| && conns[k].job == job && conns[k].engine == e {
      assert conns'[k].job == job && conns'[k].engine == e;
    }
  }

  lemma RemovedCarries(conns: seq<Conn>, i: nat, job: Job, e: Engine)
    requires i < |conns| && Apart(conns)
    ensures Carries(RemoveAt(conns, i), job, e) <==> Carries(conns, job, e) && conns[i].job != job
  {
    var conns' := RemoveAt(conns, i);
    if k :| 0 <= k < |conns| && conns[k].job == job && conns[k].engine == e && k != i {
      assert conns'[if k < i then k else k - 1] == conns[k];
    }
    if k :| 0 <= k < |conns'| && conns'[k].job == job && conns'[k].engine == e {
      assert conns[if k < i then k else k + 1] == conns'[k];
    }
  }
}
