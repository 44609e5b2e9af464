/**
 The two work queues of the thread pool and the picker that takes jobs from them:
 four single jobs for one bulk job while both queues hold work.
 */
module WorkPicker {
  import opened Options

  type Job = nat

  const SINGLE_BULK_RATIO: int := 4
  const SINGLE_BULK_SUM: int := SINGLE_BULK_RATIO + 1

  datatype Queues = Queues(
    single: seq<Job>,          // oldest job first
    bulk: seq<Job>,
    singlePopped: int,
    bulkPopped: int,
    // history: everything ever added to and taken from each queue
    acceptedSingle: seq<Job>,
    acceptedBulk: seq<Job>,
    takenSingle: seq<Job>,
    takenBulk: seq<Job>)

  const NO_JOBS: Queues := Queues([], [], 0, 0, [], [], [], [])

  function Items(q: Queues): nat {
    |q.single| + |q.bulk|
  }

  function Add(q: Queues, job: Job, bulk: bool): Queues {
    if bulk then q.(bulk := q.bulk + [job], acceptedBulk := q.acceptedBulk + [job])
    else q.(single := q.single + [job], acceptedSingle := q.acceptedSingle + [job])
  }

  datatype Choice = Nothing | FromSingle | FromBulk

  /** Which queue `thrmgr_pop` serves. */
  function Choose(q: Queues): Choice {
    if q.singlePopped < SINGLE_BULK_RATIO then
      if q.single != [] then FromSingle else if q.bulk != [] then FromBulk else Nothing
    else
      if q.bulk != [] then FromBulk else if q.single != [] then FromSingle else Nothing
  }

  /** How often a queue is served at this point before the other queue's counter restarts. */
  function Ratio(q: Queues): int {
    if q.singlePopped < SINGLE_BULK_RATIO then SINGLE_BULK_RATIO else SINGLE_BULK_SUM - SINGLE_BULK_RATIO
  }

  function TakeSingle(q: Queues): Queues
    requires q.single != []
  {
    var n := q.singlePopped + 1;
    q.(single := q.single[1..],
       takenSingle := q.takenSingle + [q.single[0]],
       singlePopped := n,
       bulkPopped := if n == Ratio(q) then 0 else q.bulkPopped)
  }

  function TakeBulk(q: Queues): Queues
    requires q.bulk != []
  {
    var n := q.bulkPopped + 1;
    q.(bulk := q.bulk[1..],
       takenBulk := q.takenBulk + [q.bulk[0]],
       bulkPopped := n,
       singlePopped := if n == Ratio(q) then 0 else q.singlePopped)
  }

  function Take(q: Queues): Queues {
    match Choose(q)
    case Nothing => q
    case FromSingle => TakeSingle(q)
    case FromBulk => TakeBulk(q)
  }

  function Taken(q: Queues): Option<Job> {
    match Choose(q)
    case Nothing => None
    case FromSingle => Some(q.single[0])
    case FromBulk => Some(q.bulk[0])
  }

  ghost predicate PickerPhase(q: Queues) {
    && q.singlePopped >= 0
    && q.bulkPopped >= 0
    && (q.singlePopped >= SINGLE_BULK_RATIO ==> q.bulkPopped == 0)
  }

  /** Each queue is first in, first out: what was added is what was taken followed by what is queued. */
  ghost predicate Fifo(q: Queues) {
    && q.acceptedSingle == q.takenSingle + q.single
    && q.acceptedBulk == q.takenBulk + q.bulk
  }

  ghost function EverTaken(q: Queues): multiset<Job> {
    multiset(q.takenSingle) + multiset(q.takenBulk)
  }

  ghost function EverAccepted(q: Queues): multiset<Job> {
    multiset(q.acceptedSingle) + multiset(q.acceptedBulk)
  }

  ghost function Queued(q: Queues): multiset<Job> {
    multiset(q.single) + multiset(q.bulk)
  }

  lemma TakeSingleFacts(q: Queues)
    requires q.single != [] && Fifo(q)
    ensures Fifo(TakeSingle(q))
    ensures EverTaken(TakeSingle(q)) == EverTaken(q) + multiset{q.single[0]}
  {
    assert q.single == [q.single[0]] + q.single[1..];
    assert q.takenSingle + q.single == q.takenSingle + [q.single[0]] + q.single[1..];
  }

  lemma TakeBulkFacts(q: Queues)
    requires q.bulk != [] && Fifo(q)
    ensures Fifo(TakeBulk(q))
    ensures EverTaken(TakeBulk(q)) == EverTaken(q) + multiset{q.bulk[0]}
  {
    assert q.bulk == [q.bulk[0]] + q.bulk[1..];
    assert q.takenBulk + q.bulk == q.takenBulk + [q.bulk[0]] + q.bulk[1..];
  }

  lemma TakeFacts(q: Queues)
    requires PickerPhase(q) && Fifo(q)
    ensures PickerPhase(Take(q)) && Fifo(Take(q))
    ensures Taken(q).None? <==> Items(q) == 0
    ensures Items(Take(q)) == if Items(q) == 0 then 0 else Items(q) - 1
    ensures |Take(q).bulk| <= |q.bulk|
    ensures EverTaken(Take(q)) ==
            EverTaken(q) + (if Taken(q).Some? then multiset{Taken(q).value} else multiset{})
  {
    match Choose(q)
    case Nothing =>
    case FromSingle => TakeSingleFacts(q);
    case FromBulk => TakeBulkFacts(q);
  }

  lemma AddFacts(q: Queues, job: Job, bulk: bool)
    requires Fifo(q)
    ensures Fifo(Add(q, job, bulk))
    ensures Items(Add(q, job, bulk)) == Items(q) + 1
    ensures EverTaken(Add(q, job, bulk)) == EverTaken(q) && (PickerPhase(q) ==> PickerPhase(Add(q, job, bulk)))
  {
    assert q.takenBulk + (q.bulk + [job]) == q.takenBulk + q.bulk + [job];
    assert q.takenSingle + (q.single + [job]) == q.takenSingle + q.single + [job];
  }

  lemma FifoConserves(q: Queues)
    requires Fifo(q)
    ensures EverAccepted(q) == Queued(q) + EverTaken(q)
  {
    assert multiset(q.takenSingle + q.single) == multiset(q.takenSingle) + multiset(q.single);
    assert multiset(q.takenBulk + q.bulk) == multiset(q.takenBulk) + multiset(q.bulk);
  }
}

/**
 The thread pool of clamd as a step system: one step per region that runs with
 `pool_mutex` held (plus the end of a job, which takes no lock). Workers are
 anonymous, so a state counts how many stand at each program point; the shared
 variables `thr_alive`, `thr_idle` and `thr_multiscan` are kept beside those
 counts and the invariant says how they agree.

 The pool stays in the valid state throughout.
 */
module PoolModel {
  import opened Options
  import opened WorkPicker

  datatype Staff = Staff(
    // the shared counters
    alive: int,
    idle: int,
    multiscan: int,
    // where the live workers are
    ready: nat,                 // started, or done with a job; pool lock not taken yet
    waiting: nat,               // asleep on pool_cond
    leaving: nat,               // timed out, final decision not taken yet
    running: multiset<Job>,     // inside the job handler
    controllers: multiset<Job>, // running jobs that hold a MULTISCAN slot
    done: multiset<Job>)        // history: jobs whose handler returned

  /** Who dispatches: the receive loop, or a running MULTISCAN job, which uses the bulk queue alone. */
  datatype Caller = Outside | Controller(job: Job)

  /**
   Dispatchers that met a full queue: asleep, or signalled and not yet back. Those of them that are
   running controllers are known by their job.
   */
  datatype Gate = Gate(asleepSingle: nat, asleepBulk: nat, awakeSingle: nat, awakeBulk: nat, blocked: multiset<Job>)

  const NO_GATE: Gate := Gate(0, 0, 0, 0, multiset{})

  datatype Pool = Pool(thrMax: int, queueMax: int, q: Queues, w: Staff, gate: Gate)

  const NO_STAFF: Staff := Staff(0, 0, 0, 0, 0, 0, multiset{}, multiset{}, multiset{})

  /** `thrmgr_new`, with allocation working */
  function NewPool(maxThreads: int, maxQueue: int): (r: Option<Pool>)
    ensures r.Some? <==> maxThreads > 0
    ensures r.Some? ==>
              var p := r.value;
              p.thrMax == maxThreads && p.queueMax == maxQueue && Items(p.q) == 0 && p.w.alive == p.w.multiscan == 0
  {
    if maxThreads <= 0 then None
    else Some(Pool(maxThreads, maxQueue, NO_JOBS, NO_STAFF, NO_GATE))
  }

  function Free(w: Staff): nat {
    w.ready + w.waiting + w.leaving
  }

  /** `thrmgr_contended` */
  predicate Contended(p: Pool, bulk: bool) {
    || (bulk && |p.q.bulk| >= p.queueMax / 2)
    || |p.q.bulk| + |p.q.single| + p.w.alive - p.w.idle >= p.queueMax
  }

  function Signal(g: Gate, single: bool, bulk: bool): Gate {
    var g' := if single && g.asleepSingle > 0
              then g.(asleepSingle := g.asleepSingle - 1, awakeSingle := g.awakeSingle + 1) else g;
    if bulk && g'.asleepBulk > 0
    then g'.(asleepBulk := g'.asleepBulk - 1, awakeBulk := g'.awakeBulk + 1) else g'
  }

  /** `thrmgr_pop`: the pick, then the two conditional signals. */
  function Pop(p: Pool): Pool {
    var p' := p.(q := Take(p.q));
    p'.(gate := Signal(p.gate, !Contended(p', false), !Contended(p', true)))
  }

  // --- Steps -----------------------------------------------------------------------

  datatype Step =
    // a dispatcher takes the lock; created: pthread_create works
    | Arrive(job: Job, bulk: bool, created: bool, caller: Caller)
    // a signalled dispatcher takes the lock again
    | Retry(job: Job, bulk: bool, created: bool, caller: Caller)
    | Spurious(bulk: bool)     // a sleeping dispatcher wakes without a signal
    | Enter                    // a ready worker takes the lock and looks for work
    | Wake                     // a sleeping worker looks again
    | Timeout                  // a sleeping worker gives up
    | Decide                   // a worker that gave up decides with both locks held
    | Finish(job: Job)         // the job handler returns
    | Claim(job: Job)          // a running MULTISCAN asks for a controller slot
    | Release(job: Job)        // a running MULTISCAN gives its slot back

  predicate IsDispatch(s: Step) {
    s.Arrive? || s.Retry?
  }

  /** A controller that sleeps at the gate does nothing else meanwhile. */
  predicate MayCall(p: Pool, bulk: bool, caller: Caller) {
    caller.Controller? ==> bulk && p.gate.blocked[caller.job] < p.w.controllers[caller.job]
  }

  /** Some dispatcher of this kind was signalled, and this caller is one of those who wait. */
  predicate MayReturn(g: Gate, bulk: bool, caller: Caller) {
    && (if bulk then g.awakeBulk else g.awakeSingle) > 0
    && (match caller
        case Controller(job) => bulk && job in g.blocked
        case Outside => bulk ==> |g.blocked| < g.asleepBulk + g.awakeBulk)
  }

  predicate Enabled(p: Pool, s: Step) {
    match s
    case Arrive(_, bulk, _, caller) => MayCall(p, bulk, caller)
    case Retry(_, bulk, _, caller) => MayReturn(p.gate, bulk, caller)
    case Spurious(bulk) => (if bulk then p.gate.asleepBulk else p.gate.asleepSingle) > 0
    case Enter => p.w.ready > 0
    case Wake => p.w.waiting > 0
    case Timeout => p.w.waiting > 0
    case Decide => p.w.leaving > 0
    case Finish(job) => p.gate.blocked[job] < p.w.running[job]
    case Claim(job) => p.w.controllers[job] < p.w.running[job]
    case Release(job) => p.gate.blocked[job] < p.w.controllers[job]
  }

  /** The part of `thrmgr_dispatch_internal` after the queue was found uncontended. */
  function Accept(p: Pool, job: Job, bulk: bool, created: bool): Pool {
    var q := Add(p.q, job, bulk);
    var hire := p.w.idle < Items(q) && p.w.alive < p.thrMax && created;
    p.(q := q, w := if hire then p.w.(alive := p.w.alive + 1, ready := p.w.ready + 1) else p.w)
  }

  function Callers(caller: Caller): multiset<Job> {
    match caller case Outside => multiset{} case Controller(job) => multiset{job}
  }

  function FallAsleep(g: Gate, bulk: bool, caller: Caller): Gate {
    if bulk then g.(asleepBulk := g.asleepBulk + 1, blocked := g.blocked + Callers(caller))
    else g.(asleepSingle := g.asleepSingle + 1)
  }

  function Dispatch(p: Pool, job: Job, bulk: bool, created: bool, caller: Caller): Pool {
    if Contended(p, bulk) then p.(gate := FallAsleep(p.gate, bulk, caller)) else Accept(p, job, bulk, created)
  }

  function StartJob(w: Staff, job: Job): Staff
    requires w.waiting > 0
  {
    w.(waiting := w.waiting - 1, idle := w.idle - 1, running := w.running + multiset{job})
  }

  /** A worker counted as idle pops; with a job it stops being idle and runs it. */
  function Look(p: Pool): Pool
    requires p.w.waiting > 0
  {
    match Taken(p.q)
    case None => Pop(p)
    case Some(job) => Pop(p).(w := StartJob(p.w, job))
  }

  function Return(g: Gate, bulk: bool, caller: Caller): Gate
    requires (if bulk then g.awakeBulk else g.awakeSingle) > 0
  {
    if bulk then g.(awakeBulk := g.awakeBulk - 1, blocked := g.blocked - Callers(caller))
    else g.(awakeSingle := g.awakeSingle - 1)
  }

  function Rouse(g: Gate, bulk: bool): Gate
    requires (if bulk then g.asleepBulk else g.asleepSingle) > 0
  {
    Signal(g, !bulk, bulk)
  }

  function ClockIn(w: Staff): Staff
    requires w.ready > 0
  {
    w.(ready := w.ready - 1, waiting := w.waiting + 1, idle := w.idle + 1)
  }

  /** How the workers change in the steps that touch neither the queues nor the dispatchers. */
  function NextStaff(p: Pool, s: Step): Staff
    requires Enabled(p, s)
    requires s.Timeout? || s.Decide? || s.Finish? || s.Claim? || s.Release?
  {
    var w := p.w;
    match s
    case Timeout => w.(waiting := w.waiting - 1, idle := w.idle - 1, leaving := w.leaving + 1)
    case Decide =>
      if p.q.single != [] || p.q.bulk != []
      then w.(leaving := w.leaving - 1, ready := w.ready + 1)
      else w.(leaving := w.leaving - 1, alive := w.alive - 1)
    case Finish(job) =>
      w.(running := w.running - multiset{job},
         controllers := if w.controllers[job] == w.running[job] then w.controllers - multiset{job} else w.controllers,
         done := w.done + multiset{job}, ready := w.ready + 1)
    case Claim(job) =>
      if w.multiscan + 1 < p.thrMax
      then w.(multiscan := w.multiscan + 1, controllers := w.controllers + multiset{job})
      else w
    case Release(job) => w.(multiscan := w.multiscan - 1, controllers := w.controllers - multiset{job})
  }

  function Next(p: Pool, s: Step): Pool
    requires Enabled(p, s)
  {
    match s
    case Arrive(job, bulk, created, caller) => Dispatch(p, job, bulk, created, caller)
    case Retry(job, bulk, created, caller) =>
      Dispatch(p.(gate := Return(p.gate, bulk, caller)), job, bulk, created, caller)
    case Spurious(bulk) => p.(gate := Rouse(p.gate, bulk))
    case Enter => Look(p.(w := ClockIn(p.w)))
    case Wake => Look(p)
    case _ => p.(w := NextStaff(p, s))
  }

  /** The state after a run of steps, or None when some step was not possible. */
  function Exec(p: Pool, steps: seq<Step>): Option<Pool>
    decreases |steps|
  {
    if steps == [] then Some(p)
    else if Enabled(p, steps[0]) then Exec(Next(p, steps[0]), steps[1..])
    else None
  }

  /** Every thread that a dispatcher asked for in this run was created. */
  predicate AllCreated(steps: seq<Step>) {
    forall i :: 0 <= i < |steps| && IsDispatch(steps[i]) ==> steps[i].created
  }

  // --- Invariants ------------------------------------------------------------------

  ghost predicate StaffCounted(w: Staff, thrMax: int) {
    && thrMax >= 1
    && w.alive == Free(w) + |w.running|
    && w.idle == w.waiting
    && w.alive <= thrMax
    && w.controllers <= w.running
    && |w.controllers| <= w.multiscan <= thrMax - 1
  }

  function NonNegative(n: int): (m: nat)
    ensures m >= n
  {
    if n < 0 then 0 else n
  }

  ghost predicate Admitted(p: Pool) {
    && Items(p.q) + |p.w.running| <= NonNegative(p.queueMax)
    && |p.q.bulk| <= NonNegative(p.queueMax / 2)
  }

  /** Controllers asleep at the gate are running controllers, and are among the sleepers. */
  ghost predicate GateCounted(g: Gate, controllers: multiset<Job>) {
    g.blocked <= controllers && |g.blocked| <= g.asleepBulk + g.awakeBulk
  }

  ghost predicate Inv(p: Pool) {
    && StaffCounted(p.w, p.thrMax)
    && GateCounted(p.gate, p.w.controllers)
    && PickerPhase(p.q)
    && Fifo(p.q)
    && EverTaken(p.q) == p.w.running + p.w.done
    && Admitted(p)
  }

  /** Either the pool is at full strength or enough live workers are free for everything queued. */
  ghost predicate Staffed(p: Pool) {
    p.w.alive == p.thrMax || Free(p.w) >= Items(p.q)
  }

  lemma SignalKeeps(g: Gate, controllers: multiset<Job>, single: bool, bulk: bool)
    requires GateCounted(g, controllers)
    ensures GateCounted(Signal(g, single, bulk), controllers)
  {
  }

  lemma LookKeeps(p: Pool)
    requires Inv(p) && p.w.waiting > 0
    ensures Inv(Look(p))
    ensures Staffed(p) ==> Staffed(Look(p))
  {
    hide PickerPhase, Fifo, EverTaken, Take, Taken, Signal, Contended, GateCounted;
    TakeFacts(p.q);
    var p' := p.(q := Take(p.q));
    SignalKeeps(p.gate, p.w.controllers, !Contended(p', false), !Contended(p', true));
    if Taken(p.q).Some? {
      var job := Taken(p.q).value;
      assert |p.w.running + multiset{job}| == |p.w.running| + 1;
      assert p.w.running + p.w.done + multiset{job} == (p.w.running + multiset{job}) + p.w.done;
    }
  }

  lemma DispatchKeeps(p: Pool, job: Job, bulk: bool, created: bool, caller: Caller)
    requires Inv(p) && MayCall(p, bulk, caller)
    ensures Inv(Dispatch(p, job, bulk, created, caller))
    ensures Staffed(p) && created ==> Staffed(Dispatch(p, job, bulk, created, caller))
  {
    hide PickerPhase, Fifo, EverTaken, GateCounted;
    if Contended(p, bulk) {
      SleepKeeps(p.gate, p.w.controllers, bulk, caller);
    } else {
      AddFacts(p.q, job, bulk);
    }
  }

  lemma SleepKeeps(g: Gate, controllers: multiset<Job>, bulk: bool, caller: Caller)
    requires GateCounted(g, controllers)
    requires caller.Controller? ==> bulk && g.blocked[caller.job] < controllers[caller.job]
    ensures GateCounted(FallAsleep(g, bulk, caller), controllers)
  {
  }

  lemma ReturnKeeps(g: Gate, controllers: multiset<Job>, bulk: bool, caller: Caller)
    requires GateCounted(g, controllers) && MayReturn(g, bulk, caller)
    ensures var g' := Return(g, bulk, caller);
            GateCounted(g', controllers) &&
            (caller.Controller? ==> g'.blocked[caller.job] < controllers[caller.job])
  {
    if caller.Controller? {
      assert g.blocked == Return(g, bulk, caller).blocked + multiset{caller.job};
    } else {
      assert g.blocked - multiset{} == g.blocked;
    }
  }

  /** What a change of the workers alone has to respect. */
  lemma StaffChange(p: Pool, w: Staff)
    requires Inv(p) && StaffCounted(w, p.thrMax) && p.gate.blocked <= w.controllers
    requires w.running + w.done == p.w.running + p.w.done && |w.running| <= |p.w.running|
    ensures Inv(p.(w := w))
  {
    hide PickerPhase, Fifo, EverTaken, StaffCounted;
  }

  lemma StaffStepKeeps(p: Pool, s: Step)
    requires Inv(p) && Enabled(p, s)
    requires s.Timeout? || s.Decide? || s.Finish? || s.Claim? || s.Release?
    ensures Inv(Next(p, s))
    ensures Staffed(p) ==> Staffed(Next(p, s))
  {
    hide PickerPhase, Fifo, EverTaken;
    match s
    case Finish(job) => FinishKeeps(p, job);
    case Claim(job) => ClaimKeeps(p, job);
    case Release(job) => ReleaseKeeps(p, job);
    case _ =>
  }

  lemma ClaimStaff(w: Staff, thrMax: int, job: Job)
    requires StaffCounted(w, thrMax) && w.controllers[job] < w.running[job] && w.multiscan + 1 < thrMax
    ensures StaffCounted(w.(multiscan := w.multiscan + 1, controllers := w.controllers + multiset{job}), thrMax)
  {
  }

  lemma ClaimKeeps(p: Pool, job: Job)
    requires Inv(p) && Enabled(p, Claim(job))
    ensures Inv(Next(p, Claim(job))) && Staffed(Next(p, Claim(job))) == Staffed(p)
  {
    hide PickerPhase, Fifo, EverTaken, StaffCounted, Admitted;
    if p.w.multiscan + 1 < p.thrMax {
      ClaimStaff(p.w, p.thrMax, job);
      StaffChange(p, NextStaff(p, Claim(job)));
    }
  }

  lemma ReleaseStaff(w: Staff, thrMax: int, blocked: multiset<Job>, job: Job)
    requires StaffCounted(w, thrMax) && blocked <= w.controllers && blocked[job] < w.controllers[job]
    ensures var w' := w.(multiscan := w.multiscan - 1, controllers := w.controllers - multiset{job});
            StaffCounted(w', thrMax) && blocked <= w'.controllers
  {
    assert w.controllers == w.controllers - multiset{job} + multiset{job};
  }

  lemma ReleaseKeeps(p: Pool, job: Job)
    requires Inv(p) && Enabled(p, Release(job))
    ensures Inv(Next(p, Release(job))) && Staffed(Next(p, Release(job))) == Staffed(p)
  {
    hide PickerPhase, Fifo, EverTaken, StaffCounted, Admitted;
    ReleaseStaff(p.w, p.thrMax, p.gate.blocked, job);
    StaffChange(p, NextStaff(p, Release(job)));
  }

  lemma FinishStaff(w: Staff, w': Staff, thrMax: int, blocked: multiset<Job>, job: Job)
    requires StaffCounted(w, thrMax) && blocked <= w.controllers && blocked[job] < w.running[job]
    requires w'.running == w.running - multiset{job} && w'.ready == w.ready + 1
    requires w'.controllers ==
             if w.controllers[job] == w.running[job] then w.controllers - multiset{job} else w.controllers
    requires w' == w.(running := w'.running, controllers := w'.controllers, ready := w'.ready, done := w'.done)
    ensures StaffCounted(w', thrMax) && blocked <= w'.controllers && |w'.running| == |w.running| - 1
  {
    assert w.running == w'.running + multiset{job};
    assert |w'.controllers| <= |w.controllers| by {
      if w.controllers[job] == w.running[job] {
        assert w.controllers == w'.controllers + multiset{job};
      }
    }
  }

  lemma FinishKeeps(p: Pool, job: Job)
    requires Inv(p) && Enabled(p, Finish(job))
    ensures Inv(Next(p, Finish(job)))
    ensures Staffed(p) ==> Staffed(Next(p, Finish(job)))
  {
    hide PickerPhase, Fifo, EverTaken, StaffCounted, Admitted;
    var w, w' := p.w, NextStaff(p, Finish(job));
    FinishStaff(w, w', p.thrMax, p.gate.blocked, job);
    assert w.running == w'.running + multiset{job};
    assert w'.running + w'.done == w.running + w.done;
    StaffChange(p, w');
  }

  lemma StepKeeps(p: Pool, s: Step)
    requires Inv(p) && Enabled(p, s)
    ensures Inv(Next(p, s))
    ensures Staffed(p) && (IsDispatch(s) ==> s.created) ==> Staffed(Next(p, s))
  {
    match s
    case Arrive(job, bulk, created, caller) => DispatchKeeps(p, job, bulk, created, caller);
    case Retry(job, bulk, created, caller) =>
      ReturnKeeps(p.gate, p.w.controllers, bulk, caller);
      DispatchKeeps(p.(gate := Return(p.gate, bulk, caller)), job, bulk, created, caller);
    case Spurious(_) =>
    case Enter => LookKeeps(p.(w := ClockIn(p.w)));
    case Wake => LookKeeps(p);
    case _ => StaffStepKeeps(p, s);
  }

  lemma StepLimits(p: Pool, s: Step)
    requires Enabled(p, s)
    ensures Next(p, s).thrMax == p.thrMax && Next(p, s).queueMax == p.queueMax
  {
    hide Take, Signal, Contended;
  }

  lemma {:induction false} RunKeeps(p: Pool, steps: seq<Step>)
    requires Inv(p)
    ensures var r := Exec(p, steps);
            r.Some? ==>
              && Inv(r.value)
              && r.value.thrMax == p.thrMax && r.value.queueMax == p.queueMax
              && (Staffed(p) && AllCreated(steps) ==> Staffed(r.value))
    decreases |steps|
  {
    hide Inv, Next, Enabled, Staffed;
    if steps != [] && Enabled(p, steps[0]) {
      StepKeeps(p, steps[0]);
      StepLimits(p, steps[0]);
      RunKeeps(Next(p, steps[0]), steps[1..]);
    }
  }

  // --- What holds over every run of a new pool -------------------------------------

  ghost predicate Reaches(maxThreads: int, maxQueue: int, steps: seq<Step>, p: Pool) {
    && NewPool(maxThreads, maxQueue).Some?
    && Exec(NewPool(maxThreads, maxQueue).value, steps) == Some(p)
  }

  lemma {:induction false} ReachedInv(maxThreads: int, maxQueue: int, steps: seq<Step>, p: Pool)
    requires Reaches(maxThreads, maxQueue, steps, p)
    ensures Inv(p) && p.thrMax == maxThreads && p.queueMax == maxQueue
    ensures AllCreated(steps) ==> Staffed(p)
  {
    var p0 := NewPool(maxThreads, maxQueue).value;
    NewPoolInv(p0);
    RunKeeps(p0, steps);
  }

  lemma NewPoolInv(p: Pool)
    requires p.thrMax >= 1 && p.q == NO_JOBS && p.w == NO_STAFF && p.gate == NO_GATE
    ensures Inv(p) && Staffed(p)
  {
    EmptyPoolInv(p);
  }

  /** A new pool as its users need to know it. */
  lemma FreshPool(maxThreads: int, maxQueue: int)
    requires maxThreads > 0
    ensures NewPool(maxThreads, maxQueue).Some?
    ensures Inv(NewPool(maxThreads, maxQueue).value) && Staffed(NewPool(maxThreads, maxQueue).value)
  {
    hide Inv, Staffed;
    NewPoolInv(NewPool(maxThreads, maxQueue).value);
  }

  lemma EmptyPoolInv(p: Pool)
    requires p.thrMax >= 1
    requires p.q.single == p.q.bulk == p.q.acceptedSingle == p.q.acceptedBulk == p.q.takenSingle == p.q.takenBulk == []
    requires p.q.singlePopped == p.q.bulkPopped == 0
    requires p.w.running == p.w.controllers == p.w.done == multiset{}
    requires p.w.alive == p.w.idle == p.w.multiscan == p.w.ready == p.w.waiting == p.w.leaving == 0
    requires p.gate.blocked == multiset{}
    ensures Inv(p) && Staffed(p)
  {
  }

  /** Accepted jobs are queued, running or done, first in first out; the queue bounds are never exceeded. */
  lemma {:induction false} Conservation(maxThreads: int, maxQueue: int, steps: seq<Step>, p: Pool)
    requires Reaches(maxThreads, maxQueue, steps, p)
    ensures EverAccepted(p.q) == Queued(p.q) + p.w.running + p.w.done
    ensures p.q.takenSingle + p.q.single == p.q.acceptedSingle
    ensures p.q.takenBulk + p.q.bulk == p.q.acceptedBulk
    ensures Items(p.q) + |p.w.running| <= NonNegative(maxQueue)
    ensures |p.q.bulk| <= NonNegative(maxQueue / 2)
  {
    ReachedInv(maxThreads, maxQueue, steps, p);
    FifoConserves(p.q);
  }

  lemma ControllersRun(w: Staff)
    requires w.controllers <= w.running
    ensures |w.controllers| + |w.running - w.controllers| == |w.running|
  {
    assert w.running == w.controllers + (w.running - w.controllers);
  }

  /**
   With thread creation working, queued work always has a live worker that is not
   a MULTISCAN controller, so the jobs that controllers wait for are served.
   */
  lemma {:induction false} QueuedWorkHasWorker(maxThreads: int, maxQueue: int, steps: seq<Step>, p: Pool)
    requires Reaches(maxThreads, maxQueue, steps, p) && AllCreated(steps)
    ensures p.w.alive == maxThreads || Free(p.w) >= Items(p.q)
    ensures |p.w.controllers| <= p.w.multiscan <= maxThreads - 1
    ensures Items(p.q) > 0 ==> Free(p.w) + |p.w.running - p.w.controllers| > 0
  {
    ReachedInv(maxThreads, maxQueue, steps, p);
    ControllersRun(p.w);
  }

  // --- Thread creation that fails ----------------------------------------------------

  /** Queued work and nobody to take it. */
  ghost predicate Orphaned(p: Pool) {
    p.w.alive == 0 && Items(p.q) > 0
  }

  /** A dispatcher puts its job into the queue. */
  predicate Accepts(p: Pool, s: Step) {
    IsDispatch(s) && !Contended(p, s.bulk)
  }

  /** Admission does not look at the dispatchers. */
  lemma GateApart(p: Pool, g: Gate, bulk: bool)
    ensures Contended(p.(gate := g), bulk) == Contended(p, bulk)
  {
  }

  lemma OrphanDispatch(p: Pool, job: Job, bulk: bool, created: bool, caller: Caller)
    requires StaffCounted(p.w, p.thrMax)
    ensures var p' := Dispatch(p, job, bulk, created, caller);
            Orphaned(p') <==> if !Contended(p, bulk) then p.w.alive == 0 && !created else Orphaned(p)
  {
    hide Contended;
  }

  lemma LookLeavesThreads(p: Pool)
    requires p.w.waiting > 0
    ensures Look(p).w.alive == p.w.alive
  {
    hide Take, Signal, Contended;
  }

  /** Jobs are orphaned by exactly one thing: one is accepted with no thread alive and none is created. */
  lemma OrphanStep(p: Pool, s: Step)
    requires Inv(p) && Enabled(p, s)
    ensures Orphaned(Next(p, s)) <==> if Accepts(p, s) then p.w.alive == 0 && !s.created else Orphaned(p)
  {
    hide PickerPhase, Fifo, EverTaken, GateCounted, Contended, Dispatch, Look, Admitted;
    match s
    case Arrive(job, bulk, created, caller) => OrphanDispatch(p, job, bulk, created, caller);
    case Retry(job, bulk, created, caller) =>
      GateApart(p, Return(p.gate, bulk, caller), bulk);
      OrphanDispatch(p.(gate := Return(p.gate, bulk, caller)), job, bulk, created, caller);
    case Enter => LookLeavesThreads(p.(w := ClockIn(p.w)));
    case Wake => LookLeavesThreads(p);
    case _ =>
  }

  /** The last job that was accepted in this run found no thread and got none. */
  predicate LastAcceptedAlone(p: Pool, steps: seq<Step>, before: bool)
    decreases |steps|
  {
    if steps == [] then before
    else
      Enabled(p, steps[0]) &&
      LastAcceptedAlone(Next(p, steps[0]), steps[1..],
                        if Accepts(p, steps[0]) then p.w.alive == 0 && !steps[0].created else before)
  }

  lemma {:induction false} OrphanRun(p: Pool, steps: seq<Step>, r: Pool)
    requires Inv(p) && Exec(p, steps) == Some(r)
    ensures Orphaned(r) <==> LastAcceptedAlone(p, steps, Orphaned(p))
    decreases |steps|
  {
    hide Orphaned, Next, Accepts, Inv, Enabled;
    if steps != [] {
      OrphanStep(p, steps[0]);
      StepKeeps(p, steps[0]);
      OrphanRun(Next(p, steps[0]), steps[1..], r);
    }
  }

  /** A run leaves queued work without a thread if and only if its last accepted job met no thread and got none. */
  lemma {:induction false} OrphanedIff(maxThreads: int, maxQueue: int, steps: seq<Step>, p: Pool)
    requires Reaches(maxThreads, maxQueue, steps, p)
    ensures Orphaned(p) <==> LastAcceptedAlone(NewPool(maxThreads, maxQueue).value, steps, false)
  {
    var p0 := NewPool(maxThreads, maxQueue).value;
    NewPoolInv(p0);
    OrphanRun(p0, steps, p);
  }

  /** Working thread creation is enough, and more than is needed. */
  lemma {:induction false} CreatedIsEnough(p: Pool, steps: seq<Step>)
    requires AllCreated(steps)
    ensures !LastAcceptedAlone(p, steps, false)
    decreases |steps|
  {
    hide Next, Accepts, Enabled;
    if steps != [] && Enabled(p, steps[0]) {
      AcceptedIsCreated(p, steps);
      CreatedIsEnough(Next(p, steps[0]), steps[1..]);
    }
  }

  lemma AcceptedIsCreated(p: Pool, steps: seq<Step>)
    requires AllCreated(steps) && steps != []
    ensures Accepts(p, steps[0]) ==> IsDispatch(steps[0]) && steps[0].created
  {
  }

  /** With no live thread left nothing is queued and nothing runs: what `thrmgr_wait_for_threads` waits for. */
  lemma {:induction false} NoThreadsNoJobs(maxThreads: int, maxQueue: int, steps: seq<Step>, p: Pool)
    requires Reaches(maxThreads, maxQueue, steps, p) && p.w.alive == 0
    requires !LastAcceptedAlone(NewPool(maxThreads, maxQueue).value, steps, false)
    ensures p.q.single == [] && p.q.bulk == [] && p.w.running == multiset{}
    ensures EverAccepted(p.q) == p.w.done
  {
    ReachedInv(maxThreads, maxQueue, steps, p);
    OrphanedIff(maxThreads, maxQueue, steps, p);
    FifoConserves(p.q);
  }

  /** One failed creation is enough to orphan a job, in every pool that accepts one at all. */
  lemma FailedCreationStrandsJob(maxThreads: int, maxQueue: int, job: Job)
    requires maxThreads >= 1
    ensures (exists p :: Reaches(maxThreads, maxQueue, [Arrive(job, false, false, Outside)], p) && Orphaned(p)) <==>
            maxQueue >= 1
  {
    var steps := [Arrive(job, false, false, Outside)];
    var p := NewPool(maxThreads, maxQueue).value;
    assert steps[1..] == [];
    var p' := Next(p, steps[0]);
    assert Reaches(maxThreads, maxQueue, steps, p');
    assert Orphaned(p') <==> maxQueue >= 1;
  }

  // --- Full queues -------------------------------------------------------------------

  /**
   While a dispatcher finds the queue full there is queued work, and a live worker that is not a
   MULTISCAN controller to take it or to finish first, if the queue is longer than the pool is wide.
   */
  lemma {:induction false} FullQueueMovesOn(maxThreads: int, maxQueue: int, steps: seq<Step>, p: Pool, bulk: bool)
    requires Reaches(maxThreads, maxQueue, steps, p) && AllCreated(steps)
    requires maxQueue > maxThreads
    requires Contended(p, bulk)
    ensures Items(p.q) > 0 && Free(p.w) + |p.w.running - p.w.controllers| > 0
  {
    ReachedInv(maxThreads, maxQueue, steps, p);
    ControllersRun(p.w);
  }
}
