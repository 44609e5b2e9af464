/**
 The controller slots of MULTISCAN: how many are taken, who holds them, and when a claim is granted. A
 controller that returns early does not give its slot back.
 */
module MultiscanSlots {
  import opened Options
  import opened WorkPicker
  import opened PoolModel
  import PoolProgress

  /** A job returns and still holds a slot. */
  predicate LeaksSlot(p: Pool, s: Step) {
    s.Finish? && p.w.controllers[s.job] == p.w.running[s.job]
  }

  /** How many controllers returned without releasing in this run. */
  function Leaks(p: Pool, steps: seq<Step>): nat
    decreases |steps|
  {
    if steps == [] || !Enabled(p, steps[0]) then 0
    else (if LeaksSlot(p, steps[0]) then 1 else 0) + Leaks(Next(p, steps[0]), steps[1..])
  }

  lemma LookLeavesSlots(p: Pool)
    requires p.w.waiting > 0
    ensures Look(p).w.multiscan == p.w.multiscan && Look(p).w.controllers == p.w.controllers
  {
    hide Take, Taken, Signal, Contended;
  }

  lemma StepSlots(p: Pool, s: Step)
    requires Enabled(p, s)
    ensures var w, w' := p.w, Next(p, s).w;
            w'.multiscan - |w'.controllers| == w.multiscan - |w.controllers| + if LeaksSlot(p, s) then 1 else 0
  {
    hide Look, Contended, Dispatch;
    match s
    case Arrive(job, bulk, created, caller) => DispatchLeavesSlots(p, job, bulk, created, caller);
    case Retry(job, bulk, created, caller) =>
      DispatchLeavesSlots(p.(gate := Return(p.gate, bulk, caller)), job, bulk, created, caller);
    case Enter => LookLeavesSlots(p.(w := ClockIn(p.w)));
    case Wake => LookLeavesSlots(p);
    case Finish(job) => OneLess(p.w.controllers, job);
    case Release(job) => OneLess(p.w.controllers, job);
    case _ =>
  }

  lemma OneLess(controllers: multiset<Job>, job: Job)
    ensures job in controllers ==> |controllers - multiset{job}| == |controllers| - 1
  {
    if job in controllers {
      assert controllers == controllers - multiset{job} + multiset{job};
    }
  }

  lemma DispatchLeavesSlots(p: Pool, job: Job, bulk: bool, created: bool, caller: Caller)
    ensures var w := Dispatch(p, job, bulk, created, caller).w;
            w.multiscan == p.w.multiscan && w.controllers == p.w.controllers
  {
    hide Contended;
  }

  lemma {:induction false} RunSlots(p: Pool, steps: seq<Step>, r: Pool)
    requires Exec(p, steps) == Some(r)
    ensures r.w.multiscan - |r.w.controllers| == p.w.multiscan - |p.w.controllers| + Leaks(p, steps)
    decreases |steps|
  {
    hide Next, Enabled, LeaksSlot;
    if steps != [] {
      StepSlots(p, steps[0]);
      RunSlots(Next(p, steps[0]), steps[1..], r);
    }
  }

  /** Over every run: the slots taken are those of the controllers there are, and those that were leaked. */
  lemma SlotsCounted(maxThreads: int, maxQueue: int, steps: seq<Step>, p: Pool)
    requires Reaches(maxThreads, maxQueue, steps, p)
    ensures p.w.multiscan == |p.w.controllers| + Leaks(NewPool(maxThreads, maxQueue).value, steps)
  {
    hide Exec;
    PoolProgress.FreshAtRest(maxThreads, maxQueue);
    RunSlots(NewPool(maxThreads, maxQueue).value, steps, p);
  }

  /** The job is a controller once more. */
  predicate Granted(p: Pool, job: Job)
    requires Enabled(p, Claim(job))
  {
    Next(p, Claim(job)).w.controllers == p.w.controllers + multiset{job}
  }

  /** A claim is granted if and only if the controllers and the leaked slots leave one of `thr_max - 1`. */
  lemma GrantedIff(maxThreads: int, maxQueue: int, steps: seq<Step>, p: Pool, job: Job)
    requires Reaches(maxThreads, maxQueue, steps, p) && Enabled(p, Claim(job))
    ensures Granted(p, job) <==>
            |p.w.controllers| + Leaks(NewPool(maxThreads, maxQueue).value, steps) < maxThreads - 1
    ensures !Granted(p, job) ==> Next(p, Claim(job)) == p
  {
    hide Exec, NewPool, Leaks;
    SlotsCounted(maxThreads, maxQueue, steps, p);
    ReachedInv(maxThreads, maxQueue, steps, p);
    assert (p.w.controllers + multiset{job})[job] == p.w.controllers[job] + 1;
  }

  /** When every controller releases, a pool without controllers grants a claim, if it has two threads at all. */
  lemma ReleasedIsGranted(maxThreads: int, maxQueue: int, steps: seq<Step>, p: Pool, job: Job)
    requires Reaches(maxThreads, maxQueue, steps, p) && Enabled(p, Claim(job))
    requires Leaks(NewPool(maxThreads, maxQueue).value, steps) == 0 && p.w.controllers == multiset{}
    ensures Granted(p, job) <==> maxThreads >= 2
  {
    GrantedIff(maxThreads, maxQueue, steps, p, job);
  }

  lemma {:induction false} LeaksGrow(p: Pool, steps: seq<Step>, more: seq<Step>)
    requires Exec(p, steps).Some?
    ensures Leaks(p, steps + more) >= Leaks(p, steps)
    ensures Exec(p, steps + more) == Exec(Exec(p, steps).value, more)
    decreases |steps|
  {
    hide Next, Enabled, LeaksSlot;
    if steps == [] {
      assert steps + more == more;
    } else {
      assert (steps + more)[1..] == steps[1..] + more;
      LeaksGrow(Next(p, steps[0]), steps[1..], more);
    }
  }

  /** Once `thr_max - 1` controllers have leaked their slots, no claim is granted in any continuation. */
  lemma NeverGrantedAgain(maxThreads: int, maxQueue: int, steps: seq<Step>, p: Pool, more: seq<Step>, q: Pool, job: Job)
    requires Reaches(maxThreads, maxQueue, steps, p)
    requires Leaks(NewPool(maxThreads, maxQueue).value, steps) >= maxThreads - 1
    requires Exec(p, more) == Some(q) && Enabled(q, Claim(job))
    ensures !Granted(q, job)
  {
    hide Exec, NewPool, Leaks, Granted;
    LeaksGrow(NewPool(maxThreads, maxQueue).value, steps, more);
    GrantedIff(maxThreads, maxQueue, steps + more, q, job);
  }

  // --- A run that leaks every slot -----------------------------------------------------

  /** One worker sleeps, nothing is queued, and this many slots are taken by nobody. */
  ghost predicate OneSleeps(p: Pool, leaked: nat) {
    && Items(p.q) == 0 && p.gate == NO_GATE && p.w.running == p.w.controllers == multiset{}
    && p.w.ready == p.w.leaving == 0 && p.w.waiting == p.w.idle == p.w.alive == 1 && p.w.multiscan == leaked
  }

  /** One worker runs job 0. */
  ghost predicate OneRuns(p: Pool, leaked: nat) {
    && Items(p.q) == 0 && p.gate == NO_GATE && p.w.running == multiset{0} && p.w.controllers == multiset{}
    && p.w.ready == p.w.leaving == p.w.waiting == p.w.idle == 0 && p.w.alive == 1 && p.w.multiscan == leaked
  }

  lemma ComesIn(p: Pool, leaked: nat)
    requires OneSleeps(p, leaked) && p.queueMax >= 1
    ensures var a := Arrive(0, false, true, Outside);
            Enabled(p, a) && Enabled(Next(p, a), Wake) && OneRuns(Next(Next(p, a), Wake), leaked)
  {
    var q := Next(p, Arrive(0, false, true, Outside));
    assert q.w == p.w && q.gate == NO_GATE && q.q.single == [0] && q.q.bulk == [];
    PoolProgress.JobTaken(q, Wake, 0);
  }

  lemma ComesFirst(p: Pool)
    requires PoolProgress.AtRest(p, 0, 0, 0, multiset{}, NO_GATE) && p.queueMax >= 1 && p.thrMax >= 1
    ensures var a := Arrive(0, false, true, Outside);
            Enabled(p, a) && Enabled(Next(p, a), Enter) && OneRuns(Next(Next(p, a), Enter), 0)
  {
    var q := Next(p, Arrive(0, false, true, Outside));
    assert q.q.single == [0] && q.q.bulk == [] && q.gate == NO_GATE && q.w == p.w.(alive := 1, ready := 1);
    PoolProgress.JobTaken(q, Enter, 0);
  }

  /** The job gets a slot and returns with it; its worker finds nothing more to do. */
  lemma GoesOff(p: Pool, leaked: nat)
    requires OneRuns(p, leaked) && leaked + 1 < p.thrMax
    ensures Enabled(p, Claim(0)) && Enabled(Next(p, Claim(0)), Finish(0))
    ensures var q := Next(Next(p, Claim(0)), Finish(0));
            LeaksSlot(Next(p, Claim(0)), Finish(0)) && Enabled(q, Enter) && OneSleeps(Next(q, Enter), leaked + 1)
  {
    hide Contended;
    assert multiset{} + multiset{0} == multiset{0} && multiset{0} - multiset{0} == multiset{};
  }

  lemma {:induction false} LeaksSnoc(p: Pool, steps: seq<Step>, r: Pool, s: Step)
    requires Exec(p, steps) == Some(r) && Enabled(r, s)
    ensures Leaks(p, steps + [s]) == Leaks(p, steps) + if LeaksSlot(r, s) then 1 else 0
    decreases |steps|
  {
    hide Next, Enabled, LeaksSlot;
    if steps == [] {
      assert (steps + [s])[1..] == [];
    } else {
      assert (steps + [s])[1..] == steps[1..] + [s];
      LeaksSnoc(Next(p, steps[0]), steps[1..], r, s);
    }
  }

  /** A run of a new pool with thread creation working, and how many slots it leaked at least. */
  ghost predicate LeakTrack(maxThreads: int, maxQueue: int, steps: seq<Step>, p: Pool, leaked: nat) {
    && PoolProgress.Track(maxThreads, maxQueue, steps, p) && p.thrMax == maxThreads && p.queueMax == maxQueue
    && Leaks(NewPool(maxThreads, maxQueue).value, steps) >= leaked
  }

  lemma GoOn(maxThreads: int, maxQueue: int, steps: seq<Step>, p: Pool, leaked: nat, s: Step)
      returns (longer: seq<Step>, q: Pool, leaked': nat)
    requires LeakTrack(maxThreads, maxQueue, steps, p, leaked) && Enabled(p, s) && (IsDispatch(s) ==> s.created)
    ensures LeakTrack(maxThreads, maxQueue, longer, q, leaked') && q == Next(p, s)
    ensures leaked' == leaked + if LeaksSlot(p, s) then 1 else 0
  {
    hide Next, Enabled, LeaksSlot, NewPool;
    PoolProgress.ExecSnoc(NewPool(maxThreads, maxQueue).value, steps, p, s);
    LeaksSnoc(NewPool(maxThreads, maxQueue).value, steps, p, s);
    StepLimits(p, s);
    longer, q, leaked' := steps + [s], Next(p, s), leaked + if LeaksSlot(p, s) then 1 else 0;
  }

  lemma LeakOne(maxThreads: int, maxQueue: int, before: seq<Step>, b: Pool, leaked: nat)
      returns (steps: seq<Step>, p: Pool)
    requires LeakTrack(maxThreads, maxQueue, before, b, leaked) && OneRuns(b, leaked) && leaked + 1 < maxThreads
    ensures LeakTrack(maxThreads, maxQueue, steps, p, leaked + 1) && OneSleeps(p, leaked + 1)
  {
    hide Next, Enabled, LeakTrack, LeaksSlot, OneSleeps, OneRuns;
    assert b.thrMax == maxThreads by {
      LimitsKept(maxThreads, maxQueue, before, b, leaked);
    }
    GoesOff(b, leaked);
    var n;
    steps, p, n := GoOn(maxThreads, maxQueue, before, b, leaked, Claim(0));
    ClaimLeaksNothing(b);
    steps, p, n := GoOn(maxThreads, maxQueue, steps, p, n, Finish(0));
    var q := p;
    steps, p, n := GoOn(maxThreads, maxQueue, steps, p, n, Enter);
    EnterLeaksNothing(q);
  }

  lemma LimitsKept(maxThreads: int, maxQueue: int, steps: seq<Step>, p: Pool, leaked: nat)
    requires LeakTrack(maxThreads, maxQueue, steps, p, leaked)
    ensures p.thrMax == maxThreads && p.queueMax == maxQueue
  {
  }

  lemma ClaimLeaksNothing(p: Pool)
    ensures !LeaksSlot(p, Claim(0))
  {
  }

  lemma EnterLeaksNothing(p: Pool)
    ensures !LeaksSlot(p, Enter)
  {
  }

  /** In every pool that takes jobs and has room for a controller, some run leaks all slots it has. */
  lemma {:induction false} LeakingRun(maxThreads: int, maxQueue: int, n: nat) returns (steps: seq<Step>, p: Pool)
    requires 1 <= n <= maxThreads - 1 && maxQueue >= 1
    ensures LeakTrack(maxThreads, maxQueue, steps, p, n) && OneSleeps(p, n)
    decreases n
  {
    hide Next, Enabled, OneRuns, LeaksSlot;
    var k;
    if n == 1 {
      steps, p := [], NewPool(maxThreads, maxQueue).value;
      PoolProgress.FreshAtRest(maxThreads, maxQueue);
      ComesFirst(p);
      steps, p, k := GoOn(maxThreads, maxQueue, steps, p, 0, Arrive(0, false, true, Outside));
      steps, p, k := GoOn(maxThreads, maxQueue, steps, p, 0, Enter);
    } else {
      steps, p := LeakingRun(maxThreads, maxQueue, n - 1);
      ComesIn(p, n - 1);
      steps, p, k := GoOn(maxThreads, maxQueue, steps, p, n - 1, Arrive(0, false, true, Outside));
      steps, p, k := GoOn(maxThreads, maxQueue, steps, p, n - 1, Wake);
    }
    steps, p := LeakOne(maxThreads, maxQueue, steps, p, n - 1);
  }

  /** No controller is there, and MULTISCAN is refused from now on. */
  lemma SlotsLost(maxThreads: int, maxQueue: int) returns (steps: seq<Step>, p: Pool)
    requires maxThreads >= 2 && maxQueue >= 1
    ensures PoolProgress.Track(maxThreads, maxQueue, steps, p) && p.w.controllers == multiset{}
    ensures Leaks(NewPool(maxThreads, maxQueue).value, steps) >= maxThreads - 1
  {
    hide Leaks, NewPool;
    steps, p := LeakingRun(maxThreads, maxQueue, maxThreads - 1);
  }
}
