/**
 Job groups of the thread manager: a reference count shared by the owner of the
 group and its dispatched jobs, and the counters of how the jobs ended.
 */
module JobGroups {
  import opened Options

  type JobId = nat

  datatype Exit = ExitOk | ExitError | ExitOther

  /** What the shared structure holds; `freed` is whether its memory was released. */
  datatype Counts = Counts(jobs: nat, ok: nat, error: nat, total: nat, freed: bool)

  const NEW_GROUP: Counts := Counts(1, 0, 0, 0, false)

  function Tally(c: Counts, exit: Exit): Counts {
    c.(total := c.total + 1,
       ok := if exit.ExitOk? then c.ok + 1 else c.ok,
       error := if exit.ExitError? then c.error + 1 else c.error)
  }

  /** Gives one reference back; the last one frees the group. */
  function Drop(c: Counts): Counts {
    if c.jobs == 0 then c else c.(jobs := c.jobs - 1, freed := c.freed || c.jobs == 1)
  }

  /** The group as it lies in memory; one method per region under its mutex. */
  class JobGroup {
    var jobs: nat
    var exitOk: nat
    var exitError: nat
    var exitTotal: nat
    ghost var freed: bool

    ghost function State(): Counts
      reads this
    {
      Counts(jobs, exitOk, exitError, exitTotal, freed)
    }

    /** `thrmgr_group_new` */
    constructor ()
      ensures State() == NEW_GROUP
    {
      jobs, exitOk, exitError, exitTotal, freed := 1, 0, 0, 0, false;
    }

    /** The first half of `thrmgr_group_dispatch` */
    method BeginDispatch()
      modifies this
      ensures State() == old(State()).(jobs := old(jobs) + 1)
    {
      jobs := jobs + 1;
    }

    /** `thrmgr_group_dispatch` after the pool refused the job */
    method UndoDispatch()
      requires jobs > 0
      modifies this
      ensures State() == old(State()).(jobs := old(jobs) - 1)
    {
      jobs := jobs - 1;
    }

    /** `thrmgr_group_finished` */
    method Finished(exit: Exit) returns (last: bool)
      modifies this
      ensures State() == Drop(Tally(old(State()), exit))
      ensures last <==> old(jobs) == 1
    {
      last := false;
      exitTotal := exitTotal + 1;
      match exit {
        case ExitOk => exitOk := exitOk + 1;
        case ExitError => exitError := exitError + 1;
        case ExitOther =>
      }
      if jobs != 0 {
        jobs := jobs - 1;
        if jobs == 0 {
          last := true;
        }
      }
      if last {
        freed := true;
      }
    }

    /** `thrmgr_group_waitforall` once it stops waiting: alone, or because the program is shutting down */
    method StopWaiting(progexit: bool) returns (ok: nat, error: nat, total: nat, needFree: bool)
      requires jobs > 0 && (jobs == 1 || progexit)
      modifies this
      ensures State() == Drop(old(State()))
      ensures ok == old(exitOk) && total == old(exitTotal)
      ensures error == old(exitError) + if old(jobs) > 1 then 1 else 0
      ensures needFree <==> old(jobs) == 1
    {
      var needExit := jobs > 1 && progexit;
      ok := exitOk;
      error := exitError + if needExit then 1 else 0;
      total := exitTotal;
      jobs := jobs - 1;
      needFree := jobs == 0;
      if needFree {
        freed := true;
      }
    }
  }

  // --- Everyone who uses a group ---------------------------------------------------

  /**
   The group and its holders. The owner created the group and is the only one who
   dispatches to it; a job holds a reference from the start of its dispatch until it ends.
   */
  datatype World = World(
    group: Counts,
    owner: bool,               // the owner still holds its reference
    dispatching: set<JobId>,   // handed to the pool, not accepted or refused yet
    active: set<JobId>,        // accepted, not finished
    accepted: nat,             // history: how many jobs the pool accepted
    ended: seq<Exit>)          // history: how each finished job ended

  const NEW_WORLD: World := World(NEW_GROUP, true, {}, {}, 0, [])

  datatype Event =
    | Begin(id: JobId)
    | Accepted(id: JobId)
    | Refused(id: JobId)
    | JobEnds(id: JobId, exit: Exit)
    | OwnerLeaves(exit: Exit)            // the owner calls thrmgr_group_finished
    | OwnerWaited(needExit: bool)        // the owner's thrmgr_group_waitforall returns

  predicate Enabled(w: World, e: Event) {
    match e
    case Begin(id) => w.owner && id !in w.dispatching && id !in w.active
    case Accepted(id) => id in w.dispatching
    case Refused(id) => id in w.dispatching
    case JobEnds(id, _) => id in w.active
    case OwnerLeaves(_) => w.owner && w.dispatching == {}
    case OwnerWaited(needExit) => w.owner && w.dispatching == {} && needExit == (w.group.jobs > 1)
  }

  function Next(w: World, e: Event): World
    requires Enabled(w, e)
  {
    var g := w.group;
    match e
    case Begin(id) => w.(group := g.(jobs := g.jobs + 1), dispatching := w.dispatching + {id})
    case Accepted(id) => w.(dispatching := w.dispatching - {id}, active := w.active + {id}, accepted := w.accepted + 1)
    case Refused(id) =>
      w.(group := g.(jobs := if g.jobs == 0 then 0 else g.jobs - 1), dispatching := w.dispatching - {id})
    case JobEnds(id, exit) =>
      w.(group := Drop(Tally(g, exit)), active := w.active - {id}, ended := w.ended + [exit])
    case OwnerLeaves(exit) => w.(group := Drop(Tally(g, exit)), owner := false)
    case OwnerWaited(_) => w.(group := Drop(g), owner := false)
  }

  /** Whether the call behind an event reports that it freed the group. */
  predicate Reports(w: World, e: Event) {
    (e.JobEnds? || e.OwnerLeaves? || e.OwnerWaited?) && w.group.jobs == 1
  }

  function Exec(w: World, events: seq<Event>): Option<World>
    decreases |events|
  {
    if events == [] then Some(w)
    else if Enabled(w, events[0]) then Exec(Next(w, events[0]), events[1..])
    else None
  }

  function ReportCount(w: World, events: seq<Event>): nat
    decreases |events|
  {
    if events == [] || !Enabled(w, events[0]) then 0
    else (if Reports(w, events[0]) then 1 else 0) + ReportCount(Next(w, events[0]), events[1..])
  }

  function Holders(w: World): nat {
    (if w.owner then 1 else 0) + |w.dispatching| + |w.active|
  }

  ghost predicate Inv(w: World) {
    && w.group.jobs == Holders(w)
    && (w.group.freed <==> w.group.jobs == 0)
    && w.dispatching !! w.active
    && w.accepted == |w.active| + |w.ended|
    && (w.dispatching != {} ==> w.owner)
  }

  lemma StepKeeps(w: World, e: Event)
    requires Inv(w) && Enabled(w, e)
    ensures Inv(Next(w, e))
    ensures !w.group.freed
    ensures Next(w, e).group.freed <==> Reports(w, e)
  {
    match e
    case Begin(id) =>
    case Accepted(id) => assert id in w.dispatching;
    case Refused(id) => assert id in w.dispatching;
    case JobEnds(id, _) =>
      assert id in w.active;
      assert |w.active| >= 1;
    case OwnerLeaves(_) =>
    case OwnerWaited(_) =>
  }

  /**
   In every run in which owner and jobs each give their reference back once: the group is
   freed exactly when nobody holds it any more, exactly one call reports having freed it,
   and no call reaches a freed group.
   */
  lemma {:induction false} GroupLifetime(w: World, events: seq<Event>, r: World)
    requires Inv(w) && Exec(w, events) == Some(r)
    ensures Inv(r)
    ensures r.group.freed <==> Holders(r) == 0
    ensures !w.group.freed ==> ReportCount(w, events) == if r.group.freed then 1 else 0
    ensures events != [] ==> !w.group.freed
    decreases |events|
  {
    if events != [] {
      StepKeeps(w, events[0]);
      GroupLifetime(Next(w, events[0]), events[1..], r);
      assert Next(w, events[0]).group.freed ==> events[1..] == [];
    }
  }

  // --- MULTISCAN accounting --------------------------------------------------------

  function EndedAs(ended: seq<Exit>, exit: Exit): nat {
    if ended == [] then 0
    else EndedAs(ended[..|ended| - 1], exit) + if ended[|ended| - 1] == exit then 1 else 0
  }

  /** While the owner holds on, the counters are the finished jobs, sorted by how they ended. */
  ghost predicate Tallied(g: Counts, ended: seq<Exit>) {
    && g.total == |ended|
    && g.ok == EndedAs(ended, ExitOk)
    && g.error == EndedAs(ended, ExitError)
  }

  lemma TallyKeeps(g: Counts, ended: seq<Exit>, exit: Exit)
    requires Tallied(g, ended)
    ensures Tallied(Drop(Tally(g, exit)), ended + [exit])
  {
    assert (ended + [exit])[..|ended|] == ended;
  }

  lemma {:induction false} Partition(ended: seq<Exit>)
    ensures EndedAs(ended, ExitOk) + EndedAs(ended, ExitError) + EndedAs(ended, ExitOther) == |ended|
  {
    if ended != [] {
      Partition(ended[..|ended| - 1]);
    }
  }

  lemma {:induction false} RunTallies(w: World, events: seq<Event>, r: World)
    requires Inv(w) && Tallied(w.group, w.ended) && Exec(w, events) == Some(r) && r.owner
    ensures Tallied(r.group, r.ended)
    decreases |events|
  {
    if events != [] {
      var e := events[0];
      StepKeeps(w, e);
      OwnerStays(Next(w, e), events[1..], r);
      if e.JobEnds? {
        TallyKeeps(w.group, w.ended, e.exit);
      }
      RunTallies(Next(w, e), events[1..], r);
    }
  }

  lemma {:induction false} OwnerStays(w: World, events: seq<Event>, r: World)
    requires Exec(w, events) == Some(r) && r.owner
    ensures w.owner
    decreases |events|
  {
    if events != [] {
      OwnerStays(Next(w, events[0]), events[1..], r);
    }
  }

  const TWO32: int := 0x1_0000_0000

  /** The `int` that `total - (ok + error)` on unsigned ints is stored into. */
  function VirusCount(ok: nat, error: nat, total: nat): int {
    var u := (total - (ok + error)) % TWO32;
    if u >= TWO32 / 2 then u - TWO32 else u
  }

  predicate RepliesOk(ok: nat, error: nat, total: nat) {
    ok + error == total && error != total
  }

  /**
   What a MULTISCAN reports when its wait is over. Without a shutdown every dispatched job has
   finished, the count of viruses is the number of infected jobs, and OK is the reply only
   when none was infected. A shutdown during the wait adds one to the errors: then the virus
   count is one too low, and OK is the reply exactly when one job was infected and one clean.
   */
  lemma MultiscanReport(events: seq<Event>, w: World, needExit: bool)
    requires Exec(NEW_WORLD, events) == Some(w) && Enabled(w, OwnerWaited(needExit))
    requires |w.ended| < TWO32 / 2
    ensures var infected := EndedAs(w.ended, ExitOther);
            var ok, error, total := w.group.ok, w.group.error + (if needExit then 1 else 0), w.group.total;
            && (!needExit ==> total == w.accepted)
            && VirusCount(ok, error, total) == infected - (if needExit then 1 else 0)
            && (RepliesOk(ok, error, total) <==> infected == (if needExit then 1 else 0) && ok > 0)
  {
    NewWorldInv();
    GroupLifetime(NEW_WORLD, events, w);
    RunTallies(NEW_WORLD, events, w);
    Partition(w.ended);
    ReportArithmetic(w.group.ok, w.group.error, EndedAs(w.ended, ExitOther), needExit);
  }

  lemma ReportArithmetic(ok: nat, error: nat, infected: nat, needExit: bool)
    requires ok + error + infected < TWO32 / 2
    ensures var extra := if needExit then 1 else 0;
            var total := ok + error + infected;
            && VirusCount(ok, error + extra, total) == infected - extra
            && (RepliesOk(ok, error + extra, total) <==> infected == extra && ok > 0)
  {
    if needExit && infected == 0 {
      assert (-1) % TWO32 == TWO32 - 1;
    }
  }

  lemma NewWorldInv()
    ensures Inv(NEW_WORLD) && Tallied(NEW_GROUP, [])
  {
  }

  /** The OK reply rules out an infected job except in a shutdown with one infected and some clean jobs. */
  lemma OkMeansClean(events: seq<Event>, w: World, needExit: bool)
    requires Exec(NEW_WORLD, events) == Some(w) && Enabled(w, OwnerWaited(needExit))
    requires |w.ended| < TWO32 / 2
    ensures var error := w.group.error + (if needExit then 1 else 0);
            (RepliesOk(w.group.ok, error, w.group.total) ==> EndedAs(w.ended, ExitOther) == 0) <==>
            !(needExit && EndedAs(w.ended, ExitOther) == 1 && w.group.ok > 0)
  {
    MultiscanReport(events, w, needExit);
  }

  lemma ExecCons(w: World, e: Event, events: seq<Event>)
    requires Enabled(w, e)
    ensures Exec(w, [e] + events) == Exec(Next(w, e), events)
  {
    hide Enabled, Next;
    assert ([e] + events)[1..] == events;
  }

  lemma Launched(w: World, id: JobId, events: seq<Event>)
    requires Enabled(w, Begin(id))
    ensures var r := w.(group := w.group.(jobs := w.group.jobs + 1), active := w.active + {id},
            accepted := w.accepted + 1);
            Exec(w, [Begin(id)] + ([Accepted(id)] + events)) == Exec(r, events)
  {
    ExecCons(w, Begin(id), [Accepted(id)] + events);
    var v := Next(w, Begin(id));
    ExecCons(v, Accepted(id), events);
    assert v.dispatching - {id} == w.dispatching;
  }

  function ThreeActive(): World {
    World(NEW_GROUP.(jobs := 4), true, {}, {0, 1, 2}, 3, [])
  }

  lemma LaunchThree(tail: seq<Event>) returns (events: seq<Event>)
    ensures Exec(NEW_WORLD, events) == Exec(ThreeActive(), tail)
  {
    hide Exec;
    var third := [Begin(2)] + ([Accepted(2)] + tail);
    var second := [Begin(1)] + ([Accepted(1)] + third);
    events := [Begin(0)] + ([Accepted(0)] + second);
    var w1 := World(NEW_GROUP.(jobs := 2), true, {}, {0}, 1, []);
    var w2 := World(NEW_GROUP.(jobs := 3), true, {}, {0, 1}, 2, []);
    assert NEW_WORLD.active + {0} == {0} && {0} + {1} == {0, 1} && {0, 1} + {2} == {0, 1, 2};
    Launched(NEW_WORLD, 0, second);
    Launched(w1, 1, third);
    Launched(w2, 2, tail);
  }

  /** Three files, one infected, one clean and one still being scanned when the program shuts down: the reply is OK. */
  lemma FalseOkRun() returns (events: seq<Event>, w: World)
    ensures Exec(NEW_WORLD, events) == Some(w) && Enabled(w, OwnerWaited(true))
    ensures EndedAs(w.ended, ExitOther) == 1 && RepliesOk(w.group.ok, w.group.error + 1, w.group.total)
  {
    var w3 := ThreeActive();
    var w4 := Next(w3, JobEnds(0, ExitOther));
    w := Next(w4, JobEnds(1, ExitOk));
    events := LaunchThree([JobEnds(0, ExitOther)] + ([JobEnds(1, ExitOk)] + []));
    ExecCons(w3, JobEnds(0, ExitOther), [JobEnds(1, ExitOk)] + []);
    ExecCons(w4, JobEnds(1, ExitOk), []);
    OneOfEach();
    assert w.ended == [ExitOther, ExitOk];
  }

  lemma OneOfEach()
    ensures EndedAs([ExitOther, ExitOk], ExitOther) == 1
  {
    assert [ExitOther, ExitOk][..1] == [ExitOther] && [ExitOther][..0] == [];
  }
}
