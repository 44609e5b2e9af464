/** The linked work queue: head, tail, next pointers and an item counter. */
module WorkQueueList {
  import opened Options
  import opened WorkPicker

  class WorkItem {
    var next: WorkItem?
    const data: Job

    constructor (data: Job)
      ensures this.data == data && next == null
    {
      this.data := data;
      next := null;
    }
  }

  function DataOf(items: seq<WorkItem>): seq<Job> {
    seq(|items|, i requires 0 <= i < |items| => items[i].data)
  }

  class WorkQueue {
    var head: WorkItem?
    var tail: WorkItem?
    var itemCount: int
    var popped: int
    ghost var spine: seq<WorkItem>

    /** The pointers run through the spine from head to tail, and the counter is its length. */
    ghost predicate Valid()
      reads this, spine
    {
      && itemCount == |spine|
      && (forall i, j :: 0 <= i < j < |spine| ==> spine[i] != spine[j])
      && (spine == [] ==> head == null && tail == null)
      && (spine != [] ==> head == spine[0] && tail == spine[|spine| - 1] && spine[|spine| - 1].next == null)
      && (forall i :: 0 <= i < |spine| - 1 ==> spine[i].next == spine[i + 1])
    }

    ghost function Contents(): seq<Job>
      reads this
    {
      DataOf(spine)
    }

    /** `work_queue_new` */
    constructor ()
      ensures Valid() && Contents() == [] && popped == 0
    {
      head, tail, itemCount, popped := null, null, 0, 0;
      spine := [];
    }

    /** `work_queue_add`; `hasMemory` is whether the item could be allocated. */
    method Add(data: Job, hasMemory: bool) returns (ok: bool)
      requires Valid()
      modifies this, spine
      ensures Valid() && popped == old(popped)
      ensures ok == hasMemory
      ensures Contents() == if ok then old(Contents()) + [data] else old(Contents())
      ensures if ok then |spine| == |old(spine)| + 1 && spine == old(spine) + [spine[|old(spine)|]] &&
                         fresh(spine[|old(spine)|])
              else spine == old(spine)
    {
      if !hasMemory {
        return false;
      }
      var item := new WorkItem(data);
      if head == null {
        head := item;
        tail := item;
        itemCount := 1;
      } else {
        tail.next := item;
        tail := item;
        itemCount := itemCount + 1;
      }
      spine := spine + [item];
      return true;
    }

    /** `work_queue_pop` */
    method Pop() returns (data: Option<Job>)
      requires Valid()
      modifies this
      ensures Valid() && popped == old(popped)
      ensures old(Contents()) == [] ==> data == None && Contents() == []
      ensures old(Contents()) != [] ==> data == Some(old(Contents())[0]) && Contents() == old(Contents())[1..]
      ensures forall o :: o in spine ==> o in old(spine)
    {
      if head == null {
        return None;
      }
      data := Some(head.data);
      head := head.next;
      if head == null {
        tail := null;
      }
      itemCount := itemCount - 1;
      spine := spine[1..];
    }
  }
}

/**
 The thread pool itself: two linked queues and shared counters, with one method per
 region that runs under `pool_mutex`. Each method is one step of `PoolModel`.
 */
module ThreadPools {
  import opened Options
  import opened WorkPicker
  import opened PoolModel
  import opened WorkQueueList

  datatype Outcome = Accepted | MustWait | NoMemory

  ghost predicate Apart(a: seq<WorkItem>, b: seq<WorkItem>) {
    forall i :: 0 <= i < |a| ==> a[i] !in b
  }

  lemma ApartShrinks(a: seq<WorkItem>, b: seq<WorkItem>, a': seq<WorkItem>, b': seq<WorkItem>)
    requires Apart(a, b) && Apart(b, a)
    requires forall o :: o in a' ==> o in a
    requires forall o :: o in b' ==> o in b
    ensures Apart(a', b') && Apart(b', a')
  {
  }

  lemma ApartSnoc(a: seq<WorkItem>, b: seq<WorkItem>, x: WorkItem)
    requires Apart(a, b) && Apart(b, a) && x !in b
    ensures Apart(a + [x], b) && Apart(b, a + [x])
  {
  }

  /** Takes from the first queue if it holds work, else from the second, and counts the pop. */
  method TakeEither(first: WorkQueue, second: WorkQueue, ratio: int) returns (job: Option<Job>)
    requires first != second && first.Valid() && second.Valid()
    modifies first, second
    ensures first.Valid() && second.Valid()
    ensures forall o :: o in first.spine ==> o in old(first.spine)
    ensures forall o :: o in second.spine ==> o in old(second.spine)
    ensures var a, b := old(first.Contents()), old(second.Contents());
            if a != [] then
              && job == Some(a[0]) && first.Contents() == a[1..] && second.Contents() == b
              && first.popped == old(first.popped) + 1
              && second.popped == if first.popped == ratio then 0 else old(second.popped)
            else if b != [] then
              && job == Some(b[0]) && first.Contents() == a && second.Contents() == b[1..]
              && second.popped == old(second.popped) + 1
              && first.popped == if second.popped == ratio then 0 else old(first.popped)
            else
              && job == None && first.Contents() == a && second.Contents() == b
              && first.popped == old(first.popped) && second.popped == old(second.popped)
  {
    job := first.Pop();
    if job.Some? {
      first.popped := first.popped + 1;
      if first.popped == ratio {
        second.popped := 0;
      }
    } else {
      job := second.Pop();
      if job.Some? {
        second.popped := second.popped + 1;
        if second.popped == ratio {
          first.popped := 0;
        }
      }
    }
  }

  /** The queues after a pick, when the single queue has its turn ... */
  lemma TakeSingleFirst(q: Queues)
    requires q.singlePopped < SINGLE_BULK_RATIO
    ensures var t := Take(q);
            if q.single != [] then
              Taken(q) == Some(q.single[0]) && t.single == q.single[1..] && t.bulk == q.bulk &&
              t.singlePopped == q.singlePopped + 1 &&
              t.bulkPopped == if t.singlePopped == SINGLE_BULK_RATIO then 0 else q.bulkPopped
            else if q.bulk != [] then
              Taken(q) == Some(q.bulk[0]) && t.single == q.single && t.bulk == q.bulk[1..] &&
              t.bulkPopped == q.bulkPopped + 1 &&
              t.singlePopped == if t.bulkPopped == SINGLE_BULK_RATIO then 0 else q.singlePopped
            else Taken(q) == None && t == q
  {
  }

  /** ... and when the bulk queue has. */
  lemma TakeBulkFirst(q: Queues)
    requires q.singlePopped >= SINGLE_BULK_RATIO
    ensures var t := Take(q);
            if q.bulk != [] then
              Taken(q) == Some(q.bulk[0]) && t.single == q.single && t.bulk == q.bulk[1..] &&
              t.bulkPopped == q.bulkPopped + 1 &&
              t.singlePopped == if t.bulkPopped == SINGLE_BULK_SUM - SINGLE_BULK_RATIO then 0 else q.singlePopped
            else if q.single != [] then
              Taken(q) == Some(q.single[0]) && t.single == q.single[1..] && t.bulk == q.bulk &&
              t.singlePopped == q.singlePopped + 1 &&
              t.bulkPopped == if t.singlePopped == SINGLE_BULK_SUM - SINGLE_BULK_RATIO then 0 else q.bulkPopped
            else Taken(q) == None && t == q
  {
  }

  class ThreadPool {
    const thrMax: int
    const queueMax: int
    const single: WorkQueue
    const bulk: WorkQueue
    var thrAlive: int
    var thrIdle: int
    var thrMultiscan: int
    ghost var model: Pool

    ghost predicate Valid()
      reads this, single, bulk, single.spine, bulk.spine
    {
      && single != bulk
      && single.Valid() && bulk.Valid()
      && Apart(single.spine, bulk.spine) && Apart(bulk.spine, single.spine)
      && model.thrMax == thrMax && model.queueMax == queueMax
      && model.q.single == single.Contents() && model.q.bulk == bulk.Contents()
      && model.q.singlePopped == single.popped && model.q.bulkPopped == bulk.popped
      && model.w.alive == thrAlive && model.w.idle == thrIdle && model.w.multiscan == thrMultiscan
    }

    /** `thrmgr_new` with a positive number of threads */
    constructor (maxThreads: int, maxQueue: int)
      requires maxThreads > 0
      ensures Valid()
      ensures Some(model) == NewPool(maxThreads, maxQueue)
    {
      thrMax, queueMax := maxThreads, maxQueue;
      single := new WorkQueue();
      bulk := new WorkQueue();
      thrAlive, thrIdle, thrMultiscan := 0, 0, 0;
      model := NewPool(maxThreads, maxQueue).value;
    }

    /** `thrmgr_contended` */
    method IsContended(forBulk: bool) returns (full: bool)
      requires Valid()
      ensures full == Contended(model, forBulk)
    {
      if forBulk && bulk.itemCount >= queueMax / 2 {
        return true;
      }
      return bulk.itemCount + single.itemCount + thrAlive - thrIdle >= queueMax;
    }

    /** The pick of `thrmgr_pop` */
    method PickJob() returns (job: Option<Job>)
      requires Valid()
      modifies this`model, single, bulk
      ensures Valid()
      ensures model == old(model).(q := Take(old(model).q))
      ensures job == Taken(old(model).q)
    {
      hide Apart, WorkQueue.Valid, WorkQueue.Contents;
      ghost var a, b, q := single.spine, bulk.spine, model.q;
      if single.popped < SINGLE_BULK_RATIO {
        job := TakeEither(single, bulk, SINGLE_BULK_RATIO);
        TakeSingleFirst(q);
      } else {
        job := TakeEither(bulk, single, SINGLE_BULK_SUM - SINGLE_BULK_RATIO);
        TakeBulkFirst(q);
      }
      ApartShrinks(a, b, single.spine, bulk.spine);
      model := model.(q := Take(model.q));
    }

    /** `thrmgr_pop`: the pick and the two signals */
    method PopJob() returns (job: Option<Job>)
      requires Valid()
      modifies this`model, single, bulk
      ensures Valid()
      ensures model == Pop(old(model))
      ensures job == Taken(old(model).q)
    {
      hide Apart, WorkQueue.Valid, WorkQueue.Contents, Take, Taken, Signal, Contended;
      ghost var gate := model.gate;
      job := PickJob();
      var fullSingle := IsContended(false);
      var fullBulk := IsContended(true);
      model := model.(gate := Signal(gate, !fullSingle, !fullBulk));
    }

    method EnqueueSingle(job: Job, hasMemory: bool) returns (added: bool)
      requires Valid()
      modifies this`model, single, single.spine
      ensures Valid() && added == hasMemory
      ensures model == if added then old(model).(q := Add(old(model).q, job, false)) else old(model)
    {
      ghost var a, b := single.spine, bulk.spine;
      added := single.Add(job, hasMemory);
      hide Apart, WorkQueue.Valid;
      if added {
        ApartSnoc(a, b, single.spine[|a|]);
        model := model.(q := Add(model.q, job, false));
      }
    }

    method EnqueueBulk(job: Job, hasMemory: bool) returns (added: bool)
      requires Valid()
      modifies this`model, bulk, bulk.spine
      ensures Valid() && added == hasMemory
      ensures model == if added then old(model).(q := Add(old(model).q, job, true)) else old(model)
    {
      ghost var a, b := single.spine, bulk.spine;
      added := bulk.Add(job, hasMemory);
      hide Apart, WorkQueue.Valid;
      if added {
        ApartSnoc(b, a, bulk.spine[|b|]);
        model := model.(q := Add(model.q, job, true));
      }
    }

    method Enqueue(job: Job, toBulk: bool, hasMemory: bool) returns (added: bool)
      requires Valid()
      modifies this`model, single, bulk, single.spine, bulk.spine
      ensures Valid()
      ensures added == hasMemory
      ensures model == if added then old(model).(q := Add(old(model).q, job, toBulk)) else old(model)
    {
      hide Add, Apart, WorkQueue.Valid;
      if toBulk {
        added := EnqueueBulk(job, hasMemory);
      } else {
        added := EnqueueSingle(job, hasMemory);
      }
    }

    /** The end of `thrmgr_dispatch_internal`, with room in the queue */
    method AcceptJob(job: Job, toBulk: bool, hasMemory: bool, created: bool) returns (out: Outcome)
      requires Valid()
      modifies this, single, bulk, single.spine, bulk.spine
      ensures Valid()
      ensures out == if hasMemory then Accepted else NoMemory
      ensures model == if hasMemory then Accept(old(model), job, toBulk, created) else old(model)
    {
      hide Add, Apart;
      var added := Enqueue(job, toBulk, hasMemory);
      if !added {
        return NoMemory;
      }
      var items := single.itemCount + bulk.itemCount;
      if thrIdle < items && thrAlive < thrMax && created {
        thrAlive := thrAlive + 1;
        model := model.(w := model.w.(alive := model.w.alive + 1, ready := model.w.ready + 1));
      }
      return Accepted;
    }

    /** One turn of the wait loop in `thrmgr_dispatch_internal` */
    method TurnAtGate(job: Job, toBulk: bool, hasMemory: bool, created: bool, ghost caller: Caller)
        returns (out: Outcome)
      requires Valid()
      modifies this, single, bulk, single.spine, bulk.spine
      ensures Valid()
      ensures out == NoMemory ==> model == old(model)
      ensures out != NoMemory ==> model == Dispatch(old(model), job, toBulk, created, caller)
      ensures out == MustWait <==> Contended(old(model), toBulk)
      ensures out == NoMemory <==> !Contended(old(model), toBulk) && !hasMemory
    {
      hide Contended, Accept, WorkQueue.Valid, Apart;
      var full := IsContended(toBulk);
      if full {
        model := model.(gate := FallAsleep(model.gate, toBulk, caller));
        return MustWait;
      }
      out := AcceptJob(job, toBulk, hasMemory, created);
    }

    /** The locked region of `thrmgr_dispatch_internal`, up to its wait or its end */
    method TryDispatch(job: Job, toBulk: bool, hasMemory: bool, created: bool, ghost caller: Caller)
        returns (out: Outcome)
      requires Valid() && Enabled(model, Arrive(job, toBulk, created, caller))
      modifies this, single, bulk, single.spine, bulk.spine
      ensures Valid()
      ensures out == NoMemory ==> model == old(model)
      ensures out != NoMemory ==> model == Next(old(model), Arrive(job, toBulk, created, caller))
      ensures out == MustWait <==> Contended(old(model), toBulk)
      ensures out == NoMemory <==> !Contended(old(model), toBulk) && !hasMemory
    {
      hide Contended, Dispatch, WorkQueue.Valid, Apart;
      out := TurnAtGate(job, toBulk, hasMemory, created, caller);
    }

    /** The same region after the wait */
    method RetryDispatch(job: Job, toBulk: bool, hasMemory: bool, created: bool, ghost caller: Caller)
      returns (out: Outcome)
      requires Valid() && Enabled(model, Retry(job, toBulk, created, caller))
      modifies this, single, bulk, single.spine, bulk.spine
      ensures Valid()
      ensures out == NoMemory ==> model == old(model).(gate := Return(old(model).gate, toBulk, caller))
      ensures out != NoMemory ==> model == Next(old(model), Retry(job, toBulk, created, caller))
      ensures out == MustWait <==> Contended(old(model), toBulk)
      ensures out == NoMemory <==> !Contended(old(model), toBulk) && !hasMemory
    {
      hide Contended, Dispatch, WorkQueue.Valid, Apart;
      ghost var gate := Return(model.gate, toBulk, caller);
      GateApart(model, gate, toBulk);
      model := model.(gate := gate);
      out := TurnAtGate(job, toBulk, hasMemory, created, caller);
    }

    /** The start of a turn of `thrmgr_worker`'s loop, up to its first wait or its job */
    method WorkerEnter() returns (job: Option<Job>)
      requires Valid() && model.w.ready > 0
      modifies this, single, bulk
      ensures Valid()
      ensures model == Next(old(model), Enter)
      ensures job == Taken(old(model).q)
    {
      hide Apart, WorkQueue.Valid, WorkQueue.Contents, Take, Taken, Signal, Contended;
      thrIdle := thrIdle + 1;
      model := model.(w := ClockIn(model.w));
      job := PopJob();
      if job.Some? {
        thrIdle := thrIdle - 1;
        model := model.(w := StartJob(model.w, job.value));
      }
    }

    /** One wakeup in the wait loop of `thrmgr_worker` */
    method WorkerWake() returns (job: Option<Job>)
      requires Valid() && model.w.waiting > 0
      modifies this, single, bulk
      ensures Valid()
      ensures model == Next(old(model), Wake)
      ensures job == Taken(old(model).q)
    {
      hide Apart, WorkQueue.Valid, WorkQueue.Contents, Take, Taken, Signal, Contended;
      job := PopJob();
      if job.Some? {
        thrIdle := thrIdle - 1;
        model := model.(w := StartJob(model.w, job.value));
      }
    }

    /** The wait of `thrmgr_worker` times out */
    method WorkerTimeout()
      requires Valid() && model.w.waiting > 0
      modifies this
      ensures Valid()
      ensures model == Next(old(model), Timeout)
    {
      thrIdle := thrIdle - 1;
      model := Next(model, Timeout);
    }

    /** The final decision of a timed-out worker, with both locks held */
    method WorkerDecide() returns (retired: bool)
      requires Valid() && model.w.leaving > 0
      modifies this
      ensures Valid()
      ensures model == Next(old(model), Decide)
      ensures retired <==> Items(old(model).q) == 0
    {
      retired := !(single.itemCount != 0 || bulk.itemCount != 0);
      if retired {
        thrAlive := thrAlive - 1;
      }
      model := Next(model, Decide);
    }

    /** A MULTISCAN command asks for a controller slot */
    method ClaimMultiscan(job: Job) returns (ok: bool)
      requires Valid() && Enabled(model, Claim(job))
      modifies this
      ensures Valid()
      ensures model == Next(old(model), Claim(job))
      ensures ok <==> old(model).w.multiscan < thrMax - 1
    {
      ok := thrMultiscan + 1 < thrMax;
      if ok {
        thrMultiscan := thrMultiscan + 1;
      }
      model := Next(model, Claim(job));
    }

    /** A MULTISCAN command is done waiting for its jobs */
    method ReleaseMultiscan(job: Job)
      requires Valid() && Enabled(model, Release(job))
      modifies this
      ensures Valid()
      ensures model == Next(old(model), Release(job))
    {
      thrMultiscan := thrMultiscan - 1;
      model := Next(model, Release(job));
    }
  }
}
