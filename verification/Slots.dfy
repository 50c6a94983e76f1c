/** The worker pool's slots: one counting semaphore for tasks and one for batches, each with two
    counters, and one counter of executions that both share. Every counter is changed by its own
    atomic step, by any number of callers in any interleaving. */
module Slots {

  /** Where one caller stands. The names say what it has done so far. */
  datatype Phase =
    | Queued      // counted in the queue, waiting in the select
    | Taken       // slot taken, gauge not yet raised
    | Raised      // gauge raised, execution not yet counted
    | Counted     // execution counted, still in the queue count
    | Holding     // acquire returned a release function
    | Releasing   // slot given back, gauge not yet lowered
    | Released
    | Cancelled   // context done, still in the queue count
    | Refused     // acquire returned an error

  type Caller = nat

  /** One semaphore with its gauge, its queue count and its callers. */
  datatype Lane = Lane(capacity: nat, sem: nat, active: int, queued: int, phase: map<Caller, Phase>)

  datatype Move =
    | Enqueue(c: Caller) | Take(c: Caller) | Raise(c: Caller) | Count(c: Caller) | Return(c: Caller)
    | Cancel(c: Caller) | Refuse(c: Caller) | GiveBack(c: Caller) | Lower(c: Caller)

  predicate At(l: Lane, c: Caller, p: Phase) {
    c in l.phase && l.phase[c] == p
  }

  /** A slot is taken only while the semaphore has room; each caller releases at most once. */
  predicate CanMove(l: Lane, m: Move) {
    match m
    case Enqueue(c) => c !in l.phase
    case Take(c) => At(l, c, Queued) && l.sem < l.capacity
    case Raise(c) => At(l, c, Taken)
    case Count(c) => At(l, c, Raised)
    case Return(c) => At(l, c, Counted)
    case Cancel(c) => At(l, c, Queued)
    case Refuse(c) => At(l, c, Cancelled)
    case GiveBack(c) => At(l, c, Holding) && l.sem > 0
    case Lower(c) => At(l, c, Releasing)
  }

  function Moved(l: Lane, m: Move): Lane
    requires CanMove(l, m)
  {
    match m
    case Enqueue(c) => l.(queued := l.queued + 1, phase := l.phase[c := Queued])
    case Take(c) => l.(sem := l.sem + 1, phase := l.phase[c := Taken])
    case Raise(c) => l.(active := l.active + 1, phase := l.phase[c := Raised])
    case Count(c) => l.(phase := l.phase[c := Counted])
    case Return(c) => l.(queued := l.queued - 1, phase := l.phase[c := Holding])
    case Cancel(c) => l.(phase := l.phase[c := Cancelled])
    case Refuse(c) => l.(queued := l.queued - 1, phase := l.phase[c := Refused])
    case GiveBack(c) => l.(sem := l.sem - 1, phase := l.phase[c := Releasing])
    case Lower(c) => l.(active := l.active - 1, phase := l.phase[c := Released])
  }

  datatype Kind = Task | Batch

  datatype Pool = Pool(task: Lane, batch: Lane, total: int)
  {
    function LaneOf(kind: Kind): Lane {
      if kind.Task? then task else batch
    }

    function With(kind: Kind, l: Lane): Pool {
      if kind.Task? then this.(task := l) else this.(batch := l)
    }
  }

  datatype Step = On(kind: Kind, move: Move)

  predicate Enabled(s: Pool, step: Step) {
    CanMove(s.LaneOf(step.kind), step.move)
  }

  /** Counting an execution is the one step that touches both lanes' common counter. */
  function Apply(s: Pool, step: Step): Pool
    requires Enabled(s, step)
  {
    s.With(step.kind, Moved(s.LaneOf(step.kind), step.move)).(total := s.total + if step.move.Count? then 1 else 0)
  }

  ghost predicate IsRun(s: Pool, steps: seq<Step>)
    decreases |steps|
  {
    steps == [] || (Enabled(s, steps[0]) && IsRun(Apply(s, steps[0]), steps[1..]))
  }

  ghost function Final(s: Pool, steps: seq<Step>): Pool
    requires IsRun(s, steps)
    decreases |steps|
  {
    if steps == [] then s else Final(Apply(s, steps[0]), steps[1..])
  }

  const TASK_SLOTS := 5
  const BATCH_SLOTS := 50

  function EmptyLane(capacity: nat): Lane {
    Lane(capacity, 0, 0, 0, map[])
  }

  function Initial(): Pool {
    Pool(EmptyLane(TASK_SLOTS), EmptyLane(BATCH_SLOTS), 0)
  }

  /* ---- counting callers ---- */

  ghost function In(l: Lane, phases: set<Phase>): set<Caller> {
    set c | c in l.phase && l.phase[c] in phases
  }

  const HAS_SLOT: set<Phase> := {Taken, Raised, Counted, Holding}
  const ON_GAUGE: set<Phase> := {Raised, Counted, Holding, Releasing}
  const IN_QUEUE: set<Phase> := {Queued, Taken, Raised, Counted, Cancelled}
  const EXECUTED: set<Phase> := {Counted, Holding, Releasing, Released}

  ghost predicate LaneInv(l: Lane) {
    && l.sem == |In(l, HAS_SLOT)| <= l.capacity
    && l.active == |In(l, ON_GAUGE)|
    && l.queued == |In(l, IN_QUEUE)|
  }

  ghost predicate Inv(s: Pool) {
    LaneInv(s.task) && LaneInv(s.batch) && s.total == |In(s.task, EXECUTED)| + |In(s.batch, EXECUTED)|
  }

  /** Moving one caller changes each count by what that caller contributes. */
  lemma Recount(l: Lane, t: Lane, c: Caller, p: Phase, phases: set<Phase>)
    requires t.phase == l.phase[c := p]
    ensures |In(t, phases)| == |In(l, phases)|
          + (if p in phases then 1 else 0) - (if c in l.phase && l.phase[c] in phases then 1 else 0)
  {
    var before, after := In(l, phases), In(t, phases);
    assert before - {c} == after - {c};
    assert after == if p in phases then (before - {c}) + {c} else before - {c};
  }

  lemma MoveKeepsInv(l: Lane, m: Move)
    requires LaneInv(l) && CanMove(l, m)
    ensures LaneInv(Moved(l, m)) && Moved(l, m).capacity == l.capacity
    ensures |In(Moved(l, m), EXECUTED)| == |In(l, EXECUTED)| + if m.Count? then 1 else 0
  {
    var t := Moved(l, m);
    var p := t.phase[m.c];
    Recount(l, t, m.c, p, HAS_SLOT);
    Recount(l, t, m.c, p, ON_GAUGE);
    Recount(l, t, m.c, p, IN_QUEUE);
    Recount(l, t, m.c, p, EXECUTED);
  }

  lemma StepKeepsInv(s: Pool, step: Step)
    requires Inv(s) && Enabled(s, step)
    ensures Inv(Apply(s, step))
    ensures Apply(s, step).task.capacity == s.task.capacity && Apply(s, step).batch.capacity == s.batch.capacity
  {
    MoveKeepsInv(s.LaneOf(step.kind), step.move);
  }

  /** In every run: each semaphore counts its slot holders and never exceeds its capacity, so a
      cancelled acquire leaves no slot behind, and the executions are those of both lanes. */
  lemma {:induction false} RunKeepsInv(s: Pool, steps: seq<Step>)
    requires Inv(s) && IsRun(s, steps)
    ensures Inv(Final(s, steps))
    ensures Final(s, steps).task.capacity == s.task.capacity && Final(s, steps).batch.capacity == s.batch.capacity
    decreases |steps|
  {
    if steps != [] {
      StepKeepsInv(s, steps[0]);
      RunKeepsInv(Apply(s, steps[0]), steps[1..]);
    }
  }

  lemma InitialInv()
    ensures Inv(Initial())
  {
    forall phases, n ensures In(EmptyLane(n), phases) == {} {
    }
  }

  /** The gauge is holders plus callers between giving back and lowering minus callers between taking
      and raising. */
  lemma GaugeDecomposition(steps: seq<Step>, kind: Kind)
    requires IsRun(Initial(), steps)
    ensures var l := Final(Initial(), steps).LaneOf(kind);
            && |In(l, HAS_SLOT)| <= l.capacity
            && l.active == |In(l, HAS_SLOT)| + |In(l, {Releasing})| - |In(l, {Taken})|
  {
    InitialInv();
    RunKeepsInv(Initial(), steps);
    Decompose(Final(Initial(), steps).LaneOf(kind));
  }

  lemma Decompose(l: Lane)
    requires LaneInv(l)
    ensures l.active == |In(l, HAS_SLOT)| + |In(l, {Releasing})| - |In(l, {Taken})|
  {
    var both := {Raised, Counted, Holding};
    assert In(l, HAS_SLOT) == In(l, both) + In(l, {Taken});
    assert In(l, ON_GAUGE) == In(l, both) + In(l, {Releasing});
  }

  /** No caller is inside an acquire or a release. */
  ghost predicate Quiescent(l: Lane) {
    forall c | c in l.phase :: l.phase[c] in {Holding, Released, Refused}
  }

  /** When nothing is in flight each gauge and semaphore is the number of holders, the queues are empty,
      and every execution ever counted is a holder or was released, in one lane or the other. */
  lemma QuiescentCounters(steps: seq<Step>)
    requires IsRun(Initial(), steps) && Quiescent(Final(Initial(), steps).task)
               && Quiescent(Final(Initial(), steps).batch)
    ensures var s := Final(Initial(), steps);
            && s.task.active == s.task.sem == |In(s.task, {Holding})| && s.task.queued == 0
            && s.batch.active == s.batch.sem == |In(s.batch, {Holding})| && s.batch.queued == 0
            && s.total == |In(s.task, {Holding})| + |In(s.task, {Released})| + |In(s.batch, {Holding})|
                 + |In(s.batch, {Released})|
  {
    InitialInv();
    RunKeepsInv(Initial(), steps);
    CountQuiescent(Final(Initial(), steps).task);
    CountQuiescent(Final(Initial(), steps).batch);
  }

  lemma CountQuiescent(l: Lane)
    requires LaneInv(l) && Quiescent(l)
    ensures l.active == l.sem == |In(l, {Holding})| && l.queued == 0
    ensures |In(l, EXECUTED)| == |In(l, {Holding})| + |In(l, {Released})|
  {
    assert In(l, HAS_SLOT) == In(l, ON_GAUGE) == In(l, {Holding});
    assert In(l, IN_QUEUE) == {};
    assert In(l, EXECUTED) == In(l, {Holding}) + In(l, {Released});
  }

  /** A release never blocks: the releasing caller's own token is still in the semaphore. */
  lemma ReleaseNeverBlocks(s: Pool, kind: Kind, c: Caller)
    requires Inv(s) && At(s.LaneOf(kind), c, Holding)
    ensures Enabled(s, On(kind, GiveBack(c)))
  {
    assert c in In(s.LaneOf(kind), HAS_SLOT);
  }

  lemma Prepend(s: Pool, step: Step, rest: seq<Step>)
    requires Enabled(s, step) && IsRun(Apply(s, step), rest)
    ensures IsRun(s, [step] + rest)
    ensures Final(s, [step] + rest) == Final(Apply(s, step), rest)
  {
    assert ([step] + rest)[1..] == rest;
  }

  ghost predicate TookSteps(s: Pool, t: Pool, steps: seq<Step>) {
    IsRun(s, steps) && t == Final(s, steps)
  }

  /** The lane after `c` has given its slot back and `d` has taken it and raised the gauge. */
  function HandedOver(l: Lane, c: Caller, d: Caller): Lane {
    l.(active := l.active + 1, queued := l.queued + 1, phase := l.phase[c := Releasing][d := Raised])
  }

  /** A gauge is not bounded by its capacity: a holder that has given its slot back but not yet lowered the
      gauge and a newcomer that has raised it are both counted. With all slots taken this puts the gauge
      above the capacity exactly when no more callers are short of raising it than of lowering it. */
  lemma GaugeCanExceedCapacity(s: Pool, kind: Kind, c: Caller, d: Caller)
    requires var l := s.LaneOf(kind); At(l, c, Holding) && d !in l.phase && l.sem == l.capacity > 0
    ensures TookSteps(s, s.With(kind, HandedOver(s.LaneOf(kind), c, d)), HandoverSteps(kind, c, d))
    ensures var l := s.LaneOf(kind);
            LaneInv(l) ==>
              (HandedOver(l, c, d).active > l.capacity <==> |In(l, {Taken})| <= |In(l, {Releasing})|)
  {
    var s1 := Apply(s, On(kind, GiveBack(c)));
    var s2 := Apply(s1, On(kind, Enqueue(d)));
    var s3 := Apply(s2, On(kind, Take(d)));
    assert Apply(s3, On(kind, Raise(d))).LaneOf(kind).phase == s.LaneOf(kind).phase[c := Releasing][d := Raised];
    Prepend(s3, On(kind, Raise(d)), []);
    Prepend(s2, On(kind, Take(d)), [On(kind, Raise(d))]);
    Prepend(s1, On(kind, Enqueue(d)), [On(kind, Take(d)), On(kind, Raise(d))]);
    Prepend(s, On(kind, GiveBack(c)), [On(kind, Enqueue(d)), On(kind, Take(d)), On(kind, Raise(d))]);
    if LaneInv(s.LaneOf(kind)) {
      Decompose(s.LaneOf(kind));
    }
  }

  function HandoverSteps(kind: Kind, c: Caller, d: Caller): seq<Step> {
    [On(kind, GiveBack(c)), On(kind, Enqueue(d)), On(kind, Take(d)), On(kind, Raise(d))]
  }

  /** Where the two ways through an acquire lead when nobody interferes. */
  lemma AcquirePaths(s: Pool, kind: Kind, c: Caller)
    requires c !in s.LaneOf(kind).phase
    ensures var l := s.LaneOf(kind);
            TookSteps(s, s.With(kind, l.(phase := l.phase[c := Refused])), CancelSteps(kind, c))
    ensures var l := s.LaneOf(kind);
            l.sem < l.capacity ==>
              TookSteps(s, s.With(kind, Acquired(l, c)).(total := s.total + 1), AcquireSteps(kind, c))
  {
    var s1 := Apply(s, On(kind, Enqueue(c)));
    var r := Apply(s1, On(kind, Cancel(c)));
    var l := s.LaneOf(kind);
    assert Apply(r, On(kind, Refuse(c))) == s.With(kind, l.(phase := l.phase[c := Refused]));
    Prepend(r, On(kind, Refuse(c)), []);
    Prepend(s1, On(kind, Cancel(c)), [On(kind, Refuse(c))]);
    Prepend(s, On(kind, Enqueue(c)), [On(kind, Cancel(c)), On(kind, Refuse(c))]);
    if l.sem < l.capacity {
      AcquirePath(s, kind, c);
    }
  }

  function Acquired(l: Lane, c: Caller): Lane {
    l.(sem := l.sem + 1, active := l.active + 1, phase := l.phase[c := Holding])
  }

  function AcquireSteps(kind: Kind, c: Caller): seq<Step> {
    [On(kind, Enqueue(c)), On(kind, Take(c)), On(kind, Raise(c)), On(kind, Count(c)), On(kind, Return(c))]
  }

  function CancelSteps(kind: Kind, c: Caller): seq<Step> {
    [On(kind, Enqueue(c)), On(kind, Cancel(c)), On(kind, Refuse(c))]
  }

  function ReleaseSteps(kind: Kind, c: Caller): seq<Step> {
    [On(kind, GiveBack(c)), On(kind, Lower(c))]
  }

  lemma AcquirePath(s: Pool, kind: Kind, c: Caller)
    requires c !in s.LaneOf(kind).phase && s.LaneOf(kind).sem < s.LaneOf(kind).capacity
    ensures TookSteps(s, s.With(kind, Acquired(s.LaneOf(kind), c)).(total := s.total + 1), AcquireSteps(kind, c))
  {
    var s1 := Apply(s, On(kind, Enqueue(c)));
    var s2 := Apply(s1, On(kind, Take(c)));
    FinishAcquire(s2, kind, c);
    Prepend(s1, On(kind, Take(c)), [On(kind, Raise(c)), On(kind, Count(c)), On(kind, Return(c))]);
    Prepend(s, On(kind, Enqueue(c)), [On(kind, Take(c)), On(kind, Raise(c)), On(kind, Count(c)), On(kind, Return(c))]);
    assert s2.LaneOf(kind).phase[c := Holding] == s.LaneOf(kind).phase[c := Holding];
  }

  lemma FinishAcquire(s: Pool, kind: Kind, c: Caller)
    requires At(s.LaneOf(kind), c, Taken)
    ensures var l := s.LaneOf(kind).(phase := s.LaneOf(kind).phase[c := Holding]);
            var t := s.With(kind, l.(active := l.active + 1, queued := l.queued - 1)).(total := s.total + 1);
            TookSteps(s, t, [On(kind, Raise(c)), On(kind, Count(c)), On(kind, Return(c))])
  {
    var s3 := Apply(s, On(kind, Raise(c)));
    var s4 := Apply(s3, On(kind, Count(c)));
    assert Apply(s4, On(kind, Return(c))).LaneOf(kind).phase == s.LaneOf(kind).phase[c := Holding];
    Prepend(s4, On(kind, Return(c)), []);
    Prepend(s3, On(kind, Count(c)), [On(kind, Return(c))]);
    Prepend(s, On(kind, Raise(c)), [On(kind, Count(c)), On(kind, Return(c))]);
  }

  lemma {:induction false} Continue(s: Pool, a: seq<Step>, b: seq<Step>)
    requires IsRun(s, a) && IsRun(Final(s, a), b)
    ensures IsRun(s, a + b) && Final(s, a + b) == Final(Final(s, a), b)
    decreases |a|
  {
    if a == [] {
      assert a + b == b;
    } else {
      Continue(Apply(s, a[0]), a[1..], b);
      assert (a + b)[1..] == a[1..] + b;
    }
  }

  /** An acquire and the first half of a release. */
  function LingerSteps(kind: Kind, c: Caller): seq<Step> {
    AcquireSteps(kind, c) + [On(kind, GiveBack(c))]
  }

  lemma Linger(s: Pool, kind: Kind, c: Caller)
    requires c !in s.LaneOf(kind).phase && s.LaneOf(kind).sem == 0 < s.LaneOf(kind).capacity
    ensures var l := s.LaneOf(kind);
            var t := s.With(kind, l.(active := l.active + 1, phase := l.phase[c := Releasing])).(total := s.total + 1);
            TookSteps(s, t, LingerSteps(kind, c))
  {
    AcquirePath(s, kind, c);
    var t := s.With(kind, Acquired(s.LaneOf(kind), c)).(total := s.total + 1);
    Prepend(t, On(kind, GiveBack(c)), []);
    Continue(s, AcquireSteps(kind, c), [On(kind, GiveBack(c))]);
    assert Apply(t, On(kind, GiveBack(c))).LaneOf(kind).phase == s.LaneOf(kind).phase[c := Releasing];
  }

  /** Nor by any other number: callers that give their slots back and are slow to lower the gauge bring it to
      `n` while no slot is taken. */
  lemma {:induction false} GaugeHasNoBound(kind: Kind, n: nat) returns (steps: seq<Step>)
    ensures IsRun(Initial(), steps)
    ensures var l := Final(Initial(), steps).LaneOf(kind);
            l.active == n && l.sem == 0 < l.capacity && forall c | c in l.phase :: c < n
  {
    steps := [];
    if n > 0 {
      var before := GaugeHasNoBound(kind, n - 1);
      Linger(Final(Initial(), before), kind, n - 1);
      Continue(Initial(), before, LingerSteps(kind, n - 1));
      steps := before + LingerSteps(kind, n - 1);
    }
  }

  /** An uninterrupted release. */
  lemma ReleasePath(s: Pool, kind: Kind, c: Caller)
    requires Inv(s) && At(s.LaneOf(kind), c, Holding)
    ensures s.LaneOf(kind).sem > 0
    ensures var l := s.LaneOf(kind);
            TookSteps(s, s.With(kind, l.(sem := l.sem - 1, active := l.active - 1, phase := l.phase[c := Released])),
              ReleaseSteps(kind, c))
    ensures Inv(Final(s, ReleaseSteps(kind, c)))
  {
    ReleaseNeverBlocks(s, kind, c);
    var s1 := Apply(s, On(kind, GiveBack(c)));
    assert Apply(s1, On(kind, Lower(c))).LaneOf(kind).phase == s.LaneOf(kind).phase[c := Released];
    Prepend(s1, On(kind, Lower(c)), []);
    Prepend(s, On(kind, GiveBack(c)), [On(kind, Lower(c))]);
    RunKeepsInv(s, ReleaseSteps(kind, c));
  }

  /** Whatever the callers of both lanes do, at most 5 of them hold a task slot and at most 50 a batch
      slot. */
  lemma PoolLimits(steps: seq<Step>)
    requires IsRun(Initial(), steps)
    ensures |In(Final(Initial(), steps).task, {Holding})| <= 5
    ensures |In(Final(Initial(), steps).batch, {Holding})| <= 50
  {
    InitialInv();
    RunKeepsInv(Initial(), steps);
    HoldersHaveSlots(Final(Initial(), steps).task);
    HoldersHaveSlots(Final(Initial(), steps).batch);
  }

  lemma HoldersHaveSlots(l: Lane)
    ensures |In(l, {Holding})| <= |In(l, HAS_SLOT)|
  {
    var holders, slots := In(l, {Holding}), In(l, HAS_SLOT);
    assert slots == holders + (slots - holders);
  }

  /** The pool's own fields. A call that is not interleaved with others takes exactly the steps named
      in its contract. */
  class WorkerPool {
    var taskSem: nat
    var batchSem: nat
    var activeTask: int
    var queuedTask: int
    var activeBatch: int
    var queuedBatch: int
    var totalExec: int
    ghost var tasks: map<Caller, Phase>
    ghost var batches: map<Caller, Phase>

    ghost function View(): Pool
      reads this
    {
      Pool(Lane(TASK_SLOTS, taskSem, activeTask, queuedTask, tasks),
           Lane(BATCH_SLOTS, batchSem, activeBatch, queuedBatch, batches), totalExec)
    }

    constructor ()
      ensures View() == Initial()
    {
      taskSem, activeTask, queuedTask, tasks := 0, 0, 0, map[];
      batchSem, activeBatch, queuedBatch, batches := 0, 0, 0, map[];
      totalExec := 0;
    }

    /** `cancelled` is which case of the select fires; without room only cancellation can. */
    method AcquireTaskSlot(ghost c: Caller, cancelled: bool) returns (ok: bool)
      requires c !in tasks
      requires cancelled || taskSem < TASK_SLOTS
      modifies this
      ensures ok == !cancelled
      ensures TookSteps(old(View()), View(), if cancelled then CancelSteps(Task, c) else AcquireSteps(Task, c))
    {
      AcquirePaths(View(), Task, c);
      queuedTask := queuedTask + 1;
      if cancelled {
        queuedTask := queuedTask - 1;
        tasks := tasks[c := Refused];
        return false;
      }
      taskSem := taskSem + 1;
      activeTask := activeTask + 1;
      totalExec := totalExec + 1;
      queuedTask := queuedTask - 1;
      tasks := tasks[c := Holding];
      return true;
    }

    method AcquireBatchSlot(ghost c: Caller, cancelled: bool) returns (ok: bool)
      requires c !in batches
      requires cancelled || batchSem < BATCH_SLOTS
      modifies this
      ensures ok == !cancelled
      ensures TookSteps(old(View()), View(), if cancelled then CancelSteps(Batch, c) else AcquireSteps(Batch, c))
    {
      AcquirePaths(View(), Batch, c);
      queuedBatch := queuedBatch + 1;
      if cancelled {
        queuedBatch := queuedBatch - 1;
        batches := batches[c := Refused];
        return false;
      }
      batchSem := batchSem + 1;
      activeBatch := activeBatch + 1;
      totalExec := totalExec + 1;
      queuedBatch := queuedBatch - 1;
      batches := batches[c := Holding];
      return true;
    }

    /** The release functions the acquires returned. */
    method ReleaseTaskSlot(ghost c: Caller)
      requires Inv(View()) && At(View().task, c, Holding)
      modifies this
      ensures Inv(View()) && TookSteps(old(View()), View(), ReleaseSteps(Task, c))
    {
      ReleasePath(View(), Task, c);
      taskSem := taskSem - 1;
      activeTask := activeTask - 1;
      tasks := tasks[c := Released];
    }

    method ReleaseBatchSlot(ghost c: Caller)
      requires Inv(View()) && At(View().batch, c, Holding)
      modifies this
      ensures Inv(View()) && TookSteps(old(View()), View(), ReleaseSteps(Batch, c))
    {
      ReleasePath(View(), Batch, c);
      batchSem := batchSem - 1;
      activeBatch := activeBatch - 1;
      batches := batches[c := Released];
    }
  }
}
