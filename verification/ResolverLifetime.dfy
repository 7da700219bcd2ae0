/** The lifetime protocol of async_resolver.cc: detached resolver threads, the task each posts
    to the owning sequence, a callback that may destroy the resolver, and self-destruction.
    Threads interleave between any two steps; the owning sequence keeps a call stack. */
module ResolverLifetime {
  import opened Wrappers

  /** A detached thread: looking the name up, then in the critical section, where it looks at
      the status and posts only if that is live, and out of it. */
  datatype Worker = Resolving | Locked | Posting | Checked | Finished

  /** Where a call on the owning sequence has got to. */
  datatype Frame =
    | TaskStart(id: int)                   // the posted task, about to lock
    | TaskLocked(id: int)
    | TaskUnlocked(id: int, live: bool)
    | Signalling                           // SignalDone is running listeners
    | Signalled
    | Destroying                           // Destroy has set its flag
    | DtorStart                            // the destructor, about to lock
    | DtorLocked

  datatype Holder = OwnerHolds | WorkerHolds(i: nat)

  /** What must never happen. */
  datatype Fault = ResolveAfterFree | PostAfterFree | UseAfterFree | DoubleFree | FreeDuringSignal

  datatype World = World(
    freed: bool,             // the resolver's memory
    recursion: bool,         // recursion_check_
    destroyCalled: bool,
    dead: bool,              // the status in the shared state, which outlives the resolver
    lock: Option<Holder>,    // its mutex
    workers: seq<Worker>,    // one for each Start
    queue: seq<int>,         // posted tasks, by Start
    stack: seq<Frame>,       // the owning sequence, innermost call last
    signalled: seq<int>,     // Starts whose results were announced
    dropped: seq<int>,       // Starts whose results came too late
    deletions: nat,
    faults: set<Fault>)

  const Initial: World := World(false, false, false, false, None, [], [], [], [], [], 0, {})

  datatype Step = UserStart | UserDestroy | WorkerStep(i: nat) | OwnerStep

  function Top(w: World): Frame
    requires w.stack != []
  {
    w.stack[|w.stack| - 1]
  }

  function Caller(w: World): seq<Frame>
    requires w.stack != []
  {
    w.stack[..|w.stack| - 1]
  }

  /** Callers keep to the contract: on the owning sequence, outside of the resolver's own
      code or in its callback, and never after Destroy. */
  predicate UserMayCall(w: World) {
    !w.destroyCalled && (w.stack == [] || Top(w).Signalling?)
  }

  function WithFault(w: World, fault: Fault, happens: bool): World {
    if happens then w.(faults := w.faults + {fault}) else w
  }

  /** MaybeSelfDestruct, called by the innermost frame. */
  function MaybeSelfDestruct(w: World): World
    requires w.stack != []
  {
    var w := WithFault(w, UseAfterFree, w.freed);
    if !w.recursion then w.(stack := Caller(w) + [DtorStart]) else w.(recursion := false, stack := Caller(w))
  }

  function NextWorker(w: World, i: nat): Option<World>
    requires i < |w.workers|
  {
    match w.workers[i]
    case Resolving =>
      if w.lock.None? then Some(w.(lock := Some(WorkerHolds(i)), workers := w.workers[i := Locked])) else None
    case Locked =>
      if w.dead then Some(w.(workers := w.workers[i := Checked], dropped := w.dropped + [i]))
      else Some(w.(workers := w.workers[i := Posting]))
    case Posting => Some(WithFault(w.(workers := w.workers[i := Checked], queue := w.queue + [i]), PostAfterFree, w.freed))
    case Checked => Some(w.(lock := None, workers := w.workers[i := Finished]))
    case Finished => None
  }

  function NextOwner(w: World): Option<World> {
    if w.stack == [] then
      if w.queue == [] then None else Some(w.(queue := w.queue[1..], stack := [TaskStart(w.queue[0])]))
    else
      match Top(w)
      case TaskStart(id) =>
        if w.lock.None? then Some(w.(lock := Some(OwnerHolds), stack := Caller(w) + [TaskLocked(id)])) else None
      case TaskLocked(id) => Some(w.(lock := None, stack := Caller(w) + [TaskUnlocked(id, !w.dead)]))
      case TaskUnlocked(id, live) =>
        if live then
          Some(WithFault(w.(recursion := true, stack := Caller(w) + [Signalling], signalled := w.signalled + [id]), ResolveAfterFree, w.freed))
        else
          Some(w.(stack := Caller(w), dropped := w.dropped + [id]))
      case Signalling => Some(w.(stack := Caller(w) + [Signalled]))
      case Signalled => Some(MaybeSelfDestruct(w))
      case Destroying => Some(MaybeSelfDestruct(w))
      case DtorStart =>
        if w.lock.None? then Some(w.(lock := Some(OwnerHolds), dead := true, stack := Caller(w) + [DtorLocked])) else None
      case DtorLocked =>
        var w' := w.(lock := None, freed := true, deletions := w.deletions + 1, stack := Caller(w));
        Some(WithFault(WithFault(w', DoubleFree, w.freed), FreeDuringSignal, Signalling in w.stack))
  }

  /** The step's outcome, or None where it is blocked or not allowed. */
  function Next(w: World, step: Step): Option<World> {
    match step
    case UserStart => if UserMayCall(w) then Some(WithFault(w.(workers := w.workers + [Resolving]), UseAfterFree, w.freed)) else None
    case UserDestroy =>
      if UserMayCall(w) then Some(WithFault(w.(destroyCalled := true, stack := w.stack + [Destroying]), UseAfterFree, w.freed)) else None
    case WorkerStep(i) => if i < |w.workers| then NextWorker(w, i) else None
    case OwnerStep => NextOwner(w)
  }

  // ----- What every step keeps -----

  /** What the innermost call of a stack of one says about the object. */
  predicate CallFits(w: World, f: Frame) {
    match f
    case TaskUnlocked(_, live) => !w.recursion && w.destroyCalled == w.freed == w.dead && (live ==> !w.dead)
    case Signalling => !w.freed && !w.dead && w.recursion == !w.destroyCalled
    case Signalled => !w.freed && !w.dead && w.recursion == !w.destroyCalled
    case Destroying => !w.freed && !w.dead && !w.recursion && w.destroyCalled
    case DtorStart => !w.freed && !w.dead && !w.recursion && w.destroyCalled
    case DtorLocked => !w.freed && w.dead && !w.recursion && w.destroyCalled
    case _ => !w.recursion && w.destroyCalled == w.freed == w.dead
  }

  /** The only nesting is Destroy called by a listener, and it leaves the deleting to the
      frame below. */
  predicate Shape(w: World) {
    if w.stack == [] then !w.recursion && w.destroyCalled == w.freed == w.dead
    else if |w.stack| == 1 then CallFits(w, w.stack[0])
    else |w.stack| == 2 && w.stack[0].Signalling? && w.stack[1].Destroying? && !w.freed && !w.dead && w.recursion && w.destroyCalled
  }

  predicate OwnerInside(w: World) {
    w.stack != [] && (Top(w).TaskLocked? || Top(w).DtorLocked?)
  }

  predicate WorkerInside(worker: Worker) {
    worker.Locked? || worker.Posting? || worker.Checked?
  }

  /** The mutex is held by whoever is in the critical section, and by nobody else. */
  predicate Exclusive(w: World) {
    && (w.lock == Some(OwnerHolds) <==> OwnerInside(w))
    && (forall i :: 0 <= i < |w.workers| ==> (WorkerInside(w.workers[i]) <==> w.lock == Some(WorkerHolds(i))))
    && (w.lock.Some? && w.lock.value.WorkerHolds? ==> w.lock.value.i < |w.workers|)
  }

  predicate InTask(stack: seq<Frame>, id: int) {
    stack != [] && (stack[0].TaskStart? || stack[0].TaskLocked? || stack[0].TaskUnlocked?) && stack[0].id == id
  }

  function Count(ids: seq<int>, id: int): nat {
    if ids == [] then 0 else Count(ids[..|ids| - 1], id) + if ids[|ids| - 1] == id then 1 else 0
  }

  lemma CountAppended(ids: seq<int>, x: int, id: int)
    ensures Count(ids + [x], id) == Count(ids, id) + if x == id then 1 else 0
  {
    assert (ids + [x])[..|ids|] == ids;
  }

  lemma {:induction false} CountTail(ids: seq<int>, id: int)
    requires ids != []
    ensures Count(ids[1..], id) == Count(ids, id) - if ids[0] == id then 1 else 0
  {
    if |ids| > 1 {
      var front := ids[..|ids| - 1];
      CountTail(front, id);
      CountAppended(front[1..], ids[|ids| - 1], id);
      assert ids[1..] == front[1..] + [ids[|ids| - 1]];
    }
  }

  lemma {:induction false} CountedOnce(ids: seq<int>, i: nat, j: nat)
    requires i < j < |ids| && Count(ids, ids[i]) <= 1
    ensures ids[i] != ids[j]
  {
    var front := ids[..|ids| - 1];
    if j < |ids| - 1 {
      CountedOnce(front, i, j);
    } else {
      CountsAtLeastOne(front, i);
    }
  }

  lemma {:induction false} CountsAtLeastOne(ids: seq<int>, i: nat)
    requires i < |ids|
    ensures Count(ids, ids[i]) >= 1
  {
    if i < |ids| - 1 {
      CountsAtLeastOne(ids[..|ids| - 1], i);
    }
  }

  predicate Underway(workers: seq<Worker>, id: int) {
    0 <= id < |workers| && (workers[id].Resolving? || workers[id].Locked? || workers[id].Posting?)
  }

  /** In how many places the result of one Start is. */
  function Copies(w: World, id: int): nat {
    (if Underway(w.workers, id) then 1 else 0) + Count(w.queue, id) + (if InTask(w.stack, id) then 1 else 0)
    + Count(w.signalled, id) + Count(w.dropped, id)
  }

  /** Each result is in exactly one place. */
  ghost predicate Conserved(w: World) {
    forall id :: Copies(w, id) == if 0 <= id < |w.workers| then 1 else 0
  }

  /** Results are dropped only by the dead. */
  predicate DroppedLate(w: World) {
    && (w.dropped != [] ==> w.dead)
    && (w.stack != [] && w.stack[0].TaskUnlocked? && !w.stack[0].live ==> w.dead)
  }

  /** The resolver does not die while a worker that found it live is about to post. */
  predicate PostsToTheLiving(w: World) {
    forall i :: 0 <= i < |w.workers| && w.workers[i].Posting? ==> !w.dead
  }

  ghost predicate Sound(w: World) {
    && w.faults == {} && w.deletions == (if w.freed then 1 else 0) && Shape(w) && Exclusive(w) && DroppedLate(w)
    && PostsToTheLiving(w)
  }

  lemma WorkerSound(w: World, i: nat)
    requires Sound(w) && i < |w.workers| && NextWorker(w, i).Some?
    ensures Sound(NextWorker(w, i).value)
  {
  }

  lemma OwnerSound(w: World)
    requires Sound(w) && NextOwner(w).Some?
    ensures Sound(NextOwner(w).value)
  {
  }

  lemma UserSound(w: World, step: Step)
    requires Sound(w) && (step.UserStart? || step.UserDestroy?) && Next(w, step).Some?
    ensures Sound(Next(w, step).value)
  {
  }

  lemma UnderwayUpdated(workers: seq<Worker>, i: nat, worker: Worker, id: int)
    requires i < |workers|
    ensures Underway(workers[i := worker], id) == if id == i then worker.Resolving? || worker.Locked? || worker.Posting? else Underway(workers, id)
  {
  }

  lemma WorkerCopies(w: World, i: nat, id: int)
    requires i < |w.workers| && NextWorker(w, i).Some?
    ensures Copies(NextWorker(w, i).value, id) == Copies(w, id)
  {
    match w.workers[i]
    case Resolving => UnderwayUpdated(w.workers, i, Locked, id);
    case Locked =>
      UnderwayUpdated(w.workers, i, Checked, id);
      UnderwayUpdated(w.workers, i, Posting, id);
      CountAppended(w.dropped, i, id);
    case Posting =>
      UnderwayUpdated(w.workers, i, Checked, id);
      CountAppended(w.queue, i, id);
    case Checked => UnderwayUpdated(w.workers, i, Finished, id);
  }

  lemma OwnerCopies(w: World, id: int)
    requires Shape(w) && NextOwner(w).Some?
    ensures Copies(NextOwner(w).value, id) == Copies(w, id)
  {
    if w.stack == [] {
      CountTail(w.queue, id);
    } else if Top(w).TaskUnlocked? {
      CountAppended(w.signalled, Top(w).id, id);
      CountAppended(w.dropped, Top(w).id, id);
    }
  }

  ghost predicate Inv(w: World) {
    Sound(w) && Conserved(w)
  }

  lemma StepKeeps(w: World, step: Step)
    requires Inv(w) && Next(w, step).Some?
    ensures Inv(Next(w, step).value)
  {
    match step {
      case UserStart => UserSound(w, step);
      case UserDestroy => UserSound(w, step);
      case WorkerStep(i) => WorkerSound(w, i);
      case OwnerStep => OwnerSound(w);
    }
    forall id: int
      ensures Copies(Next(w, step).value, id) == if 0 <= id < |Next(w, step).value.workers| then 1 else 0
    {
      StepCopies(w, step, id);
    }
  }

  /** A new Start is one more result, and no other step makes or loses one. */
  lemma StepCopies(w: World, step: Step, id: int)
    requires Inv(w) && Next(w, step).Some?
    ensures Copies(Next(w, step).value, id) == if 0 <= id < |Next(w, step).value.workers| then 1 else 0
  {
    assert Copies(w, id) == if 0 <= id < |w.workers| then 1 else 0;
    match step {
      case UserStart => StartCopies(w, id);
      case UserDestroy => DestroyCopies(w, id);
      case WorkerStep(i) => WorkerCopies(w, i, id);
      case OwnerStep => OwnerCopies(w, id);
    }
  }

  lemma StartCopies(w: World, id: int)
    requires Next(w, UserStart).Some?
    ensures Copies(Next(w, UserStart).value, id) == Copies(w, id) + if id == |w.workers| then 1 else 0
    ensures |Next(w, UserStart).value.workers| == |w.workers| + 1
  {
  }

  lemma DestroyCopies(w: World, id: int)
    requires Next(w, UserDestroy).Some?
    ensures Copies(Next(w, UserDestroy).value, id) == Copies(w, id) && Next(w, UserDestroy).value.workers == w.workers
  {
    assert InTask(w.stack + [Destroying], id) == InTask(w.stack, id);
  }

  // ----- Runs -----

  /** Any interleaving, one step of one thread after another. */
  ghost predicate IsRun(run: seq<World>, steps: seq<Step>) {
    && |run| == |steps| + 1
    && (forall k :: 0 <= k < |steps| ==> Next(run[k], steps[k]) == Some(run[k + 1]))
  }

  lemma {:induction false} RunKeeps(run: seq<World>, steps: seq<Step>, k: nat)
    requires IsRun(run, steps) && Inv(run[0]) && k < |run|
    ensures Inv(run[k])
  {
    if k > 0 {
      RunKeeps(run, steps, k - 1);
      assert Next(run[k - 1], steps[k - 1]) == Some(run[k - 1 + 1]);
      StepKeeps(run[k - 1], steps[k - 1]);
    }
  }

  /** In every interleaving nothing is used after it is freed, nothing is posted or announced
      for a resolver that is gone, and it is deleted at most once, never under its own
      signal. Each result is announced at most once. */
  lemma EveryRunIsSafe(run: seq<World>, steps: seq<Step>, k: nat)
    requires IsRun(run, steps) && run[0] == Initial && k < |run|
    ensures run[k].faults == {} && run[k].deletions <= 1
    ensures run[k].stack == [] ==> run[k].deletions == if run[k].destroyCalled then 1 else 0
    ensures forall i, j :: 0 <= i < j < |run[k].signalled| ==> run[k].signalled[i] != run[k].signalled[j]
  {
    RunKeeps(run, steps, k);
    forall i, j | 0 <= i < j < |run[k].signalled|
      ensures run[k].signalled[i] != run[k].signalled[j]
    {
      assert Copies(run[k], run[k].signalled[i]) <= 1;
      CountedOnce(run[k].signalled, i, j);
    }
  }

  // ----- Progress -----

  /** No user has to do anything for this step to happen. */
  predicate Internal(step: Step) {
    step.WorkerStep? || step.OwnerStep?
  }

  predicate Quiescent(w: World) {
    w.stack == [] && w.queue == [] && forall i :: 0 <= i < |w.workers| ==> w.workers[i].Finished?
  }

  /** Nobody waits for ever for the mutex. */
  lemma NoDeadlock(w: World) returns (step: Step)
    requires Inv(w) && !Quiescent(w)
    ensures Internal(step) && Next(w, step).Some?
  {
    if w.lock.Some? && w.lock.value.WorkerHolds? {
      step := WorkerStep(w.lock.value.i);
    } else if w.lock.Some? || w.stack != [] || w.queue != [] {
      step := OwnerStep;
    } else {
      var i :| 0 <= i < |w.workers| && !w.workers[i].Finished?;
      step := WorkerStep(i);
    }
  }

  function WorkerWork(worker: Worker): nat {
    match worker
    case Resolving => 13
    case Locked => 12
    case Posting => 11
    case Checked => 1
    case Finished => 0
  }

  function WorkersWork(workers: seq<Worker>): nat {
    if workers == [] then 0 else WorkerWork(workers[0]) + WorkersWork(workers[1..])
  }

  function FrameWork(f: Frame): nat {
    match f
    case TaskStart(_) => 8
    case TaskLocked(_) => 7
    case TaskUnlocked(_, _) => 6
    case Signalling => 5
    case Signalled => 4
    case Destroying => 3
    case DtorStart => 2
    case DtorLocked => 1
  }

  function StackWork(stack: seq<Frame>): nat {
    if stack == [] then 0 else FrameWork(stack[|stack| - 1]) + StackWork(stack[..|stack| - 1])
  }

  /** How many steps are left at most if no more calls are made. */
  function Work(w: World): nat {
    WorkersWork(w.workers) + 9 * |w.queue| + StackWork(w.stack)
  }

  lemma {:induction false} WorkersWorkUpdated(workers: seq<Worker>, i: nat, worker: Worker)
    requires i < |workers|
    ensures WorkersWork(workers[i := worker]) == WorkersWork(workers) - WorkerWork(workers[i]) + WorkerWork(worker)
  {
    var workers' := workers[i := worker];
    if i == 0 {
      assert workers'[1..] == workers[1..];
    } else {
      WorkersWorkUpdated(workers[1..], i - 1, worker);
      assert workers'[1..] == workers[1..][i - 1 := worker];
    }
  }

  lemma WorkerWorks(w: World, i: nat)
    requires i < |w.workers| && NextWorker(w, i).Some?
    ensures Work(NextWorker(w, i).value) < Work(w)
  {
    match w.workers[i]
    case Resolving => WorkersWorkUpdated(w.workers, i, Locked);
    case Locked => WorkersWorkUpdated(w.workers, i, if w.dead then Checked else Posting);
    case Posting => WorkersWorkUpdated(w.workers, i, Checked);
    case Checked => WorkersWorkUpdated(w.workers, i, Finished);
  }

  lemma StackWorkPushed(stack: seq<Frame>, f: Frame)
    ensures StackWork(stack + [f]) == StackWork(stack) + FrameWork(f)
  {
    assert (stack + [f])[..|stack|] == stack;
  }

  /** Each step of the owning sequence starts a task, pops a frame, or replaces it by a
      lighter one. */
  lemma OwnerWorks(w: World)
    requires NextOwner(w).Some?
    ensures Work(NextOwner(w).value) < Work(w)
  {
    var w' := NextOwner(w).value;
    if w.stack == [] {
      StackWorkPushed([], TaskStart(w.queue[0]));
      assert w'.stack == [] + [TaskStart(w.queue[0])];
    } else {
      var f := Replacement(w);
      StackWorkPushed(Caller(w), f);
    }
  }

  lemma Replacement(w: World) returns (f: Frame)
    requires w.stack != [] && NextOwner(w).Some?
    ensures NextOwner(w).value.workers == w.workers && NextOwner(w).value.queue == w.queue
    ensures NextOwner(w).value.stack == Caller(w) || NextOwner(w).value.stack == Caller(w) + [f]
    ensures FrameWork(f) < FrameWork(Top(w)) || NextOwner(w).value.stack == Caller(w)
  {
    match Top(w)
    case TaskStart(id) => f := TaskLocked(id);
    case TaskLocked(id) => f := TaskUnlocked(id, !w.dead);
    case TaskUnlocked(_, _) => f := Signalling;
    case Signalling => f := Signalled;
    case Signalled => f := DtorStart;
    case Destroying => f := DtorStart;
    case DtorStart => f := DtorLocked;
    case DtorLocked => f := DtorLocked;
  }

  /** Left alone, the threads stop after boundedly many steps, whatever the schedule. */
  lemma {:induction false} RunsOut(run: seq<World>, steps: seq<Step>)
    requires IsRun(run, steps) && forall k :: 0 <= k < |steps| ==> Internal(steps[k])
    ensures |steps| <= Work(run[0])
    decreases |steps|
  {
    if steps != [] {
      assert Next(run[0], steps[0]) == Some(run[1]);
      match steps[0] {
        case WorkerStep(i) => WorkerWorks(run[0], i);
        case OwnerStep => OwnerWorks(run[0]);
      }
      RunsOut(run[1..], steps[1..]);
    }
  }

  /** When they have stopped, a resolver on which Destroy was called has been deleted, exactly
      once; one on which it was not is alive and has announced the result of every Start. */
  lemma WhenAllIsDone(run: seq<World>, steps: seq<Step>)
    requires IsRun(run, steps) && run[0] == Initial
    requires forall step :: Internal(step) ==> Next(run[|steps|], step).None?
    ensures Quiescent(run[|steps|])
    ensures run[|steps|].deletions == if run[|steps|].destroyCalled then 1 else 0
    ensures !run[|steps|].destroyCalled ==> forall id :: 0 <= id < |run[|steps|].workers| ==> Count(run[|steps|].signalled, id) == 1
  {
    var w := run[|steps|];
    RunKeeps(run, steps, |steps|);
    if !Quiescent(w) {
      var step := NoDeadlock(w);
      assert false;
    }
    if !w.destroyCalled {
      forall id | 0 <= id < |w.workers|
        ensures Count(w.signalled, id) == 1
      {
        assert Copies(w, id) == 1;
      }
    }
  }
}
