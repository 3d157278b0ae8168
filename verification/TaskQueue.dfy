// DatabaseTasks (databasetasks.cpp, thread_holder_base.h): any number of producers, one
// worker, and flush/shutdown callers around a locked queue and a condition variable.
// Every lock, unlock, test, queue operation and notify is a step of its own.
module TaskQueue {

  import opened Wrappers

  type Task = nat

  datatype Thread = Worker | Producer(id: nat) | Flusher(id: nat)

  datatype ThreadState = Running | Closing | Terminated

  // addTask: before the call, inside the lock, after the state was read, after the
  // queue was touched, and between unlock and notify_one
  datatype ProducerPc =
    | Idle
    | Locked(task: Task)
    | StateRead(task: Task, running: bool)
    | Queued(signal: bool)
    | Unlocked(signal: bool)

  // threadMain: the loop test, before lock, the first emptiness test, inside
  // taskSignal.wait, woken but without the lock, the second test, after pop_front, in
  // runTask, and past the loop
  datatype WorkerPc =
    | LoopTest
    | BeforeLock
    | FirstTest
    | Waiting
    | Woken
    | SecondTest
    | Popped(task: Task)
    | RunningTask(task: Task)
    | Exited

  // flush and shutdown; "shutdown" tells which of the two the loop belongs to
  datatype FlusherPc =
    | Resting
    | ShutdownLocked
    | StateSet
    | BeforeGuard(shutdown: bool)
    | QueueTest(shutdown: bool)
    | Taken(task: Task, shutdown: bool)
    | RunningTaken(task: Task, shutdown: bool)
    | BeforeNotify
    | ShutDown

  datatype State = State(
    lock: Option<Thread>,
    threadState: ThreadState,
    tasks: seq<Task>,
    worker: WorkerPc,
    producers: map<nat, ProducerPc>,
    flushers: map<nat, FlusherPc>,
    // history: everything emplaced, everything popped, and what had been emplaced when
    // a shutdown first set the state
    accepted: seq<Task>,
    popped: seq<Task>,
    atTermination: Option<seq<Task>>)

  datatype Action =
    | WorkerStep
    | SpuriousWakeUp
    | AddTask(id: nat, task: Task)
    | ProducerStep(id: nat)
    | StartFlush(id: nat)
    | StartShutdown(id: nat)
    | FlusherStep(id: nat)
    | Stop

  function ProducerAt(s: State, id: nat): ProducerPc { if id in s.producers then s.producers[id] else Idle }

  function FlusherAt(s: State, id: nat): FlusherPc { if id in s.flushers then s.flushers[id] else Resting }

  // After start()
  function Initial(): State {
    State(None, Running, [], LoopTest, map[], map[], [], [], None)
  }

  // ---------- Steps ----------

  // A step that needs the lock waits until it is free.
  predicate Enabled(s: State, a: Action) {
    match a
    case WorkerStep =>
      !s.worker.Exited? && !s.worker.Waiting? && (s.worker.BeforeLock? || s.worker.Woken? ==> s.lock == None)
    case SpuriousWakeUp => s.worker.Waiting?
    case AddTask(id, _) => ProducerAt(s, id) == Idle && s.lock == None
    case ProducerStep(id) => ProducerAt(s, id) != Idle
    case StartFlush(id) => FlusherAt(s, id) == Resting
    case StartShutdown(id) => FlusherAt(s, id) == Resting && s.lock == None
    case FlusherStep(id) =>
      var pc := FlusherAt(s, id);
      pc != Resting && pc != ShutDown && (pc.BeforeGuard? || pc.RunningTaken? ==> s.lock == None)
    case Stop => true
  }

  // notify_one: only the worker ever waits
  function Notified(w: WorkerPc): WorkerPc { if w == Waiting then Woken else w }

  function StepWorker(s: State): State
    requires Enabled(s, WorkerStep)
  {
    match s.worker
    case LoopTest => s.(worker := if s.threadState == Terminated then Exited else BeforeLock)
    case BeforeLock => s.(worker := FirstTest, lock := Some(Worker))
    case FirstTest => if s.tasks == [] then s.(worker := Waiting, lock := None) else s.(worker := SecondTest)
    case Woken => s.(worker := SecondTest, lock := Some(Worker))
    case SecondTest =>
      if s.tasks == [] then s.(worker := LoopTest, lock := None)
      else s.(worker := Popped(s.tasks[0]), tasks := s.tasks[1..], popped := s.popped + [s.tasks[0]])
    case Popped(task) => s.(worker := RunningTask(task), lock := None)
    case RunningTask(_) => s.(worker := LoopTest)
  }

  function StepProducer(s: State, id: nat): State
    requires Enabled(s, ProducerStep(id))
  {
    match ProducerAt(s, id)
    case Locked(task) =>
      s.(producers := s.producers[id := StateRead(task, s.threadState == Running)])
    case StateRead(task, running) =>
      if running then
        s.(producers := s.producers[id := Queued(s.tasks == [])],
           tasks := s.tasks + [task], accepted := s.accepted + [task])
      else
        s.(producers := s.producers[id := Queued(false)])
    case Queued(signal) => s.(producers := s.producers[id := Unlocked(signal)], lock := None)
    case Unlocked(signal) =>
      s.(producers := s.producers[id := Idle], worker := if signal then Notified(s.worker) else s.worker)
  }

  function StepFlusher(s: State, id: nat): State
    requires Enabled(s, FlusherStep(id))
  {
    match FlusherAt(s, id)
    case ShutdownLocked =>
      s.(flushers := s.flushers[id := StateSet], threadState := Terminated,
         atTermination := if s.atTermination == None then Some(s.accepted) else s.atTermination)
    case StateSet => s.(flushers := s.flushers[id := BeforeGuard(true)], lock := None)
    case BeforeGuard(shutdown) => s.(flushers := s.flushers[id := QueueTest(shutdown)], lock := Some(Flusher(id)))
    case QueueTest(shutdown) =>
      if s.tasks != [] then
        s.(flushers := s.flushers[id := Taken(s.tasks[0], shutdown)],
           tasks := s.tasks[1..], popped := s.popped + [s.tasks[0]])
      else
        s.(flushers := s.flushers[id := if shutdown then BeforeNotify else Resting], lock := None)
    case Taken(task, shutdown) => s.(flushers := s.flushers[id := RunningTaken(task, shutdown)], lock := None)
    case RunningTaken(_, shutdown) => s.(flushers := s.flushers[id := QueueTest(shutdown)], lock := Some(Flusher(id)))
    case BeforeNotify => s.(flushers := s.flushers[id := ShutDown], worker := Notified(s.worker))
  }

  function Apply(s: State, a: Action): State
    requires Enabled(s, a)
  {
    match a
    case WorkerStep => StepWorker(s)
    case SpuriousWakeUp => s.(worker := Woken)
    case AddTask(id, task) => s.(producers := s.producers[id := Locked(task)], lock := Some(Producer(id)))
    case ProducerStep(id) => StepProducer(s, id)
    case StartFlush(id) => s.(flushers := s.flushers[id := BeforeGuard(false)])
    case StartShutdown(id) => s.(flushers := s.flushers[id := ShutdownLocked], lock := Some(Flusher(id)))
    case FlusherStep(id) => StepFlusher(s, id)
    case Stop => s.(threadState := Closing)
  }

  // Every interleaving of the threads is some list of actions.
  predicate IsRun(s: State, run: seq<Action>)
    decreases |run|
  {
    run == [] || (Enabled(s, run[0]) && IsRun(Apply(s, run[0]), run[1..]))
  }

  function After(s: State, run: seq<Action>): State
    requires IsRun(s, run)
    decreases |run|
  {
    if run == [] then s else After(Apply(s, run[0]), run[1..])
  }

  // ---------- Invariants ----------

  predicate Holds(s: State, t: Thread) {
    match t
    case Worker => s.worker.FirstTest? || s.worker.SecondTest? || s.worker.Popped?
    case Producer(id) =>
      var pc := ProducerAt(s, id);
      pc.Locked? || pc.StateRead? || pc.Queued?
    case Flusher(id) =>
      var pc := FlusherAt(s, id);
      pc.ShutdownLocked? || pc.StateSet? || pc.QueueTest? || pc.Taken?
  }

  ghost predicate MutualExclusion(s: State) {
    forall t :: Holds(s, t) <==> s.lock == Some(t)
  }

  // Producer id has queued a task on an empty queue and not yet notified.
  predicate OwesNotify(s: State, id: nat) {
    ProducerAt(s, id) == Queued(true) || ProducerAt(s, id) == Unlocked(true)
  }

  ghost predicate NoLostWakeUp(s: State) {
    s.worker == Waiting && s.tasks != [] ==> exists id :: OwesNotify(s, id)
  }

  // Once a shutdown has set the state, nothing is accepted any more.
  ghost predicate NothingAfterTermination(s: State) {
    s.atTermination.Some? ==>
      s.accepted == s.atTermination.value && s.threadState != Running &&
      forall id :: ProducerAt(s, id).StateRead? ==> !ProducerAt(s, id).running
  }

  predicate FlushOver(pc: FlusherPc) { pc == BeforeNotify || pc == ShutDown }

  predicate PastStateSet(pc: FlusherPc) {
    pc == StateSet || FlushOver(pc) ||
    ((pc.BeforeGuard? || pc.QueueTest? || pc.Taken? || pc.RunningTaken?) && pc.shutdown)
  }

  // When a shutdown has flushed, every task ever accepted has been popped.
  ghost predicate ShutdownDrains(s: State) {
    (forall id :: PastStateSet(FlusherAt(s, id)) ==> s.atTermination.Some?) &&
    (forall id :: FlushOver(FlusherAt(s, id)) ==> s.tasks == [])
  }

  ghost predicate Inv(s: State) {
    s.popped + s.tasks == s.accepted && MutualExclusion(s) && NoLostWakeUp(s) &&
    NothingAfterTermination(s) && ShutdownDrains(s)
  }

  lemma InitialInv()
    ensures Inv(Initial())
  {
  }

  lemma ExclusionKept(s: State, a: Action)
    requires MutualExclusion(s) && Enabled(s, a)
    ensures MutualExclusion(Apply(s, a))
  {
    var t := Apply(s, a);
    assert Holds(s, Worker) <==> s.lock == Some(Worker);
    match a {
      case AddTask(id, _) => assert Holds(s, Producer(id)) <==> s.lock == Some(Producer(id));
      case ProducerStep(id) => assert Holds(s, Producer(id)) <==> s.lock == Some(Producer(id));
      case StartFlush(id) => assert Holds(s, Flusher(id)) <==> s.lock == Some(Flusher(id));
      case StartShutdown(id) => assert Holds(s, Flusher(id)) <==> s.lock == Some(Flusher(id));
      case FlusherStep(id) => assert Holds(s, Flusher(id)) <==> s.lock == Some(Flusher(id));
      case _ =>
    }
    forall th
      ensures Holds(t, th) <==> t.lock == Some(th)
    {
      assert Holds(s, th) <==> s.lock == Some(th);
    }
  }

  lemma WakeUpKept(s: State, a: Action)
    requires NoLostWakeUp(s) && Enabled(s, a)
    ensures NoLostWakeUp(Apply(s, a))
  {
    var t := Apply(s, a);
    if t.worker == Waiting && t.tasks != [] {
      if s.worker == Waiting && s.tasks != [] {
        var id :| OwesNotify(s, id);
        assert OwesNotify(t, id);
      } else {
        assert a.ProducerStep?;
        assert OwesNotify(t, a.id);
      }
    }
  }

  lemma TerminationKept(s: State, a: Action)
    requires Inv(s) && Enabled(s, a)
    ensures NothingAfterTermination(Apply(s, a)) && ShutdownDrains(Apply(s, a))
  {
    var t := Apply(s, a);
    assert forall th :: Holds(s, th) ==> s.lock == Some(th);
    forall id
      ensures PastStateSet(FlusherAt(t, id)) ==> t.atTermination.Some?
      ensures FlushOver(FlusherAt(t, id)) ==> t.tasks == []
    {
      assert PastStateSet(FlusherAt(s, id)) ==> s.atTermination.Some?;
      assert FlushOver(FlusherAt(s, id)) ==> s.tasks == [];
    }
    if t.atTermination.Some? {
      forall id
        ensures ProducerAt(t, id).StateRead? ==> !ProducerAt(t, id).running
      {
        if s.atTermination == None {
          assert a.FlusherStep? && Holds(s, Flusher(a.id)) && s.lock == Some(Flusher(a.id));
          assert !Holds(s, Producer(id));
          assert ProducerAt(t, id) == ProducerAt(s, id);
        } else {
          assert ProducerAt(s, id).StateRead? ==> !ProducerAt(s, id).running;
        }
      }
    }
  }

  lemma OrderKept(s: State, a: Action)
    requires s.popped + s.tasks == s.accepted && Enabled(s, a)
    ensures Apply(s, a).popped + Apply(s, a).tasks == Apply(s, a).accepted
  {
    PopKeepsOrder(s);
  }

  lemma PopKeepsOrder(s: State)
    ensures s.tasks != [] ==> s.popped + [s.tasks[0]] + s.tasks[1..] == s.popped + s.tasks
    ensures forall task :: s.popped + (s.tasks + [task]) == s.popped + s.tasks + [task]
  {
  }

  lemma InvKept(s: State, a: Action)
    requires Inv(s) && Enabled(s, a)
    ensures Inv(Apply(s, a))
  {
    OrderKept(s, a);
    ExclusionKept(s, a);
    WakeUpKept(s, a);
    TerminationKept(s, a);
  }

  // Safety over every interleaving.
  lemma {:induction false} RunKeepsInv(s: State, run: seq<Action>)
    requires Inv(s) && IsRun(s, run)
    ensures Inv(After(s, run))
    decreases |run|
  {
    if run != [] {
      InvKept(s, run[0]);
      RunKeepsInv(Apply(s, run[0]), run[1..]);
    }
  }

  // From start() on: tasks leave in the order they were accepted and each exactly once,
  // the worker sleeps on a non-empty queue only while a producer still owes its notify,
  // and after a shutdown nothing is accepted and nothing accepted is left behind.
  lemma EveryRun(run: seq<Action>)
    requires IsRun(Initial(), run)
    ensures var s := After(Initial(), run);
      s.popped + s.tasks == s.accepted &&
      (s.worker == Waiting && s.tasks != [] ==> exists id :: OwesNotify(s, id)) &&
      (s.atTermination.Some? ==> s.accepted == s.atTermination.value) &&
      (forall id :: FlushOver(FlusherAt(s, id)) ==> s.tasks == [] && s.popped == s.accepted)
  {
    InitialInv();
    RunKeepsInv(Initial(), run);
  }

  lemma Prepend(s: State, a: Action, run: seq<Action>)
    requires Enabled(s, a) && IsRun(Apply(s, a), run)
    ensures IsRun(s, [a] + run) && After(s, [a] + run) == After(Apply(s, a), run)
  {
    assert ([a] + run)[1..] == run;
  }

  // ---------- Which tasks are accepted ----------

  // The producer makes no step from the k-th action on, up to the n-th.
  predicate NoStep(run: seq<Action>, id: nat, k: nat, n: nat)
    requires n <= |run|
  {
    forall j | k <= j < n :: run[j] != ProducerStep(id)
  }

  // The first step of the producer after its addTask, which is where the state is read
  function FirstStep(run: seq<Action>, id: nat, k: nat): (r: Option<nat>)
    requires k <= |run|
    ensures r.Some? ==> k <= r.value < |run| && run[r.value] == ProducerStep(id)
    ensures NoStep(run, id, k, if r.Some? then r.value else |run|)
    decreases |run| - k
  {
    if k == |run| then None
    else if run[k] == ProducerStep(id) then Some(k)
    else FirstStep(run, id, k + 1)
  }

  // The last of the first k actions that flusher id has to do with is that it starts a shutdown.
  predicate AboutToShutDown(run: seq<Action>, id: nat, k: nat)
    requires k <= |run|
  {
    k > 0 &&
    match run[k - 1]
    case StartShutdown(x) => x == id || AboutToShutDown(run, id, k - 1)
    case StartFlush(x) => x != id && AboutToShutDown(run, id, k - 1)
    case FlusherStep(x) => x != id && AboutToShutDown(run, id, k - 1)
    case _ => AboutToShutDown(run, id, k - 1)
  }

  // The k-th action ends the running state.
  predicate Ends(run: seq<Action>, k: nat)
    requires k < |run|
  {
    run[k] == Stop || (run[k].FlusherStep? && AboutToShutDown(run, run[k].id, k))
  }

  predicate OpenUntil(run: seq<Action>, k: nat)
    requires k <= |run|
  {
    forall j | 0 <= j < k :: !Ends(run, j)
  }

  // The i-th action calls addTask, and the producer's next step comes before any end.
  predicate InTime(run: seq<Action>, i: nat)
    requires i < |run|
  {
    run[i].AddTask? &&
    var j := FirstStep(run, run[i].id, i + 1);
    j.Some? && OpenUntil(run, j.value)
  }

  // The tasks that are in time among the first n actions
  function TasksInTime(run: seq<Action>, n: nat): seq<Task>
    requires n <= |run|
  {
    if n == 0 then []
    else TasksInTime(run, n - 1) + if InTime(run, n - 1) then [run[n - 1].task] else []
  }

  lemma {:induction false} RunSplits(s: State, run: seq<Action>, n: nat)
    requires IsRun(s, run) && n <= |run|
    ensures IsRun(s, run[..n])
    ensures n < |run| ==>
      Enabled(After(s, run[..n]), run[n]) && IsRun(s, run[..n + 1]) &&
      After(s, run[..n + 1]) == Apply(After(s, run[..n]), run[n])
    decreases n
  {
    if n > 0 {
      RunSplits(Apply(s, run[0]), run[1..], n - 1);
      assert run[..n][1..] == run[1..][..n - 1];
      if n < |run| {
        assert run[..n + 1][1..] == run[1..][..n];
      }
    } else if run != [] {
      assert run[..1][1..] == [];
    }
  }

  // After the first n actions
  ghost function StateAt(run: seq<Action>, n: nat): State
    requires IsRun(Initial(), run) && n <= |run|
  {
    RunSplits(Initial(), run, n);
    After(Initial(), run[..n])
  }

  lemma StateNext(run: seq<Action>, n: nat)
    requires IsRun(Initial(), run) && n < |run|
    ensures Enabled(StateAt(run, n), run[n]) && StateAt(run, n + 1) == Apply(StateAt(run, n), run[n])
  {
    RunSplits(Initial(), run, n);
  }

  lemma StateInv(run: seq<Action>, n: nat)
    requires IsRun(Initial(), run) && n <= |run|
    ensures Inv(StateAt(run, n))
  {
    RunSplits(Initial(), run, n);
    InitialInv();
    RunKeepsInv(Initial(), run[..n]);
  }

  lemma {:induction false} ShutdownLockedExactly(run: seq<Action>, n: nat, id: nat)
    requires IsRun(Initial(), run) && n <= |run|
    ensures FlusherAt(StateAt(run, n), id) == ShutdownLocked <==> AboutToShutDown(run, id, n)
    decreases n
  {
    if n > 0 {
      StateNext(run, n - 1);
      ShutdownLockedExactly(run, n - 1, id);
    }
  }

  lemma {:induction false} RunningExactly(run: seq<Action>, n: nat)
    requires IsRun(Initial(), run) && n <= |run|
    ensures StateAt(run, n).threadState == Running <==> OpenUntil(run, n)
    decreases n
  {
    if n > 0 {
      StateNext(run, n - 1);
      RunningExactly(run, n - 1);
      assert OpenUntil(run, n) <==> OpenUntil(run, n - 1) && !Ends(run, n - 1);
      if run[n - 1].FlusherStep? {
        ShutdownLockedExactly(run, n - 1, run[n - 1].id);
      }
    }
  }

  // A producer that has not yet put its task away
  predicate InHand(pc: ProducerPc) { pc.Locked? || pc.StateRead? }

  // Producer `id` has its task in hand, which it was given by the i-th action.
  predicate Handling(run: seq<Action>, n: nat, s: State, i: nat)
    requires n <= |run|
  {
    i < n && run[i].AddTask? && s.lock == Some(Producer(run[i].id)) &&
    var pc := ProducerAt(s, run[i].id);
    (pc == Locked(run[i].task) && NoStep(run, run[i].id, i + 1, n)) ||
    pc == StateRead(run[i].task, InTime(run, i))
  }

  // What has been accepted, with the task in hand if it is in time, is what is in time.
  predicate Accounted(run: seq<Action>, n: nat, s: State, i: Option<nat>)
    requires n <= |run|
  {
    match i
    case None => s.accepted == TasksInTime(run, n)
    case Some(k) =>
      Handling(run, n, s, k) &&
      s.accepted + (if InTime(run, k) then [run[k].task] else []) == TasksInTime(run, n)
  }

  lemma {:induction false} FirstStepIs(run: seq<Action>, id: nat, k: nat, n: nat)
    requires k <= n < |run| && run[n] == ProducerStep(id) && NoStep(run, id, k, n)
    ensures FirstStep(run, id, k) == Some(n)
    decreases n - k
  {
    if k < n {
      FirstStepIs(run, id, k + 1, n);
    }
  }

  lemma {:induction false} AcceptedSoFar(run: seq<Action>, n: nat) returns (i: Option<nat>)
    requires IsRun(Initial(), run) && n <= |run|
    ensures Accounted(run, n, StateAt(run, n), i)
    ensures i == None ==> forall id :: !InHand(ProducerAt(StateAt(run, n), id))
    decreases n
  {
    i := None;
    if n > 0 {
      var before := AcceptedSoFar(run, n - 1);
      StateNext(run, n - 1);
      StateInv(run, n - 1);
      RunningExactly(run, n - 1);
      i := AcceptedNext(run, n - 1, StateAt(run, n - 1), before);
    }
  }

  lemma NothingTaken(s: State, a: Action)
    requires Enabled(s, a) && forall id :: !InHand(ProducerAt(s, id))
    ensures !a.AddTask? ==> Apply(s, a).accepted == s.accepted && forall id :: !InHand(ProducerAt(Apply(s, a), id))
    ensures a.AddTask? ==> Apply(s, a).accepted == s.accepted
  {
    forall id
      ensures !a.AddTask? ==> !InHand(ProducerAt(Apply(s, a), id))
    {
      assert !InHand(ProducerAt(s, id));
    }
  }

  lemma AcceptedNext(run: seq<Action>, n: nat, s: State, before: Option<nat>) returns (i: Option<nat>)
    requires n < |run| && Enabled(s, run[n]) && MutualExclusion(s) && Accounted(run, n, s, before)
    requires before == None ==> forall id :: !InHand(ProducerAt(s, id))
    requires s.threadState == Running <==> OpenUntil(run, n)
    ensures Accounted(run, n + 1, Apply(s, run[n]), i)
    ensures i == None ==> forall id :: !InHand(ProducerAt(Apply(s, run[n]), id))
  {
    i := before;
    if before == None {
      NothingTaken(s, run[n]);
    }
    if run[n].AddTask? {
      i := Some(n);
    } else if before.Some? && run[n] == ProducerStep(run[before.value].id) {
      i := OwnStep(run, n, s, before.value);
    } else if before.Some? {
      OtherStep(run, n, s, before.value);
    }
  }

  // The producer reads the state, or puts its task away.
  lemma OwnStep(run: seq<Action>, n: nat, s: State, k: nat) returns (i: Option<nat>)
    requires n < |run| && MutualExclusion(s) && Accounted(run, n, s, Some(k))
    requires run[n] == ProducerStep(run[k].id)
    requires s.threadState == Running <==> OpenUntil(run, n)
    ensures Accounted(run, n + 1, Apply(s, run[n]), i)
    ensures i == None ==> forall id :: !InHand(ProducerAt(Apply(s, run[n]), id))
  {
    var own := run[k].id;
    if ProducerAt(s, own).Locked? {
      FirstStepIs(run, own, k + 1, n);
      assert InTime(run, k) <==> s.threadState == Running;
      i := Some(k);
    } else {
      i := None;
      forall id
        ensures !InHand(ProducerAt(Apply(s, run[n]), id))
      {
        assert Holds(s, Producer(id)) <==> s.lock == Some(Producer(id));
      }
    }
  }

  lemma OtherStep(run: seq<Action>, n: nat, s: State, k: nat)
    requires n < |run| && Enabled(s, run[n]) && MutualExclusion(s) && Accounted(run, n, s, Some(k))
    requires !run[n].AddTask? && run[n] != ProducerStep(run[k].id)
    ensures Accounted(run, n + 1, Apply(s, run[n]), Some(k))
  {
    var own := run[k].id;
    assert Holds(s, Producer(own)) && !Holds(s, Worker);
    match run[n] {
      case ProducerStep(id) => assert !Holds(s, Producer(id));
      case FlusherStep(id) => assert !Holds(s, Flusher(id));
      case _ =>
    }
  }

  // No producer is inside the lock.
  ghost predicate NoneInside(s: State) { forall id :: !Holds(s, Producer(id)) }

  // In every run, once no producer is inside the lock, the tasks accepted are those whose
  // producer took its first step before any stop and before any shutdown set the state, in the
  // order in which they were added.
  lemma AcceptedExactly(run: seq<Action>)
    requires IsRun(Initial(), run) && NoneInside(After(Initial(), run))
    ensures After(Initial(), run).accepted == TasksInTime(run, |run|)
  {
    var i := AcceptedSoFar(run, |run|);
    assert run[..|run|] == run;
    if i.Some? {
      assert Holds(After(Initial(), run), Producer(run[i.value].id));
    }
  }

  // All tasks that the first n actions add
  function TasksAdded(run: seq<Action>, n: nat): seq<Task>
    requires n <= |run|
  {
    if n == 0 then []
    else TasksAdded(run, n - 1) + if run[n - 1].AddTask? then [run[n - 1].task] else []
  }

  // Nobody stops the queue or shuts it down.
  predicate NeverEnds(run: seq<Action>) { forall a | a in run :: a != Stop && !a.StartShutdown? }

  lemma {:induction false} NeverAboutTo(run: seq<Action>, id: nat, k: nat)
    requires NeverEnds(run) && k <= |run|
    ensures !AboutToShutDown(run, id, k)
    decreases k
  {
    if k > 0 {
      assert run[k - 1] in run;
      NeverAboutTo(run, id, k - 1);
    }
  }

  lemma OpenToTheEnd(run: seq<Action>)
    requires NeverEnds(run)
    ensures forall k: nat | k <= |run| :: OpenUntil(run, k)
  {
    forall j: nat | j < |run|
      ensures !Ends(run, j)
    {
      assert run[j] in run;
      if run[j].FlusherStep? {
        NeverAboutTo(run, run[j].id, j);
      }
    }
  }

  // A producer that makes no step after the addTask is still inside the lock.
  lemma {:induction false} StaysInside(run: seq<Action>, i: nat, n: nat)
    requires IsRun(Initial(), run) && i < n <= |run| && run[i].AddTask? && NoStep(run, run[i].id, i + 1, n)
    ensures ProducerAt(StateAt(run, n), run[i].id) == Locked(run[i].task)
    decreases n
  {
    StateNext(run, n - 1);
    if n > i + 1 {
      StaysInside(run, i, n - 1);
      KeepsTask(StateAt(run, n - 1), run[n - 1], run[i].id);
    }
  }

  lemma KeepsTask(s: State, a: Action, id: nat)
    requires Enabled(s, a) && ProducerAt(s, id).Locked? && a != ProducerStep(id)
    ensures ProducerAt(Apply(s, a), id) == ProducerAt(s, id)
  {
  }

  lemma AllInTime(run: seq<Action>, i: nat)
    requires IsRun(Initial(), run) && NeverEnds(run) && NoneInside(After(Initial(), run))
    requires i < |run| && run[i].AddTask?
    ensures InTime(run, i)
  {
    OpenToTheEnd(run);
    if FirstStep(run, run[i].id, i + 1) == None {
      StaysInside(run, i, |run|);
      assert run[..|run|] == run;
      assert Holds(After(Initial(), run), Producer(run[i].id));
    }
  }

  lemma {:induction false} AddedAreInTime(run: seq<Action>, n: nat)
    requires IsRun(Initial(), run) && NeverEnds(run) && NoneInside(After(Initial(), run)) && n <= |run|
    ensures TasksInTime(run, n) == TasksAdded(run, n)
    decreases n
  {
    if n > 0 {
      AddedAreInTime(run, n - 1);
      if run[n - 1].AddTask? {
        AllInTime(run, n - 1);
      }
    }
  }

  // Without a stop or shutdown every task that is added is accepted, in that order.
  lemma AllAccepted(run: seq<Action>)
    requires IsRun(Initial(), run) && NeverEnds(run) && NoneInside(After(Initial(), run))
    ensures After(Initial(), run).accepted == TasksAdded(run, |run|)
  {
    AcceptedExactly(run);
    AddedAreInTime(run, |run|);
  }

  // ---------- The worker's progress ----------

  // The worker has the lock, or it is free; the worker is neither asleep nor gone.
  predicate WorkerMoves(s: State) {
    s.worker != Waiting && s.worker != Exited &&
    if s.worker.FirstTest? || s.worker.SecondTest? || s.worker.Popped? then s.lock == Some(Worker) else s.lock == None
  }

  // Only the worker moves.
  predicate WorkerOnly(run: seq<Action>) { forall a | a in run :: a == WorkerStep }

  // How many steps it takes an awake worker to its next pop, at most
  function ToPop(w: WorkerPc): nat {
    match w
    case LoopTest => 6
    case BeforeLock => 5
    case FirstTest => 4
    case Woken => 4
    case SecondTest => 3
    case Popped(_) => 8
    case RunningTask(_) => 7
    case _ => 0
  }

  // Left to itself, the worker pops all that is queued, in order.
  lemma {:induction false} WorkerDrains(s: State) returns (run: seq<Action>)
    requires s.threadState != Terminated && WorkerMoves(s)
    ensures WorkerOnly(run) && IsRun(s, run)
    ensures var t := After(s, run); t.tasks == [] && t.popped == s.popped + s.tasks && t.accepted == s.accepted
    decreases |s.tasks|, ToPop(s.worker)
  {
    if s.tasks == [] {
      run := [];
    } else {
      run := WorkerDrains(Apply(s, WorkerStep));
      Prepend(s, WorkerStep, run);
      PopKeepsOrder(s);
      run := [WorkerStep] + run;
    }
  }

  // With nobody in the middle of a call, and no end, the worker alone pops every task that was
  // ever added, in the order in which they were added.
  lemma AllPopped(run: seq<Action>) returns (more: seq<Action>)
    requires IsRun(Initial(), run) && NeverEnds(run)
    requires var s := After(Initial(), run);
      (forall id :: ProducerAt(s, id) == Idle) && (forall id :: FlusherAt(s, id) == Resting)
    ensures WorkerOnly(more) && IsRun(After(Initial(), run), more)
    ensures After(After(Initial(), run), more).popped == TasksAdded(run, |run|)
  {
    var s := After(Initial(), run);
    StateInv(run, |run|);
    assert run[..|run|] == run;
    AllAccepted(run);
    OpenToTheEnd(run);
    RunningExactly(run, |run|);
    assert forall t :: Holds(s, t) <==> s.lock == Some(t);
    if s.worker == Waiting {
      more := [];
      assert s.tasks == [];
    } else {
      NotExited(run, |run|);
      OnlyWorkerHolds(s);
      more := WorkerDrains(s);
    }
  }

  lemma OnlyWorkerHolds(s: State)
    requires MutualExclusion(s) && s.worker != Waiting && s.worker != Exited
    requires (forall id :: ProducerAt(s, id) == Idle) && (forall id :: FlusherAt(s, id) == Resting)
    ensures WorkerMoves(s)
  {
    assert Holds(s, Worker) <==> s.lock == Some(Worker);
    if s.lock.Some? {
      assert Holds(s, s.lock.value);
    }
  }

  // The worker leaves its loop only when it finds the queue shut down.
  lemma {:induction false} NotExited(run: seq<Action>, n: nat)
    requires IsRun(Initial(), run) && NeverEnds(run) && n <= |run|
    ensures StateAt(run, n).worker != Exited
    decreases n
  {
    if n > 0 {
      NotExited(run, n - 1);
      StateNext(run, n - 1);
      OpenToTheEnd(run);
      RunningExactly(run, n - 1);
    }
  }

  // ---------- Does the worker learn of a shutdown? ----------

  // The loop test reads the state outside the lock. Shutdown "id" has just set the state:
  // it will be over with the worker asleep in this run.
  predicate MissesWorker(s: State, run: seq<Action>, id: nat) {
    Stop !in run && IsRun(s, run) &&
    After(s, run).worker == Waiting && FlusherAt(After(s, run), id) == ShutDown
  }

  // The worker is past the point where it could go to sleep unnoticed.
  predicate WillNotice(s: State, id: nat) {
    s.threadState == Terminated && s.worker != BeforeLock && s.worker != FirstTest &&
    PastStateSet(FlusherAt(s, id)) && (s.worker == Waiting ==> FlusherAt(s, id) != ShutDown)
  }

  lemma {:induction false} WillNoticeKept(s: State, run: seq<Action>, id: nat)
    requires WillNotice(s, id) && Stop !in run && IsRun(s, run)
    ensures WillNotice(After(s, run), id)
    decreases |run|
  {
    if run != [] {
      assert run[0] in run && forall a | a in run[1..] :: a in run;
      WillNoticeKept(Apply(s, run[0]), run[1..], id);
    }
  }

  // With everybody else standing still, a shutdown flushes the queue and comes to its notify.
  lemma {:induction false} FlushAlone(s: State, id: nat) returns (run: seq<Action>)
    requires FlusherAt(s, id) == QueueTest(true) && s.lock == Some(Flusher(id))
    ensures Stop !in run && IsRun(s, run)
    ensures var t := After(s, run);
      FlusherAt(t, id) == BeforeNotify && t.tasks == [] && t.lock == None && t.worker == s.worker
    decreases |s.tasks|
  {
    var step := FlusherStep(id);
    var s1 := Apply(s, step);
    if s.tasks == [] {
      run := [];
    } else {
      var s2 := Apply(s1, step);
      run := FlushAlone(Apply(s2, step), id);
      Prepend(s2, step, run);
      Prepend(s1, step, [step] + run);
      run := [step] + ([step] + run);
    }
    Prepend(s, step, run);
    run := [step] + run;
  }

  lemma {:induction false} RunsJoin(s: State, a: seq<Action>, b: seq<Action>)
    requires IsRun(s, a) && IsRun(After(s, a), b)
    ensures IsRun(s, a + b) && After(s, a + b) == After(After(s, a), b)
    decreases |a|
  {
    if a == [] {
      assert a + b == b;
    } else {
      RunsJoin(Apply(s, a[0]), a[1..], b);
      assert (a + b)[1..] == a[1..] + b;
    }
  }

  // How many steps it takes an awake worker to its loop test, at most
  function ToLoopTest(w: WorkerPc): nat {
    match w
    case Woken => 4
    case SecondTest => 3
    case Popped(_) => 2
    case RunningTask(_) => 1
    case _ => 0
  }

  // A worker that is awake and past the point where it could fall asleep leaves its loop.
  lemma {:induction false} WorkerLeaves(s: State) returns (run: seq<Action>)
    requires s.threadState == Terminated && WorkerMoves(s) && s.worker != BeforeLock && s.worker != FirstTest
    ensures WorkerOnly(run) && IsRun(s, run) && After(s, run).worker == Exited
    decreases ToLoopTest(s.worker)
  {
    run := [];
    if s.worker != LoopTest {
      run := WorkerLeaves(Apply(s, WorkerStep));
    }
    Prepend(s, WorkerStep, run);
    run := [WorkerStep] + run;
  }

  // A worker between its loop test and the lock sleeps through the shutdown's notify.
  lemma MissingRun(s: State, id: nat) returns (run: seq<Action>)
    requires FlusherAt(s, id) == StateSet && s.worker == BeforeLock
    ensures MissesWorker(s, run, id)
  {
    var step := FlusherStep(id);
    var s1 := Apply(s, step);
    var s2 := Apply(s1, step);
    var flush := FlushAlone(s2, id);
    Prepend(s1, step, flush);
    Prepend(s, step, [step] + flush);
    var first := [step] + ([step] + flush);
    var s3 := After(s, first);
    var s4 := Apply(s3, step);
    var s5 := Apply(s4, WorkerStep);
    var last := [WorkerStep];
    Prepend(s5, WorkerStep, []);
    Prepend(s4, WorkerStep, last);
    Prepend(s3, step, [WorkerStep] + last);
    RunsJoin(s, first, [step] + ([WorkerStep] + last));
    run := first + ([step] + ([WorkerStep] + last));
  }

  // Such a state comes about: the worker has made its loop test, and then a shutdown takes
  // the lock and sets the state. From there the queue can be flushed and the worker put to sleep.
  lemma MissHappens() returns (run: seq<Action>, more: seq<Action>)
    ensures IsRun(Initial(), run) && Stop !in run && MissesWorker(After(Initial(), run), more, 0)
  {
    run := [WorkerStep, StartShutdown(0), FlusherStep(0)];
    var s1 := Apply(Initial(), WorkerStep);
    var s2 := Apply(s1, StartShutdown(0));
    var s3 := Apply(s2, FlusherStep(0));
    assert [FlusherStep(0)] + [] == [FlusherStep(0)];
    Prepend(s2, FlusherStep(0), []);
    Prepend(s1, StartShutdown(0), [FlusherStep(0)]);
    Prepend(Initial(), WorkerStep, [StartShutdown(0)] + [FlusherStep(0)]);
    assert run == [WorkerStep] + ([StartShutdown(0)] + [FlusherStep(0)]);
    more := MissingRun(s3, 0);
  }

  // A shutdown can leave the worker asleep exactly when, at the moment the state was
  // set, the worker stood between its loop test and the lock.
  lemma ShutdownMissesWorkerExactly(s: State, id: nat)
    requires Inv(s) && FlusherAt(s, id) == StateSet && s.threadState == Terminated
    ensures (exists run :: MissesWorker(s, run, id)) <==> s.worker == BeforeLock
  {
    if s.worker == BeforeLock {
      var run := MissingRun(s, id);
    } else {
      assert Holds(s, Flusher(id)) && !Holds(s, Worker);
      forall run | Stop !in run && IsRun(s, run)
        ensures !MissesWorker(s, run, id)
      {
        WillNoticeKept(s, run, id);
      }
    }
  }
}
