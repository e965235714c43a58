/** The fixed-size thread pool, as a system of atomic steps.

    Each step is one critical section of the pool's mutex or one call on its condition
    variable, so a sequence of steps is an interleaving of the submitting threads, the thread
    that shuts the pool down, and the workers. */
module ThreadPool {
  import opened Sums

  /** Where a worker is: about to take the lock, waiting on the condition variable, inside a
      task, or returned from its loop. The phase is how far the task has got. */
  datatype Worker<T, P> = Awake | Asleep | Running(task: T, phase: P) | Exited

  datatype Pool<T, P> = Pool(
    tasks: seq<T>,
    stopping: bool,
    workers: seq<Worker<T, P>>,
    notifies: nat,       // notify_one calls that a submit still has to make
    notifyAll: bool,     // the notify_all that shutdown still has to make
    accepted: seq<T>,    // history: tasks pushed, in order
    started: seq<T>,     // history: tasks popped, in order
    finished: seq<T>)    // history: tasks done, in order

  datatype Step<T, P> =
    | Submit(task: T)
    | BeginShutdown
    | Lock(w: nat, start: P)
    | Advance(w: nat, phase: P)
    | Finish(w: nat)
    | NotifyOne(w: nat)
    | NotifyAll
    | Spurious(w: nat)

  function Init<T, P>(numWorkers: nat): Pool<T, P> {
    Pool([], false, seq(if numWorkers == 0 then 1 else numWorkers, _ => Awake), 0, false, [], [], [])
  }

  predicate SomeAsleep<T, P>(p: Pool<T, P>) {
    exists w :: 0 <= w < |p.workers| && p.workers[w].Asleep?
  }

  /** notify_one wakes any one sleeper, and nobody when there is none. */
  predicate Enabled<T, P>(p: Pool<T, P>, s: Step<T, P>) {
    match s
    case Submit(_) => true
    case BeginShutdown => true
    case Lock(w, _) => w < |p.workers| && p.workers[w].Awake?
    case Advance(w, _) => w < |p.workers| && p.workers[w].Running?
    case Finish(w) => w < |p.workers| && p.workers[w].Running?
    case NotifyOne(w) => p.notifies > 0 && w < |p.workers| && (p.workers[w].Asleep? || !SomeAsleep(p))
    case NotifyAll => p.notifyAll
    case Spurious(w) => w < |p.workers| && p.workers[w].Asleep?
  }

  function Wake<T, P>(w: Worker<T, P>): Worker<T, P> {
    if w.Asleep? then Awake else w
  }

  /** A worker with the lock sleeps on an empty queue, returns on an empty queue of a stopping
      pool, and otherwise takes the first task. */
  function AfterLock<T, P>(p: Pool<T, P>, start: P): Worker<T, P> {
    if p.tasks != [] then Running(p.tasks[0], start) else if p.stopping then Exited else Asleep
  }

  function Apply<T, P>(p: Pool<T, P>, s: Step<T, P>): Pool<T, P>
    requires Enabled(p, s)
  {
    match s
    case Submit(task) =>
      if p.stopping then p
      else p.(tasks := p.tasks + [task], notifies := p.notifies + 1, accepted := p.accepted + [task])
    case BeginShutdown =>
      if p.stopping then p else p.(stopping := true, notifyAll := true)
    case Lock(w, start) =>
      var popped := if p.tasks == [] then 0 else 1;
      p.(workers := p.workers[w := AfterLock(p, start)],
         tasks := p.tasks[popped..], started := p.started + p.tasks[..popped])
    case Advance(w, phase) => p.(workers := p.workers[w := Running(p.workers[w].task, phase)])
    case Finish(w) => p.(workers := p.workers[w := Awake], finished := p.finished + [p.workers[w].task])
    case NotifyOne(w) => p.(notifies := p.notifies - 1, workers := p.workers[w := Wake(p.workers[w])])
    case NotifyAll =>
      p.(notifyAll := false, workers := seq(|p.workers|, i requires 0 <= i < |p.workers| => Wake(p.workers[i])))
    case Spurious(w) => p.(workers := p.workers[w := Awake])
  }

  // ---------------------------------------------------------------- the invariant

  function TaskOf<T, P>(w: Worker<T, P>): multiset<T> {
    if w.Running? then multiset{w.task} else multiset{}
  }

  function AwakeOf<T, P>(w: Worker<T, P>): nat {
    if w.Awake? then 1 else 0
  }

  ghost function RunningTasks<T, P>(p: Pool<T, P>): multiset<T> {
    Gather<Worker<T, P>, T>(p.workers, TaskOf)
  }

  ghost function AwakeCount<T, P>(p: Pool<T, P>): nat {
    Total<Worker<T, P>>(p.workers, AwakeOf)
  }

  /** Every accepted task is queued, running or finished, once; the queue is first in, first out. */
  ghost predicate Conserved<T, P>(p: Pool<T, P>) {
    && p.accepted == p.started + p.tasks
    && multiset(p.started) == multiset(p.finished) + RunningTasks(p)
    && (|p.workers| == 1 ==>
        p.started == p.finished + if p.workers[0].Running? then [p.workers[0].task] else [])
  }

  /** No wakeup is lost: while a worker sleeps, there are enough notifications on their way and
      workers about to look for every queued task. */
  ghost predicate NoLostWakeup<T, P>(p: Pool<T, P>) {
    && (SomeAsleep(p) && !p.stopping ==> |p.tasks| <= p.notifies + AwakeCount(p))
    && (SomeAsleep(p) && p.stopping ==> p.notifyAll)
  }

  ghost predicate ExitsLast<T, P>(p: Pool<T, P>) {
    && (p.notifyAll ==> p.stopping)
    && forall w | 0 <= w < |p.workers| :: p.workers[w].Exited? ==> p.stopping && p.tasks == []
  }

  ghost predicate Inv<T, P>(p: Pool<T, P>) {
    |p.workers| >= 1 && Conserved(p) && NoLostWakeup(p) && ExitsLast(p)
  }

  lemma InitInv<T, P>(numWorkers: nat)
    ensures Inv(Init<T, P>(numWorkers))
  {
    var p := Init<T, P>(numWorkers);
    GatherEmpty<Worker<T, P>, T>(p.workers, TaskOf);
  }

  lemma RunningKept<T, P>(p: Pool<T, P>, s: Step<T, P>)
    requires Enabled(p, s) && !s.Lock? && !s.Finish?
    ensures RunningTasks(Apply(p, s)) == RunningTasks(p)
  {
    match s
    case NotifyAll => GatherSame<Worker<T, P>, T>(p.workers, Apply(p, s).workers, TaskOf);
    case Advance(w, phase) => GatherKeep<Worker<T, P>, T>(p.workers, w, Running(p.workers[w].task, phase), TaskOf);
    case NotifyOne(w) => GatherKeep<Worker<T, P>, T>(p.workers, w, Wake(p.workers[w]), TaskOf);
    case Spurious(w) => GatherKeep<Worker<T, P>, T>(p.workers, w, Awake, TaskOf);
    case _ =>
  }

  lemma LockBalance<T, P>(p: Pool<T, P>, w: nat, start: P)
    requires Conserved(p) && Enabled(p, Step<T, P>.Lock(w, start))
    ensures var q := Apply(p, Lock(w, start)); multiset(q.started) == multiset(q.finished) + RunningTasks(q)
  {
    var q := Apply(p, Lock(w, start));
    var taken := TaskOf(AfterLock(p, start));
    GatherAdd<Worker<T, P>, T>(p.workers, w, AfterLock(p, start), TaskOf);
    assert p.tasks != [] ==> p.tasks[..1] == [p.tasks[0]];
    assert multiset(q.started) == multiset(p.started) + taken;
    Exchange(multiset(p.finished), RunningTasks(p), taken);
  }

  lemma FinishBalance<T, P>(p: Pool<T, P>, w: nat)
    requires Conserved(p) && Enabled(p, Step<T, P>.Finish(w))
    ensures var q := Apply(p, Step<T, P>.Finish(w)); multiset(q.started) == multiset(q.finished) + RunningTasks(q)
  {
    var q := Apply(p, Step<T, P>.Finish(w));
    var given := TaskOf(p.workers[w]);
    GatherDrop<Worker<T, P>, T>(p.workers, w, Awake, TaskOf);
    assert multiset(q.finished) == multiset(p.finished) + given;
    Exchange(multiset(p.finished), given, RunningTasks(q));
  }

  lemma ConservedMultiset<T, P>(p: Pool<T, P>, s: Step<T, P>)
    requires Conserved(p) && Enabled(p, s)
    ensures var q := Apply(p, s); multiset(q.started) == multiset(q.finished) + RunningTasks(q)
  {
    match s
    case Lock(w, start) => LockBalance(p, w, start);
    case Finish(w) => FinishBalance(p, w);
    case _ => RunningKept(p, s);
  }

  lemma QueueOrder<T, P>(p: Pool<T, P>, s: Step<T, P>)
    requires Conserved(p) && Enabled(p, s)
    ensures var q := Apply(p, s); q.accepted == q.started + q.tasks
  {
    match s
    case Submit(task) =>
      assert p.accepted + [task] == p.started + (p.tasks + [task]);
    case Lock(w, _) =>
      var popped := if p.tasks == [] then 0 else 1;
      assert p.accepted == (p.started + p.tasks[..popped]) + p.tasks[popped..];
    case _ =>
  }

  lemma SingleWorkerOrder<T, P>(p: Pool<T, P>, s: Step<T, P>)
    requires Conserved(p) && Enabled(p, s) && |p.workers| == 1
    ensures var q := Apply(p, s);
      q.started == q.finished + if q.workers[0].Running? then [q.workers[0].task] else []
  {
    assert p.tasks != [] ==> p.tasks[..1] == [p.tasks[0]];
  }

  lemma ConservedStep<T, P>(p: Pool<T, P>, s: Step<T, P>)
    requires Conserved(p) && Enabled(p, s)
    ensures Conserved(Apply(p, s))
  {
    ConservedMultiset(p, s);
    QueueOrder(p, s);
    if |p.workers| == 1 {
      SingleWorkerOrder(p, s);
    }
  }

  lemma NoLostWakeupStep<T, P>(p: Pool<T, P>, s: Step<T, P>)
    requires Inv(p) && Enabled(p, s)
    ensures NoLostWakeup(Apply(p, s))
  {
    var q := Apply(p, s);
    if s.NotifyAll? {
    } else if s.Submit? || s.BeginShutdown? {
      assert SomeAsleep(q) <==> SomeAsleep(p);
    } else {
      TotalUpdate<Worker<T, P>>(p.workers, s.w, q.workers[s.w], AwakeOf);
      if SomeAsleep(q) && !(s.Lock? && q.workers[s.w].Asleep?) {
        var v :| 0 <= v < |q.workers| && q.workers[v].Asleep?;
        assert p.workers[v].Asleep?;
      }
    }
  }

  lemma ExitsLastStep<T, P>(p: Pool<T, P>, s: Step<T, P>)
    requires Inv(p) && Enabled(p, s)
    ensures ExitsLast(Apply(p, s))
  {
  }

  lemma InvStep<T, P>(p: Pool<T, P>, s: Step<T, P>)
    requires Inv(p) && Enabled(p, s)
    ensures Inv(Apply(p, s))
  {
    ConservedStep(p, s);
    NoLostWakeupStep(p, s);
    ExitsLastStep(p, s);
  }

  // ---------------------------------------------------------------- runs

  ghost predicate IsRun<T, P>(p: Pool<T, P>, steps: seq<Step<T, P>>, q: Pool<T, P>)
    decreases |steps|
  {
    if steps == [] then p == q
    else Enabled(p, steps[0]) && IsRun(Apply(p, steps[0]), steps[1..], q)
  }

  lemma {:induction false} RunInv<T, P>(p: Pool<T, P>, steps: seq<Step<T, P>>, q: Pool<T, P>)
    requires Inv(p) && IsRun(p, steps, q)
    ensures Inv(q)
    decreases |steps|
  {
    if steps == [] {
    } else {
      InvStep(p, steps[0]);
      RunInv(Apply(p, steps[0]), steps[1..], q);
    }
  }

  /** In every reachable state tasks are neither lost nor duplicated, leave the queue in submit
      order, and on a single worker run strictly in submit order. */
  lemma ReachableOrder<T, P>(numWorkers: nat, steps: seq<Step<T, P>>, p: Pool<T, P>)
    requires IsRun(Init(numWorkers), steps, p)
    ensures p.started <= p.accepted
    ensures multiset(p.accepted) == multiset(p.finished) + RunningTasks(p) + multiset(p.tasks)
    ensures |p.workers| == if numWorkers == 0 then 1 else numWorkers
    ensures numWorkers <= 1 ==> p.finished <= p.accepted
    ensures numWorkers <= 1 && p.workers[0].Running? ==> p.finished + [p.workers[0].task] <= p.accepted
  {
    InitInv<T, P>(numWorkers);
    RunInv(Init(numWorkers), steps, p);
    RunKeepsSize(Init<T, P>(numWorkers), steps, p);
  }

  lemma KeepsSize<T, P>(p: Pool<T, P>, s: Step<T, P>)
    requires Enabled(p, s)
    ensures |Apply(p, s).workers| == |p.workers|
  {
  }

  lemma {:induction false} RunKeepsSize<T, P>(p: Pool<T, P>, steps: seq<Step<T, P>>, q: Pool<T, P>)
    requires IsRun(p, steps, q)
    ensures |q.workers| == |p.workers|
    decreases |steps|
  {
    if steps == [] {
    } else {
      RunKeepsSize(Apply(p, steps[0]), steps[1..], q);
    }
  }

  // ---------------------------------------------------------------- progress

  function Weight<T, P>(w: Worker<T, P>): nat {
    match w case Running(_, _) => 3 case Awake => 2 case Asleep => 1 case Exited => 0
  }

  /** A bound on the work still to be done. */
  ghost function Measure<T, P>(p: Pool<T, P>): nat {
    2 * |p.tasks| + 2 * p.notifies + (if p.notifyAll then |p.workers| + 1 else 0)
    + Total<Worker<T, P>>(p.workers, Weight)
  }

  /** The steps the pool takes by itself. */
  predicate IsWork<T, P>(s: Step<T, P>) {
    s.Lock? || s.Finish? || s.NotifyOne? || s.NotifyAll?
  }

  lemma WorkDecreases<T, P>(p: Pool<T, P>, s: Step<T, P>)
    requires Enabled(p, s) && !s.Submit? && !s.BeginShutdown?
    ensures IsWork(s) ==> Measure(Apply(p, s)) < Measure(p)
    ensures s.Advance? ==> Measure(Apply(p, s)) == Measure(p)
    ensures s.Spurious? ==> Measure(Apply(p, s)) == Measure(p) + 1
  {
    var q := Apply(p, s);
    if s.NotifyAll? {
      TotalBound<Worker<T, P>>(p.workers, q.workers, Weight);
    } else {
      TotalUpdate<Worker<T, P>>(p.workers, s.w, q.workers[s.w], Weight);
    }
  }

  function CountWork<T, P>(steps: seq<Step<T, P>>): nat {
    if steps == [] then 0 else CountWork(steps[1..]) + if IsWork(steps[0]) then 1 else 0
  }

  function CountSpurious<T, P>(steps: seq<Step<T, P>>): nat {
    if steps == [] then 0 else CountSpurious(steps[1..]) + if steps[0].Spurious? then 1 else 0
  }

  /** With no further submissions, the work a run can do is bounded: spurious wakeups are the
      only thing that adds to it, one each. */
  lemma {:induction false} WorkIsBounded<T, P>(p: Pool<T, P>, steps: seq<Step<T, P>>, q: Pool<T, P>)
    requires IsRun(p, steps, q)
    requires forall k | 0 <= k < |steps| :: !steps[k].Submit? && !steps[k].BeginShutdown?
    ensures Measure(q) + CountWork(steps) <= Measure(p) + CountSpurious(steps)
    decreases |steps|
  {
    if steps == [] {
    } else {
      WorkDecreases(p, steps[0]);
      WorkIsBounded(Apply(p, steps[0]), steps[1..], q);
    }
  }

  /** Nothing is left for the pool to do by itself. */
  ghost predicate Quiescent<T(!new), P(!new)>(p: Pool<T, P>) {
    forall s: Step<T, P> | IsWork(s) :: !Enabled(p, s)
  }

  /** A pool at rest has finished every accepted task; if it was shut down, its workers have
      returned, so the joins complete. */
  lemma QuiescentDrained<T(!new), P(!new)>(p: Pool<T, P>, start: P)
    requires Inv(p) && Quiescent(p)
    ensures p.tasks == [] && multiset(p.finished) == multiset(p.accepted)
    ensures p.stopping ==> AllExited(p)
  {
    forall w | 0 <= w < |p.workers| ensures p.workers[w].Asleep? || p.workers[w].Exited? {
      var a, b := Step<T, P>.Lock(w, start), Step<T, P>.Finish(w);
      assert IsWork(a) && IsWork(b);
    }
    if !SomeAsleep(p) {
      assert p.workers[0].Exited?;
    } else {
      var v :| 0 <= v < |p.workers| && p.workers[v].Asleep?;
      var one := Step<T, P>.NotifyOne(v);
      assert IsWork(one);
      TotalZero<Worker<T, P>>(p.workers, AwakeOf);
    }
    var all := Step<T, P>.NotifyAll;
    assert IsWork(all);
    GatherEmpty<Worker<T, P>, T>(p.workers, TaskOf);
    assert p.accepted == p.started;
  }

  predicate AllExited<T, P>(p: Pool<T, P>) {
    forall w | 0 <= w < |p.workers| :: p.workers[w].Exited?
  }

  /** Shutdown drains: once every worker has returned, every accepted task has been run. */
  lemma AllExitedDrained<T, P>(p: Pool<T, P>)
    requires Inv(p) && AllExited(p)
    ensures p.tasks == [] && p.started == p.accepted && multiset(p.finished) == multiset(p.accepted)
    ensures |p.workers| == 1 ==> p.finished == p.accepted
  {
    assert p.workers[0].Exited?;
    GatherEmpty<Worker<T, P>, T>(p.workers, TaskOf);
  }
}
