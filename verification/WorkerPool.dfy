/** The thread pool as an object. Each method is one critical section of its mutex, or one call
    on its condition variable; between two of them other threads may run. */
module WorkerPool {
  import opened Steps = ThreadPool

  class ThreadPool<T(!new), P(!new)> {
    var tasks: seq<T>
    var stopping: bool
    var workers: seq<Worker<T, P>>
    var notifies: nat
    var notifyAll: bool
    // histories
    var accepted: seq<T>
    var started: seq<T>
    var finished: seq<T>
    ghost var wakeups: nat  // notify_one calls made

    function View(): Pool<T, P>
      reads this
    {
      Pool(tasks, stopping, workers, notifies, notifyAll, accepted, started, finished)
    }

    const start: P  // the phase a task starts in

    constructor (numWorkers: nat, startPhase: P)
      ensures View() == Init(numWorkers) && Inv(View())
    {
      start := startPhase;
      var count := if numWorkers == 0 then 1 else numWorkers;
      tasks, stopping, notifies, notifyAll := [], false, 0, false;
      workers := seq(count, _ => Awake);
      accepted, started, finished, wakeups := [], [], [], 0;
      new;
      InitInv<T, P>(numWorkers);
    }

    // -------------------------------------------------------------- single steps

    /** The locked part of `submit`. */
    method Push(task: T)
      modifies this`tasks, this`accepted, this`notifies
      ensures View() == Apply(old(View()), Step<T, P>.Submit(task))
    {
      if stopping {
        return;
      }
      tasks, accepted := tasks + [task], accepted + [task];
      notifies := notifies + 1;
    }

    /** The locked part of `shutdown`; false when somebody has already called it. */
    method BeginStop() returns (first: bool)
      modifies this`stopping, this`notifyAll
      ensures first == !old(stopping)
      ensures View() == Apply(old(View()), BeginShutdown)
    {
      if stopping {
        return false;
      }
      stopping, notifyAll := true, true;
      return true;
    }

    /** Worker w has the lock: it sleeps, returns, or takes the first task. */
    method WaitOrTake(w: nat, start: P)
      requires Enabled(View(), Lock(w, start))
      modifies this`tasks, this`started, this`workers
      ensures View() == Apply(old(View()), Lock(w, start))
    {
      if !stopping && tasks == [] {
        workers := workers[w := Asleep];
      } else if stopping && tasks == [] {
        workers := workers[w := Exited];
      } else {
        var task := tasks[0];
        tasks, started := tasks[1..], started + [task];
        workers := workers[w := Running(task, start)];
      }
      assert old(tasks) != [] ==> old(tasks)[..1] == [old(tasks)[0]];
      assert old(started) + [] == old(started);
    }

    /** Worker w has come further in its task. */
    method MoveOn(w: nat, phase: P)
      requires Enabled(View(), Advance(w, phase))
      modifies this`workers
      ensures View() == Apply(old(View()), Advance(w, phase))
    {
      workers := workers[w := Running(workers[w].task, phase)];
    }

    /** Worker w has run its task. */
    method Complete(w: nat)
      requires Enabled(View(), Step<T, P>.Finish(w))
      modifies this`workers, this`finished
      ensures View() == Apply(old(View()), Step<T, P>.Finish(w))
    {
      finished := finished + [workers[w].task];
      workers := workers[w := Awake];
    }

    method WakeOne(w: nat)
      requires Enabled(View(), Step<T, P>.NotifyOne(w))
      modifies this`workers, this`notifies, this`wakeups
      ensures View() == Apply(old(View()), Step<T, P>.NotifyOne(w)) && wakeups == old(wakeups) + 1
    {
      wakeups := wakeups + 1;
      notifies := notifies - 1;
      if workers[w].Asleep? {
        workers := workers[w := Awake];
      }
    }

    method WakeAll()
      requires notifyAll
      modifies this`workers, this`notifyAll
      ensures View() == Apply(old(View()), Step<T, P>.NotifyAll)
    {
      notifyAll := false;
      var w := 0;
      while w < |workers|
        invariant w <= |workers| == old(|workers|)
        invariant forall v | 0 <= v < |workers| ::
          workers[v] == if v < w then Wake(old(workers)[v]) else old(workers)[v]
        invariant View() == old(View()).(notifyAll := false, workers := workers)
      {
        if workers[w].Asleep? {
          workers := workers[w := Awake];
        }
        w := w + 1;
      }
    }

    method WakeSpuriously(w: nat)
      requires Enabled(View(), Step<T, P>.Spurious(w))
      modifies this`workers
      ensures View() == Apply(old(View()), Step<T, P>.Spurious(w))
    {
      workers := workers[w := Awake];
    }

    /** Any step. */
    method Perform(step: Step<T, P>)
      requires Enabled(View(), step)
      modifies this
      ensures View() == Apply(old(View()), step) && wakeups >= old(wakeups)
    {
      match step
      case Submit(task) => Push(task);
      case BeginShutdown => var _ := BeginStop();
      case Lock(w, start) => WaitOrTake(w, start);
      case Advance(w, phase) => MoveOn(w, phase);
      case Finish(w) => Complete(w);
      case NotifyOne(w) => WakeOne(w);
      case NotifyAll => WakeAll();
      case Spurious(w) => WakeSpuriously(w);
    }

    // -------------------------------------------------------------- whole calls

    /** Other threads run for a while: workers, submitters, even one that shuts the pool down.
        They leave this many notifications for the caller to make. */
    method Interfere(mine: nat)
      requires Inv(View()) && notifies >= mine
      modifies this
      ensures Inv(View()) && old(accepted) <= accepted && |workers| == old(|workers|)
      ensures old(stopping) ==> stopping && accepted == old(accepted)
      ensures notifies >= mine && wakeups >= old(wakeups)
    {
      var steps: nat := *;
      while steps > 0
        invariant Inv(View()) && old(accepted) <= accepted && |workers| == old(|workers|)
        invariant old(stopping) ==> stopping && accepted == old(accepted)
        invariant notifies >= mine && wakeups >= old(wakeups)
      {
        var step: Step<T, P> := *;
        if Enabled(View(), step) && !(step.NotifyOne? && notifies == mine) {
          InvStep(View(), step);
          KeepsSize(View(), step);
          Perform(step);
        }
        steps := steps - 1;
      }
    }

    /** A submitted task is accepted next and a worker notified; if the pool is stopping the
        task is dropped. */
    method Submit(task: T)
      requires Inv(View())
      modifies this
      ensures Inv(View())
      ensures old(stopping) ==> View() == old(View())
      ensures !old(stopping) ==> old(accepted) + [task] <= accepted && wakeups > old(wakeups)
    {
      if stopping {
        return;
      }
      InvStep(View(), Step<T, P>.Submit(task));
      Push(task);
      Interfere(1);
      WakeSomeone();
    }

    /** notify_one: some sleeper wakes, if there is one. */
    method WakeSomeone()
      requires Inv(View()) && notifies > 0
      modifies this
      ensures Inv(View()) && accepted == old(accepted) && wakeups == old(wakeups) + 1
    {
      var w := 0;
      while w < |workers| - 1 && !workers[w].Asleep?
        invariant w < |workers| && forall v | 0 <= v < w :: !workers[v].Asleep?
      {
        w := w + 1;
      }
      InvStep(View(), Step<T, P>.NotifyOne(w));
      WakeOne(w);
    }

    /** The first call stops the pool and returns only once every task accepted has run and
        every worker has returned; a later call returns at once. */
    method Shutdown()
      requires Inv(View())
      modifies this
      ensures Inv(View()) && stopping && accepted == old(accepted)
      ensures old(stopping) ==> View() == old(View())
      ensures !old(stopping) ==> AllExited(View()) && tasks == [] && multiset(finished) == multiset(accepted)
      ensures !old(stopping) && |workers| == 1 ==> finished == accepted
    {
      InvStep(View(), Step<T, P>.BeginShutdown);
      var first := BeginStop();
      if first {
        Interfere(0);
        if notifyAll {
          InvStep(View(), Step<T, P>.NotifyAll);
          WakeAll();
        }
        Join();
        AllExitedDrained(View());
      }
    }

    /** Waiting for the workers ends, whatever steps are taken meanwhile. */
    method Join()
      requires Inv(View()) && stopping
      modifies this
      ensures Inv(View()) && stopping && accepted == old(accepted) && AllExited(View())
    {
      var spare: nat := *;
      while !AllExited(View())
        invariant Inv(View()) && stopping && accepted == old(accepted)
        decreases spare, Measure(View())
      {
        if spare > 0 {
          spare := spare - 1;
          Interfere(0);
        } else {
          if Quiescent(View()) {
            QuiescentDrained(View(), start);
          }
          var step: Step<T, P> :| IsWork(step) && Enabled(View(), step);
          InvStep(View(), step);
          WorkDecreases(View(), step);
          Perform(step);
        }
      }
    }
  }
}
