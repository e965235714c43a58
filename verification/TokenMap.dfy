/** The cancellation map holds exactly the tokens of the requests in flight. */
module TokenMap {
  import opened Options
  import opened Protocol
  import opened Dispatch
  import opened Server
  import opened Control
  import opened Cancellation
  import opened Sums
  import P = ThreadPool

  // ---------------------------------------------------------------- requests in flight

  predicate Runs(w: P.Worker<Job, Phase>, job: Job) {
    w.Running? && w.task == job && w.phase != Done
  }

  ghost predicate Live(p: JobPool, job: Job) {
    job in p.tasks || exists w :: 0 <= w < |p.workers| && Runs(p.workers[w], job)
  }

  /** An asynchronous request whose token was stored and not yet erased by its own task. */
  ghost predicate InFlight(s: State, job: Job) {
    job.RequestJob? && (s.pc == Submitting(job) || Live(s.pool, job))
  }

  ghost predicate NoReuse(read: seq<Message>) {
    forall i, j | 0 <= i < j < |read| && read[i].Request? && read[j].Request? :: read[i].id != read[j].id
  }

  ghost predicate HeldBy(s: State, id: RequestId, token: nat) {
    exists job :: InFlight(s, job) && job.id == id && job.token == token
  }

  /** Each entry is the token of a request in flight under that id, even when ids are reused. */
  ghost predicate EntriesHeld(s: State) {
    forall id | id in s.tokens :: HeldBy(s, id, s.tokens[id])
  }

  /** Each request in flight finds its own token under its id. */
  ghost predicate HoldersListed(s: State) {
    forall job | InFlight(s, job) :: job.id in s.tokens && s.tokens[job.id] == job.token
  }

  predicate Carries(job: Job, token: nat, index: nat) {
    job.RequestJob? && job.token == token && job.index == index
  }

  ghost predicate Accepted(jobs: seq<Job>, token: nat, index: nat) {
    exists k :: 0 <= k < |jobs| && Carries(jobs[k], token, index)
  }

  /** The task of each token was submitted, or is about to be. */
  ghost predicate TokensCarried(s: State) {
    forall t | 0 <= t < |s.owners| ::
      (s.pc.Submitting? && Carries(s.pc.job, t, s.owners[t])) || Accepted(s.pool.accepted, t, s.owners[t])
  }

  ghost predicate MapOk(s: State) {
    EntriesHeld(s) && TokensCarried(s) && (NoReuse(s.read) ==> HoldersListed(s))
  }

  lemma InitMapOk(h: Handlers, numWorkers: nat)
    ensures MapOk(Init(h, numWorkers))
  {
  }

  // ---------------------------------------------------------------- pools

  lemma LiveOwnStep(p: JobPool, step: JobStep, job: Job)
    requires OwnStep(p, step)
    ensures Live(P.Apply(p, step), job) <==> Live(p, job)
  {
    var q := P.Apply(p, step);
    if step.Lock? && p.tasks != [] {
      assert p.tasks == [p.tasks[0]] + q.tasks;
      assert Runs(q.workers[step.w], p.tasks[0]);
    }
    if Live(p, job) && job !in p.tasks {
      var w :| 0 <= w < |p.workers| && Runs(p.workers[w], job);
      assert Runs(q.workers[w], job);
    }
    if Live(q, job) && job !in q.tasks {
      var w :| 0 <= w < |q.workers| && Runs(q.workers[w], job);
      assert Runs(p.workers[w], job) || (step.Lock? && w == step.w);
    }
  }

  lemma LiveOnward(p: JobPool, w: nat, phase: Phase, job: Job)
    requires w < |p.workers| && p.workers[w].Running? && p.workers[w].phase != Done && phase != Done
    ensures Live(Advanced(p, w, phase), job) <==> Live(p, job)
  {
    var q := Advanced(p, w, phase);
    if v :| 0 <= v < |p.workers| && Runs(p.workers[v], job) {
      assert Runs(q.workers[v], job);
    }
    if v :| 0 <= v < |q.workers| && Runs(q.workers[v], job) {
      assert Runs(p.workers[v], job);
    }
  }

  /** A task that is done is live no more; the others are as they were. */
  lemma LiveDone(p: JobPool, w: nat, job: Job)
    requires P.Inv(p) && Increasing(p.accepted) && w < |p.workers| && p.workers[w].Running?
    ensures Live(Advanced(p, w, Done), job) <==> Live(p, job) && job != p.workers[w].task
  {
    var q, done := Advanced(p, w, Done), p.workers[w].task;
    if Live(q, done) {
      if k :| 0 <= k < |p.tasks| && p.tasks[k] == done {
        QueuedNotRunning(p, w, k);
      } else {
        var v :| 0 <= v < |q.workers| && Runs(q.workers[v], done);
        RunningDistinct(p, v, w);
      }
    }
    if v :| 0 <= v < |p.workers| && Runs(p.workers[v], job) && job != done {
      assert Runs(q.workers[v], job);
    }
    if v :| 0 <= v < |q.workers| && Runs(q.workers[v], job) {
      assert Runs(p.workers[v], job);
    }
  }

  lemma LiveSubmit(p: JobPool, job: Job, other: Job)
    requires !p.stopping
    ensures Live(P.Apply(p, P.Submit(job)), other) <==> Live(p, other) || other == job
  {
    var q := P.Apply(p, P.Submit(job));
    assert q.workers == p.workers;
    assert job == q.tasks[|p.tasks|];
  }

  lemma LiveAccepted(p: JobPool, job: Job)
    requires P.Inv(p) && Live(p, job)
    ensures job in p.accepted
  {
    if job in p.tasks {
      var k :| 0 <= k < |p.tasks| && p.tasks[k] == job;
      assert p.accepted[|p.started| + k] == job;
    } else {
      var w :| 0 <= w < |p.workers| && Runs(p.workers[w], job);
      RunningStarted(p, w);
    }
  }

  // ---------------------------------------------------------------- steps

  /** What a step must leave alone to leave the map in order. */
  ghost predicate SameInFlight(s: State, t: State) {
    && t.tokens == s.tokens && t.owners == s.owners && s.pool.accepted <= t.pool.accepted
    && (s.pc.Submitting? ==> t.pc == s.pc || s.pc.job in t.pool.accepted)
    && s.read <= t.read
    && forall job :: InFlight(t, job) <==> InFlight(s, job)
  }

  lemma CarriedKept(s: State, t: State)
    requires TokensCarried(s) && SameInFlight(s, t)
    ensures TokensCarried(t)
  {
    forall n | 0 <= n < |t.owners|
      ensures (t.pc.Submitting? && Carries(t.pc.job, n, t.owners[n])) || Accepted(t.pool.accepted, n, t.owners[n])
    {
      if Accepted(s.pool.accepted, n, s.owners[n]) {
        var k :| 0 <= k < |s.pool.accepted| && Carries(s.pool.accepted[k], n, s.owners[n]);
        assert Carries(t.pool.accepted[k], n, t.owners[n]);
      }
    }
  }

  lemma MapKept(s: State, t: State)
    requires MapOk(s) && SameInFlight(s, t)
    ensures MapOk(t)
  {
    CarriedKept(s, t);
    forall id | id in t.tokens ensures HeldBy(t, id, t.tokens[id]) {
      assert HeldBy(s, id, s.tokens[id]);
    }
  }

  /** The read thread puts no request in flight except by storing its token. */
  ghost predicate SameFlight(s: State, t: State) {
    && t.tokens == s.tokens && t.owners == s.owners && t.pool.accepted == s.pool.accepted
    && t.pool.tasks == s.pool.tasks && t.pool.workers == s.pool.workers
    && !s.pc.Submitting? && (t.pc.Submitting? ==> !t.pc.job.RequestJob?)
  }

  lemma FlightReadThread(s: State, l: Label)
    requires Enabled(s, l) && IsReadThread(l) && !l.Read? && !l.StoreToken? && !l.SubmitJob?
    ensures SameFlight(s, Apply(s, l)) && Apply(s, l).read == s.read
  {
    match l
    case StopReading =>
    case SendAnswer =>
    case EndInline(_, _) =>
    case CancelToken =>
    case LookUpCall =>
    case StopSync =>
    case JoinSync =>
    case StopPool =>
    case JoinPool =>
  }

  lemma FlightRead(s: State, m: Message)
    requires Enabled(s, Read(m))
    ensures SameFlight(s, ReadStep(s, m)) && s.read <= ReadStep(s, m).read
  {
  }

  lemma MapReadThread(s: State, l: Label)
    requires MapOk(s) && Enabled(s, l) && IsReadThread(l) && !l.StoreToken? && !l.SubmitJob?
    ensures MapOk(Apply(s, l))
  {
    var t := Apply(s, l);
    if l.Read? {
      FlightRead(s, l.message);
    } else {
      FlightReadThread(s, l);
    }
    forall job ensures InFlight(t, job) <==> InFlight(s, job) {
      assert Live(t.pool, job) <==> Live(s.pool, job);
    }
    MapKept(s, t);
  }

  lemma SubmitFlight(s: State, job: Job)
    requires Enabled(s, SubmitJob) && (s.pc.Submitting? ==> !s.pool.stopping)
    requires s.pc.SubmittingSync? ==> !s.pc.job.RequestJob?
    ensures InFlight(SubmitStep(s), job) <==> InFlight(s, job)
  {
    if s.pc.Submitting? {
      LiveSubmit(s.pool, s.pc.job, job);
    }
  }

  lemma SubmitAccepted(s: State)
    requires s.pc.Submitting? && !s.pool.stopping
    ensures s.pool.accepted <= SubmitStep(s).pool.accepted && s.pc.job in SubmitStep(s).pool.accepted
  {
    assert s.pc.job == SubmitStep(s).pool.accepted[|s.pool.accepted|];
  }

  lemma SubmitSame(s: State)
    requires Orderly(s) && Enabled(s, SubmitJob)
    ensures SameInFlight(s, SubmitStep(s))
  {
    forall job ensures InFlight(SubmitStep(s), job) <==> InFlight(s, job) {
      SubmitFlight(s, job);
    }
    if s.pc.Submitting? {
      SubmitAccepted(s);
    }
  }

  lemma MapSubmit(s: State)
    requires Orderly(s) && MapOk(s) && Enabled(s, SubmitJob)
    ensures MapOk(Apply(s, SubmitJob))
  {
    SubmitSame(s);
    MapKept(s, SubmitStep(s));
  }

  /** A live job's message is an earlier request than the one being accepted. */
  lemma FlightIndex(s: State, job: Job)
    requires Orderly(s) && InFlight(s, job)
    ensures job.index < |s.read| && s.read[job.index] == Request(job.id, job.name, job.params)
    ensures s.pc.Storing? ==> job.index < |s.read| - 1
  {
    if s.pc != Submitting(job) {
      LiveAccepted(s.pool, job);
    }
  }

  lemma FlightStore(s: State, job: Job)
    requires s.pc.Storing?
    ensures InFlight(StoreTokenStep(s), job) <==> InFlight(s, job) || job == StoreTokenStep(s).pc.job
  {
  }

  lemma EntriesStore(s: State)
    requires EntriesHeld(s) && s.pc.Storing?
    ensures EntriesHeld(StoreTokenStep(s))
  {
    var t := StoreTokenStep(s);
    forall id | id in t.tokens ensures HeldBy(t, id, t.tokens[id]) {
      FlightStore(s, t.pc.job);
      if id != s.pc.id {
        assert HeldBy(s, id, s.tokens[id]);
        var job :| InFlight(s, job) && job.id == id && job.token == s.tokens[id];
        FlightStore(s, job);
      }
    }
  }

  lemma HoldersStore(s: State)
    requires Orderly(s) && HoldersListed(s) && s.pc.Storing? && NoReuse(s.read)
    ensures HoldersListed(StoreTokenStep(s))
  {
    var t := StoreTokenStep(s);
    forall job | InFlight(t, job) ensures job.id in t.tokens && t.tokens[job.id] == job.token {
      FlightStore(s, job);
      if job != t.pc.job {
        FlightIndex(s, job);
      }
    }
  }

  lemma CarriedStore(s: State)
    requires TokensOwned(s) && TokensCarried(s) && s.pc.Storing?
    ensures TokensCarried(StoreTokenStep(s))
  {
    var t := StoreTokenStep(s);
    assert Carries(t.pc.job, |s.owners|, s.pc.index);
  }

  lemma MapStore(s: State)
    requires Orderly(s) && TokensOwned(s) && MapOk(s) && s.pc.Storing?
    ensures MapOk(Apply(s, StoreToken))
  {
    EntriesStore(s);
    CarriedStore(s);
    if NoReuse(s.read) {
      HoldersStore(s);
    }
  }

  lemma FlightErase(s: State, w: nat, job: Job)
    requires Orderly(s) && Enabled(s, EraseToken(w))
    ensures InFlight(EraseTokenStep(s, w), job) <==> InFlight(s, job) && job != s.pool.workers[w].task
  {
    LiveDone(s.pool, w, job);
    if s.pc == Submitting(job) {
      RunningStarted(s.pool, w);
      assert s.pool.workers[w].task.index < Limit(s);
    }
  }

  lemma EntriesErase(s: State, w: nat)
    requires Orderly(s) && EntriesHeld(s) && Enabled(s, EraseToken(w))
    ensures EntriesHeld(EraseTokenStep(s, w))
  {
    var t := EraseTokenStep(s, w);
    forall id | id in t.tokens ensures HeldBy(t, id, t.tokens[id]) {
      assert HeldBy(s, id, s.tokens[id]);
      var job :| InFlight(s, job) && job.id == id && job.token == s.tokens[id];
      FlightErase(s, w, job);
    }
  }

  /** Two requests in flight have different messages, so without reuse different ids. */
  lemma FlightDistinct(s: State, a: Job, b: Job)
    requires Orderly(s) && InFlight(s, a) && InFlight(s, b) && a.index == b.index
    ensures a == b
  {
    if s.pc != Submitting(a) {
      LiveAccepted(s.pool, a);
    }
    if s.pc != Submitting(b) {
      LiveAccepted(s.pool, b);
    }
    if s.pc != Submitting(a) && s.pc != Submitting(b) {
      SameIndexSameJob(s.pool.accepted, a, b);
    }
  }

  lemma HoldersErase(s: State, w: nat)
    requires Orderly(s) && HoldersListed(s) && Enabled(s, EraseToken(w)) && NoReuse(s.read)
    ensures HoldersListed(EraseTokenStep(s, w))
  {
    var t, gone := EraseTokenStep(s, w), s.pool.workers[w].task;
    assert Runs(s.pool.workers[w], gone);
    FlightIndex(s, gone);
    forall job | InFlight(t, job) ensures job.id in t.tokens && t.tokens[job.id] == job.token {
      FlightErase(s, w, job);
      FlightIndex(s, job);
      if job.index == gone.index {
        FlightDistinct(s, job, gone);
      }
    }
  }

  lemma MapErase(s: State, w: nat)
    requires Orderly(s) && MapOk(s) && Enabled(s, EraseToken(w))
    ensures MapOk(Apply(s, EraseToken(w)))
  {
    EntriesErase(s, w);
    assert TokensCarried(EraseTokenStep(s, w));
    if NoReuse(s.read) {
      HoldersErase(s, w);
    }
  }

  lemma MapPool(s: State, t: State)
    requires MapOk(s) && t.tokens == s.tokens && t.owners == s.owners && t.pc == s.pc && t.read == s.read
    requires t.pool.accepted == s.pool.accepted
    requires forall job: Job | job.RequestJob? :: Live(t.pool, job) <==> Live(s.pool, job)
    ensures MapOk(t)
  {
    MapKept(s, t);
  }

  lemma MapPoolStep(s: State, step: JobStep)
    requires MapOk(s) && OwnStep(s.pool, step)
    ensures MapOk(Apply(s, PoolStep(step)))
  {
    forall job: Job ensures Live(P.Apply(s.pool, step), job) <==> Live(s.pool, job) {
      LiveOwnStep(s.pool, step, job);
    }
    MapPool(s, s.(pool := P.Apply(s.pool, step)));
  }

  /** A worker goes on inside its request. */
  lemma MapOnward(s: State, l: Label)
    requires MapOk(s) && Enabled(s, l) && (l.CheckToken? || l.EndHandler? || l.SendReply?)
    ensures MapOk(Apply(s, l))
  {
    var phase := PoolStepOf(s, l).value.phase;
    forall job: Job ensures Live(Advanced(s.pool, l.w, phase), job) <==> Live(s.pool, job) {
      LiveOnward(s.pool, l.w, phase, job);
    }
    MapPool(s, Apply(s, l));
  }

  lemma MapRunTask(s: State, w: nat)
    requires Orderly(s) && MapOk(s) && Enabled(s, RunTask(w))
    ensures MapOk(Apply(s, RunTask(w)))
  {
    forall job: Job | job.RequestJob? ensures Live(Advanced(s.pool, w, Done), job) <==> Live(s.pool, job) {
      LiveDone(s.pool, w, job);
    }
    MapPool(s, RunTaskStep(s, w));
  }

  /** Steps of the serial executor and of calling threads. */
  lemma MapOthers(s: State, l: Label)
    requires MapOk(s) && Enabled(s, l) && !IsReadThread(l) && PoolStepOf(s, l).None?
    ensures MapOk(Apply(s, l))
  {
    KeepsReadThread(s, l);
    LabelMoves(s, l);
    MapPool(s, Apply(s, l));
  }

  lemma MapInTask(s: State, l: Label)
    requires Orderly(s) && MapOk(s) && Enabled(s, l)
    requires l.CheckToken? || l.SendReply? || l.EndHandler? || l.EraseToken? || l.RunTask?
    ensures MapOk(Apply(s, l))
  {
    if l.EraseToken? {
      MapErase(s, l.w);
    } else if l.RunTask? {
      MapRunTask(s, l.w);
    } else {
      MapOnward(s, l);
    }
  }

  lemma MapWorkers(s: State, l: Label)
    requires Orderly(s) && MapOk(s) && Enabled(s, l) && !IsReadThread(l)
    ensures MapOk(Apply(s, l))
  {
    if l.PoolStep? {
      MapPoolStep(s, l.step);
    } else if PoolStepOf(s, l).None? {
      MapOthers(s, l);
    } else {
      MapInTask(s, l);
    }
  }

  lemma MapOkStep(s: State, l: Label)
    requires Orderly(s) && TokensOwned(s) && MapOk(s) && Enabled(s, l)
    ensures MapOk(Apply(s, l))
  {
    if !IsReadThread(l) {
      MapWorkers(s, l);
    } else if l.StoreToken? {
      MapStore(s);
    } else if l.SubmitJob? {
      MapSubmit(s);
    } else {
      MapReadThread(s, l);
    }
  }

  // ---------------------------------------------------------------- what it means

  /** Without reuse, the map is exactly the tokens of the requests in flight, none shared. */
  lemma MapExact(s: State)
    requires Orderly(s) && TokensOwned(s) && MapOk(s) && NoReuse(s.read)
    ensures forall id :: id in s.tokens <==> exists job :: InFlight(s, job) && job.id == id
    ensures forall job | InFlight(s, job) :: job.id in s.tokens && s.tokens[job.id] == job.token
    ensures forall a, b | a in s.tokens && b in s.tokens && s.tokens[a] == s.tokens[b] :: a == b
  {
    forall id | id in s.tokens ensures exists job :: InFlight(s, job) && job.id == id {
      assert HeldBy(s, id, s.tokens[id]);
    }
    forall a, b | a in s.tokens && b in s.tokens && s.tokens[a] == s.tokens[b] ensures a == b {
      assert HeldBy(s, a, s.tokens[a]) && HeldBy(s, b, s.tokens[b]);
      var x :| InFlight(s, x) && x.id == a && x.token == s.tokens[a];
      var y :| InFlight(s, y) && y.id == b && y.token == s.tokens[b];
      FlightOwns(s, x);
      FlightOwns(s, y);
      FlightDistinct(s, x, y);
    }
  }

  /** A request in flight holds the token that was made for it. */
  lemma FlightOwns(s: State, job: Job)
    requires Orderly(s) && TokensOwned(s) && InFlight(s, job)
    ensures job.token < |s.owners| && s.owners[job.token] == job.index
  {
    if s.pc != Submitting(job) {
      LiveAccepted(s.pool, job);
      assert TokenOk(s.owners, job);
    }
  }

  /** Once `run` returns nothing is left in the map, ids reused or not. */
  lemma MapEmpty(s: State)
    requires Orderly(s) && MapOk(s) && s.pc.Returned?
    ensures s.tokens == map[]
  {
    P.AllExitedDrained(s.pool);
    forall job ensures !InFlight(s, job) {
    }
    assert forall id | id in s.tokens :: HeldBy(s, id, s.tokens[id]);
  }

  /** An accepted request that no worker has judged is in flight. */
  lemma UnjudgedInFlight(s: State, token: nat)
    requires Orderly(s) && TokensOwned(s) && Judged(s) && MapOk(s)
    requires token < |s.owners| && s.owners[token] !in s.verdicts
    ensures exists job :: InFlight(s, job) && Carries(job, token, s.owners[token])
  {
    if !(s.pc.Submitting? && Carries(s.pc.job, token, s.owners[token])) {
      var p := s.pool;
      var k :| 0 <= k < |p.accepted| && Carries(p.accepted[k], token, s.owners[token]);
      var job := p.accepted[k];
      if job in p.started {
        assert job in multiset(p.started);
        assert job !in p.finished;
        assert job in P.RunningTasks(p);
        var w := RunningWorker(p.workers, job);
        assert Runs(p.workers[w], job);
      } else {
        assert job in p.tasks;
      }
      assert InFlight(s, job);
    } else {
      assert InFlight(s, s.pc.job);
    }
  }

  lemma {:induction false} RunningWorker(ws: seq<P.Worker<Job, Phase>>, job: Job) returns (w: nat)
    requires job in Gather<P.Worker<Job, Phase>, Job>(ws, P.TaskOf)
    ensures w < |ws| && ws[w].Running? && ws[w].task == job
  {
    if job in P.TaskOf(ws[0]) {
      w := 0;
    } else {
      w := RunningWorker(ws[1..], job);
      w := w + 1;
    }
  }

  /** A cancellation read after the request was accepted, and before its worker looked, reaches
      it: ids that are not reused lead to the right token. */
  lemma CancelReaches(s: State, token: nat)
    requires Orderly(s) && TokensOwned(s) && Judged(s) && MapOk(s) && NoReuse(s.read) && s.pc.Cancelling?
    requires token < |s.owners| && s.owners[token] !in s.verdicts
    requires s.owners[token] < |s.read| && IdOf(s.read[s.owners[token]]) == Some(s.pc.target)
    ensures Doomed(CancelStep(s), s.owners[token], token)
  {
    UnjudgedInFlight(s, token);
    var job :| InFlight(s, job) && Carries(job, token, s.owners[token]);
    FlightIndex(s, job);
    assert s.tokens[s.pc.target] == token;
  }

  function IdOf(m: Message): Option<RequestId> {
    if m.Request? then Some(m.id) else None
  }

  /** A flag goes up only through a cancellation for the id of its own request, or by that
      request's own worker. */
  lemma RaisedByOwnId(s: State, l: Label, token: nat)
    requires Orderly(s) && TokensOwned(s) && MapOk(s) && Enabled(s, l)
    requires token < |s.flags| && !s.flags[token] && token < |Apply(s, l).flags| && Apply(s, l).flags[token]
    ensures s.owners[token] < |s.read| && s.read[s.owners[token]].Request?
    ensures (l.CancelToken? && s.pc.target == s.read[s.owners[token]].id)
         || (l.CancelOwn? && s.pool.workers[l.w].task.index == s.owners[token])
  {
    RaisedBy(s, l, token);
    if l.CancelToken? && s.pc.target in s.tokens && s.tokens[s.pc.target] == token {
      assert HeldBy(s, s.pc.target, token);
      var job :| InFlight(s, job) && job.id == s.pc.target && job.token == token;
      FlightOwns(s, job);
      FlightIndex(s, job);
    } else {
      var job := s.pool.workers[l.w].task;
      RunningStarted(s.pool, l.w);
      assert TokenOk(s.owners, job);
      assert JobOk(s.handlers, s.read, job);
    }
  }
}
