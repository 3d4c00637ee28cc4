/**
  The in-process job queue (queue/queue.go) as a state machine: any number of
  submitters, Start callers, Stop callers and workers, one atomic step at a time.
  Handlers are arbitrary: each attempt succeeds or fails, and a panic is a failure.
  */
module JobQueue {
  type Name = string
  type Thread = nat

  /** `id` tells submissions apart; the payload plays no part. */
  datatype Job = Job(name: Name, id: nat)

  datatype Settings = Settings(workers: nat, buffer: nat, maxAttempts: nat, handlers: set<Name>)

  datatype Reply = Accepted | ContextDone | NoHandler | Closed | Full

  /** A call of Enqueue: Checking and Sending hold the read lock. */
  datatype Submission = Arrived(job: Job) | Checking(job: Job) | Sending(job: Job) | Answered(reply: Reply)

  /** A call of Start: Entered and Launching hold the read lock. */
  datatype Starter = Starting | Entered | Launching(launched: nat) | Started

  /** How far the first caller of Stop has come in the body of its once. */
  datatype Once = Fresh | Signalled | Locked | Marked | JobsClosed | Unlocked | Finished

  datatype Outcome = Clean | Dropped(count: nat) | TimedOut

  datatype Stopper = Leading | Blocked | Draining | Observed | Returned(outcome: Outcome)

  datatype Phase =
    | Idle
    | Receiving
    | Running(job: Job, attempt: nat)
    | Backoff(job: Job, attempt: nat)
    | Exited

  /** `late` counts the jobs received after the job context was cancelled. */
  datatype Worker = Worker(phase: Phase, late: nat)

  /** The one-way switches; `locked` is the write side of the lock. */
  datatype Gate = Gate(
    once: Once, shutdown: bool, locked: bool, closed: bool, jobsClosed: bool, spawned: bool,
    started: bool, cancelled: bool, finished: bool)

  /** The channel's buffer, the workers, and the count the drain waits on. */
  datatype Pool = Pool(jobs: seq<Job>, workers: seq<Worker>, running: int)

  /** Every job that was accepted, and the ones that have had an outcome. */
  datatype Ledger = Ledger(
    accepted: multiset<Job>, processed: multiset<Job>, failed: multiset<Job>, abandoned: multiset<Job>, refused: nat)

  datatype State = State(
    gate: Gate, pool: Pool, ledger: Ledger,
    submissions: map<Thread, Submission>, starters: map<Thread, Starter>, stoppers: map<Thread, Stopper>)

  const INITIAL := State(
    Gate(Fresh, false, false, false, false, false, false, false, false), Pool([], [], 0),
    Ledger(multiset{}, multiset{}, multiset{}, multiset{}, 0), map[], map[], map[])

  datatype Step =
    | Submit(t: Thread, job: Job, contextDone: bool) | Enter(t: Thread) | Check(t: Thread) | Send(t: Thread)
    | Start(t: Thread) | EnterStart(t: Thread) | CheckStart(t: Thread) | Launch(t: Thread)
    | Stop(t: Thread) | Lead(t: Thread) | Join(t: Thread) | Observe(t: Thread) | Return(t: Thread) | TimeOut(t: Thread)
    | Drain
    | Look(w: nat) | Receive(w: nat) | Succeed(w: nat) | Fail(w: nat) | Retry(w: nat) | Abandon(w: nat)

  // ----- Enqueue

  predicate SubmissionEnabled(s: State, step: Step) {
    match step
    case Submit(t, _, _) => t !in s.submissions
    case Enter(t) => t in s.submissions && s.submissions[t].Arrived? && !s.gate.locked
    case Check(t) => t in s.submissions && s.submissions[t].Checking?
    case Send(t) => t in s.submissions && s.submissions[t].Sending?
    case _ => false
  }

  function Admitted(cfg: Settings, job: Job, contextDone: bool): Submission {
    if contextDone then Answered(ContextDone)
    else if job.name == "" || job.name !in cfg.handlers then Answered(NoHandler)
    else Arrived(job)
  }

  function SubmissionNext(s: State, cfg: Settings, step: Step): Submission
    requires SubmissionEnabled(s, step)
  {
    match step
    case Submit(_, job, contextDone) => Admitted(cfg, job, contextDone)
    case Enter(t) => Checking(s.submissions[t].job)
    case Check(t) => if s.gate.closed then Answered(Closed) else Sending(s.submissions[t].job)
    case Send(t) => Answered(if |s.pool.jobs| < cfg.buffer then Accepted else Full)
  }

  /** The send never blocks: without room in the buffer the job is refused. */
  function SentPool(p: Pool, cfg: Settings, job: Job): Pool {
    if |p.jobs| < cfg.buffer then p.(jobs := p.jobs + [job]) else p
  }

  function SentLedger(l: Ledger, p: Pool, cfg: Settings, job: Job): Ledger {
    if |p.jobs| < cfg.buffer then l.(accepted := l.accepted + multiset{job}) else l.(refused := l.refused + 1)
  }

  function Submitted(s: State, cfg: Settings, step: Step): State
    requires SubmissionEnabled(s, step)
  {
    var s' := s.(submissions := s.submissions[step.t := SubmissionNext(s, cfg, step)]);
    if step.Send? then
      var job := s.submissions[step.t].job;
      s'.(pool := SentPool(s.pool, cfg, job), ledger := SentLedger(s.ledger, s.pool, cfg, job))
    else s'
  }

  // ----- Start

  predicate StartEnabled(s: State, step: Step) {
    match step
    case Start(t) => t !in s.starters
    case EnterStart(t) => t in s.starters && s.starters[t].Starting? && !s.gate.locked
    case CheckStart(t) => t in s.starters && s.starters[t].Entered?
    case Launch(t) => t in s.starters && s.starters[t].Launching?
    case _ => false
  }

  function StarterNext(s: State, cfg: Settings, step: Step): Starter
    requires StartEnabled(s, step)
  {
    match step
    case Start(_) => Starting
    case EnterStart(_) => Entered
    case CheckStart(_) => if s.gate.closed || s.gate.started then Started else Launching(0)
    case Launch(t) => if s.starters[t].launched < cfg.workers then Launching(s.starters[t].launched + 1) else Started
  }

  /** One turn of the loop: workers.Add, then the worker. */
  function LaunchedPool(p: Pool): Pool {
    p.(workers := p.workers + [Worker(Idle, 0)], running := p.running + 1)
  }

  function Launched(s: State, cfg: Settings, step: Step): State
    requires StartEnabled(s, step)
  {
    var starter := StarterNext(s, cfg, step);
    var s' := s.(starters := s.starters[step.t := starter]);
    if step.CheckStart? && starter.Launching? then s'.(gate := s.gate.(started := true))
    else if step.Launch? && starter.Launching? then s'.(pool := LaunchedPool(s.pool))
    else s'
  }

  // ----- Stop

  /** No thread holds the read lock. */
  ghost predicate NoReaders(s: State) {
    && (forall t :: t in s.submissions ==> !s.submissions[t].Checking? && !s.submissions[t].Sending?)
    && (forall t :: t in s.starters ==> !s.starters[t].Entered? && !s.starters[t].Launching?)
  }

  ghost predicate StopEnabled(s: State, step: Step) {
    match step
    case Stop(t) => t !in s.stoppers
    case Lead(t) => t in s.stoppers && s.stoppers[t].Leading? && (s.gate.once == Signalled ==> NoReaders(s))
    case Join(t) => t in s.stoppers && s.stoppers[t].Blocked? && s.gate.once == Finished
    case Observe(t) => t in s.stoppers && s.stoppers[t].Draining? && s.gate.finished
    case Return(t) => t in s.stoppers && s.stoppers[t].Observed?
    case TimeOut(t) => t in s.stoppers && s.stoppers[t].Draining?
    case _ => false
  }

  /** The closing sequence: signal, lock, mark closed, close the channel, unlock,
      start the drain. */
  function Advanced(g: Gate): (g': Gate)
    ensures g'.started == g.started && g'.cancelled == g.cancelled && !g'.once.Fresh?
    ensures (g'.once.Finished? <==> g.once.Unlocked? || g.once.Finished?) && (g.shutdown ==> g'.shutdown)
  {
    match g.once
    case Fresh => g.(once := Signalled, shutdown := true)
    case Signalled => g.(once := Locked, locked := true)
    case Locked => g.(once := Marked, closed := true)
    case Marked => g.(once := JobsClosed, jobsClosed := true)
    case JobsClosed => g.(once := Unlocked, locked := false)
    case Unlocked => g.(once := Finished, spawned := true)
    case Finished => g
  }

  function GateNext(g: Gate, step: Step): Gate {
    if (step.Stop? && g.once == Fresh) || step.Lead? then Advanced(g)
    else if step.TimeOut? then g.(cancelled := true)
    else g
  }

  ghost function StopperNext(s: State, step: Step): Stopper
    requires StopEnabled(s, step)
  {
    match step
    case Stop(_) => if s.gate.once == Fresh then Leading else Blocked
    case Lead(_) => if s.gate.once == Unlocked then Draining else Leading
    case Join(_) => Draining
    case Observe(_) => Observed
    case Return(_) => Returned(if s.pool.jobs == [] then Clean else Dropped(|s.pool.jobs|))
    case TimeOut(_) => Returned(TimedOut)
  }

  ghost function Stopped(s: State, step: Step): State
    requires StopEnabled(s, step)
  {
    s.(gate := GateNext(s.gate, step), stoppers := s.stoppers[step.t := StopperNext(s, step)])
  }

  // ----- the workers

  predicate WorkerEnabled(p: Pool, g: Gate, step: Step) {
    match step
    case Look(w) => w < |p.workers| && p.workers[w].phase.Idle?
    case Receive(w) => w < |p.workers| && p.workers[w].phase.Receiving? && (p.jobs != [] || g.jobsClosed)
    case Succeed(w) => w < |p.workers| && p.workers[w].phase.Running?
    case Fail(w) => w < |p.workers| && p.workers[w].phase.Running?
    case Retry(w) => w < |p.workers| && p.workers[w].phase.Backoff?
    case Abandon(w) => w < |p.workers| && p.workers[w].phase.Backoff? && g.shutdown
    case _ => false
  }

  /** run, process and wait: the worker after its step. */
  function WorkerNext(p: Pool, g: Gate, cfg: Settings, step: Step): Worker
    requires WorkerEnabled(p, g, step)
  {
    var worker := p.workers[step.w];
    var phase := worker.phase;
    match step
    case Look(_) => worker.(phase := if g.cancelled then Exited else Receiving)
    case Receive(_) =>
      if p.jobs == [] then worker.(phase := Exited)
      else Worker(Running(p.jobs[0], 1), worker.late + if g.cancelled then 1 else 0)
    case Succeed(_) => worker.(phase := Idle)
    case Fail(_) => worker.(phase := if phase.attempt < cfg.maxAttempts then Backoff(phase.job, phase.attempt) else Idle)
    case Retry(_) => worker.(phase := Running(phase.job, phase.attempt + 1))
    case Abandon(_) => worker.(phase := Idle)
  }

  function WorkedPool(p: Pool, g: Gate, cfg: Settings, step: Step): Pool
    requires WorkerEnabled(p, g, step)
  {
    var worker := WorkerNext(p, g, cfg, step);
    Pool(if step.Receive? && p.jobs != [] then p.jobs[1..] else p.jobs,
         p.workers[step.w := worker],
         if worker.phase.Exited? then p.running - 1 else p.running)
  }

  function WorkedLedger(l: Ledger, p: Pool, g: Gate, cfg: Settings, step: Step): Ledger
    requires WorkerEnabled(p, g, step)
  {
    var phase := p.workers[step.w].phase;
    if step.Succeed? then l.(processed := l.processed + multiset{phase.job})
    else if step.Fail? && phase.attempt >= cfg.maxAttempts then l.(failed := l.failed + multiset{phase.job})
    else if step.Abandon? then l.(abandoned := l.abandoned + multiset{phase.job})
    else l
  }

  // ----- the machine

  ghost predicate Enabled(s: State, step: Step) {
    || SubmissionEnabled(s, step) || StartEnabled(s, step) || StopEnabled(s, step)
    || WorkerEnabled(s.pool, s.gate, step)
    || (step.Drain? && s.gate.spawned && s.pool.running == 0)
  }

  ghost function Next(s: State, cfg: Settings, step: Step): State
    requires Enabled(s, step)
  {
    if SubmissionEnabled(s, step) then Submitted(s, cfg, step)
    else if StartEnabled(s, step) then Launched(s, cfg, step)
    else if StopEnabled(s, step) then Stopped(s, step)
    else if WorkerEnabled(s.pool, s.gate, step) then
      s.(pool := WorkedPool(s.pool, s.gate, cfg, step), ledger := WorkedLedger(s.ledger, s.pool, s.gate, cfg, step))
    else s.(gate := s.gate.(finished := true))
  }

  // ----- invariants

  function Holding(w: Worker, job: Job): nat {
    if (w.phase.Running? || w.phase.Backoff?) && w.phase.job == job then 1 else 0
  }

  function InFlight(workers: seq<Worker>, job: Job): nat {
    if workers == [] then 0
    else InFlight(workers[..|workers| - 1], job) + Holding(workers[|workers| - 1], job)
  }

  function CountLive(workers: seq<Worker>): nat {
    if workers == [] then 0
    else CountLive(workers[..|workers| - 1]) + if workers[|workers| - 1].phase.Exited? then 0 else 1
  }

  /** Every accepted job is queued, in flight, or has exactly one outcome. */
  ghost predicate Conserved(p: Pool, l: Ledger) {
    forall job: Job :: l.accepted[job] == Outstanding(p, job) + Outcomes(l, job)
  }

  function Outstanding(p: Pool, job: Job): nat {
    multiset(p.jobs)[job] + InFlight(p.workers, job)
  }

  function Outcomes(l: Ledger, job: Job): nat {
    l.processed[job] + l.failed[job] + l.abandoned[job]
  }

  /** The flags are exactly what the closing sequence has done so far; the drain is
      over only after it, and cancellation comes only after it. */
  predicate FlagsMatch(g: Gate) {
    && g.shutdown == !g.once.Fresh?
    && g.locked == (g.once.Locked? || g.once.Marked? || g.once.JobsClosed?)
    && g.closed == (g.once.Marked? || g.once.JobsClosed? || g.once.Unlocked? || g.once.Finished?)
    && g.jobsClosed == (g.once.JobsClosed? || g.once.Unlocked? || g.once.Finished?)
    && g.spawned == g.once.Finished?
    && (g.cancelled ==> g.spawned) && (g.finished ==> g.spawned)
  }

  /** A writer excludes readers, and a reader past its check keeps the queue open:
      no send on a closed channel, no worker added after closing. */
  ghost predicate LockHolds(s: State) {
    && (s.gate.locked ==> NoReaders(s))
    && (forall t :: t in s.submissions && s.submissions[t].Sending? ==> !s.gate.closed)
    && (forall t :: t in s.starters && s.starters[t].Launching? ==> !s.gate.closed)
  }

  /** After cancellation a worker that passed its check earlier may receive one
      more job; it then finds the cancellation. */
  predicate WorkerFits(w: Worker, cancelled: bool, maxAttempts: nat) {
    && w.late <= 1 && (w.late == 1 ==> cancelled) && (w.phase.Receiving? ==> w.late == 0)
    && (w.phase.Running? ==> 1 <= w.phase.attempt <= maxAttempts)
    && (w.phase.Backoff? ==> 1 <= w.phase.attempt < maxAttempts)
  }

  ghost predicate PoolFits(p: Pool, g: Gate, cfg: Settings) {
    && p.running == CountLive(p.workers) && |p.jobs| <= cfg.buffer && (g.finished ==> p.running == 0)
    && (forall i :: 0 <= i < |p.workers| ==> WorkerFits(p.workers[i], g.cancelled, cfg.maxAttempts))
  }

  /** One caller runs the closing sequence. */
  ghost predicate LeadersFit(g: Gate, stoppers: map<Thread, Stopper>) {
    && (forall t, u :: t in stoppers && stoppers[t].Leading? && u in stoppers && stoppers[u].Leading? ==> t == u)
    && (forall t :: t in stoppers && stoppers[t].Leading? ==> !g.once.Fresh? && !g.once.Finished?)
  }

  /** A call that waits waits for a drain that was started; one that returned nil
      saw it end with nothing queued. */
  ghost predicate DrainsFit(g: Gate, p: Pool, stoppers: map<Thread, Stopper>) {
    && (forall t :: t in stoppers && stoppers[t].Draining? ==> g.once.Finished?)
    && (forall t :: t in stoppers && stoppers[t].Observed? ==> g.finished)
    && (forall t :: t in stoppers && stoppers[t] == Returned(Clean) ==> g.finished && p.jobs == [])
  }

  ghost predicate StopsFit(g: Gate, p: Pool, stoppers: map<Thread, Stopper>) {
    LeadersFit(g, stoppers) && DrainsFit(g, p, stoppers)
  }

  ghost predicate Inv(s: State, cfg: Settings) {
    && Conserved(s.pool, s.ledger) && FlagsMatch(s.gate) && LockHolds(s)
    && PoolFits(s.pool, s.gate, cfg) && StopsFit(s.gate, s.pool, s.stoppers)
  }

  // ----- counting over the workers

  lemma {:induction false} InFlightUpdate(workers: seq<Worker>, i: nat, w: Worker, job: Job)
    requires i < |workers|
    ensures InFlight(workers[i := w], job) + Holding(workers[i], job) == InFlight(workers, job) + Holding(w, job)
  {
    hide Holding;
    var n := |workers| - 1;
    if i < n {
      assert workers[i := w][..n] == workers[..n][i := w];
      InFlightUpdate(workers[..n], i, w, job);
    } else {
      assert workers[i := w][..n] == workers[..n];
    }
  }

  lemma {:induction false} CountLiveUpdate(workers: seq<Worker>, i: nat, w: Worker)
    requires i < |workers|
    ensures CountLive(workers[i := w]) ==
            CountLive(workers) - (if workers[i].phase.Exited? then 0 else 1) + if w.phase.Exited? then 0 else 1
    ensures !workers[i].phase.Exited? ==> CountLive(workers) > 0
  {
    var n := |workers| - 1;
    if i < n {
      assert workers[i := w][..n] == workers[..n][i := w];
      CountLiveUpdate(workers[..n], i, w);
    } else {
      assert workers[i := w][..n] == workers[..n];
    }
  }

  lemma LaunchedCounts(workers: seq<Worker>, job: Job)
    ensures InFlight(workers + [Worker(Idle, 0)], job) == InFlight(workers, job)
    ensures CountLive(workers + [Worker(Idle, 0)]) == CountLive(workers) + 1
  {
    assert (workers + [Worker(Idle, 0)])[..|workers|] == workers;
  }

  // ----- each part of the invariant is kept

  lemma SendConserves(p: Pool, l: Ledger, cfg: Settings, job: Job)
    requires Conserved(p, l)
    ensures Conserved(SentPool(p, cfg, job), SentLedger(l, p, cfg, job))
  {
    hide InFlight;
    assert multiset(p.jobs + [job]) == multiset(p.jobs) + multiset{job};
  }

  lemma WorkerConserves(p: Pool, l: Ledger, g: Gate, cfg: Settings, step: Step, job: Job)
    requires WorkerEnabled(p, g, step)
    ensures var p', l' := WorkedPool(p, g, cfg, step), WorkedLedger(l, p, g, cfg, step);
            && l'.accepted == l.accepted
            && Outstanding(p', job) + Outcomes(l', job) == Outstanding(p, job) + Outcomes(l, job)
  {
    hide InFlight;
    InFlightUpdate(p.workers, step.w, WorkerNext(p, g, cfg, step), job);
    if step.Receive? && p.jobs != [] {
      assert p.jobs == [p.jobs[0]] + p.jobs[1..];
    }
  }

  lemma WorkersConserve(p: Pool, l: Ledger, g: Gate, cfg: Settings, step: Step)
    requires Conserved(p, l) && WorkerEnabled(p, g, step)
    ensures Conserved(WorkedPool(p, g, cfg, step), WorkedLedger(l, p, g, cfg, step))
  {
    hide WorkedPool, WorkedLedger, Outstanding, Outcomes;
    forall job ensures var p', l' := WorkedPool(p, g, cfg, step), WorkedLedger(l, p, g, cfg, step);
                       l'.accepted[job] == Outstanding(p', job) + Outcomes(l', job)
    {
      WorkerConserves(p, l, g, cfg, step, job);
    }
  }

  lemma WorkerStepFits(p: Pool, g: Gate, cfg: Settings, step: Step)
    requires PoolFits(p, g, cfg) && WorkerEnabled(p, g, step) && cfg.maxAttempts > 0
    ensures PoolFits(WorkedPool(p, g, cfg, step), g, cfg)
  {
    hide CountLive;
    CountLiveUpdate(p.workers, step.w, WorkerNext(p, g, cfg, step));
  }

  lemma NextConserves(s: State, cfg: Settings, step: Step)
    requires Conserved(s.pool, s.ledger) && Enabled(s, step)
    ensures Conserved(Next(s, cfg, step).pool, Next(s, cfg, step).ledger)
  {
    hide WorkedPool, WorkedLedger, SentPool, SentLedger, Conserved;
    if SubmissionEnabled(s, step) && step.Send? {
      SendConserves(s.pool, s.ledger, cfg, s.submissions[step.t].job);
    } else if StartEnabled(s, step) {
      LaunchConserves(s.pool, s.ledger);
    } else if WorkerEnabled(s.pool, s.gate, step) {
      WorkersConserve(s.pool, s.ledger, s.gate, cfg, step);
    }
  }

  lemma LaunchConserves(p: Pool, l: Ledger)
    requires Conserved(p, l)
    ensures Conserved(LaunchedPool(p), l)
  {
    hide InFlight;
    forall job: Job ensures Outstanding(LaunchedPool(p), job) == Outstanding(p, job) {
      LaunchedCounts(p.workers, job);
    }
  }

  lemma StopKeepsFlags(s: State, step: Step)
    requires FlagsMatch(s.gate) && StopsFit(s.gate, s.pool, s.stoppers) && StopEnabled(s, step)
    ensures FlagsMatch(GateNext(s.gate, step))
  {
  }

  lemma NextKeepsFlags(s: State, cfg: Settings, step: Step)
    requires FlagsMatch(s.gate) && StopsFit(s.gate, s.pool, s.stoppers) && Enabled(s, step)
    ensures FlagsMatch(Next(s, cfg, step).gate)
  {
    hide WorkedPool, WorkedLedger, SentPool, SentLedger, GateNext, StopsFit;
    if StopEnabled(s, step) {
      StopKeepsFlags(s, step);
    }
  }

  lemma SubmissionKeepsLock(s: State, cfg: Settings, step: Step)
    requires FlagsMatch(s.gate) && LockHolds(s) && SubmissionEnabled(s, step)
    ensures LockHolds(Submitted(s, cfg, step))
  {
    hide SentPool, SentLedger;
  }

  lemma StartKeepsLock(s: State, cfg: Settings, step: Step)
    requires FlagsMatch(s.gate) && LockHolds(s) && StartEnabled(s, step)
    ensures LockHolds(Launched(s, cfg, step))
  {
    hide LaunchedPool;
  }

  lemma StopKeepsLock(s: State, step: Step)
    requires FlagsMatch(s.gate) && LockHolds(s) && StopEnabled(s, step)
    ensures LockHolds(Stopped(s, step))
  {
  }

  lemma NextKeepsLock(s: State, cfg: Settings, step: Step)
    requires FlagsMatch(s.gate) && LockHolds(s) && Enabled(s, step)
    ensures LockHolds(Next(s, cfg, step))
  {
    hide Submitted, Launched, Stopped, WorkedPool, WorkedLedger;
    if SubmissionEnabled(s, step) {
      SubmissionKeepsLock(s, cfg, step);
    } else if StartEnabled(s, step) {
      StartKeepsLock(s, cfg, step);
    } else if StopEnabled(s, step) {
      StopKeepsLock(s, step);
    }
  }

  lemma NextKeepsPool(s: State, cfg: Settings, step: Step)
    requires PoolFits(s.pool, s.gate, cfg) && FlagsMatch(s.gate) && LockHolds(s) && Enabled(s, step)
    requires cfg.maxAttempts > 0
    ensures PoolFits(Next(s, cfg, step).pool, Next(s, cfg, step).gate, cfg)
  {
    hide WorkedPool, WorkedLedger, SentLedger, CountLive;
    if StartEnabled(s, step) {
      LaunchedCounts(s.pool.workers, Job("", 0));
    } else if WorkerEnabled(s.pool, s.gate, step) {
      WorkerStepFits(s.pool, s.gate, cfg, step);
    }
  }

  lemma WorkedJobs(p: Pool, g: Gate, cfg: Settings, step: Step)
    requires WorkerEnabled(p, g, step)
    ensures p.jobs == [] ==> WorkedPool(p, g, cfg, step).jobs == []
  {
  }

  lemma StopKeepsLeaders(s: State, step: Step)
    requires LeadersFit(s.gate, s.stoppers) && StopEnabled(s, step)
    ensures LeadersFit(Stopped(s, step).gate, Stopped(s, step).stoppers)
  {
  }

  lemma StopKeepsDrains(s: State, step: Step)
    requires StopsFit(s.gate, s.pool, s.stoppers) && StopEnabled(s, step)
    ensures DrainsFit(Stopped(s, step).gate, s.pool, Stopped(s, step).stoppers) && Stopped(s, step).pool == s.pool
  {
  }

  lemma NextKeepsStops(s: State, cfg: Settings, step: Step)
    requires StopsFit(s.gate, s.pool, s.stoppers) && FlagsMatch(s.gate) && LockHolds(s) && Enabled(s, step)
    ensures var s' := Next(s, cfg, step); StopsFit(s'.gate, s'.pool, s'.stoppers)
  {
    hide WorkedPool, WorkedLedger, SentLedger, Stopped;
    if StopEnabled(s, step) {
      StopKeepsLeaders(s, step);
      StopKeepsDrains(s, step);
    } else if WorkerEnabled(s.pool, s.gate, step) {
      WorkedJobs(s.pool, s.gate, cfg, step);
    }
  }

  lemma NextKeepsInv(s: State, cfg: Settings, step: Step)
    requires Inv(s, cfg) && Enabled(s, step) && cfg.maxAttempts > 0
    ensures Inv(Next(s, cfg, step), cfg)
  {
    hide Next, Enabled, Conserved, FlagsMatch, LockHolds, PoolFits, StopsFit;
    NextConserves(s, cfg, step);
    NextKeepsFlags(s, cfg, step);
    NextKeepsLock(s, cfg, step);
    NextKeepsPool(s, cfg, step);
    NextKeepsStops(s, cfg, step);
  }

  // ----- every run

  ghost predicate Moves(s: State, cfg: Settings, step: Step, s': State) {
    Enabled(s, step) && s' == Next(s, cfg, step)
  }

  ghost predicate IsRun(states: seq<State>, cfg: Settings, steps: seq<Step>) {
    && cfg.maxAttempts > 0 && |states| == |steps| + 1 && states[0] == INITIAL
    && (forall i, j :: 0 <= i < |steps| && j == i + 1 ==> Moves(states[i], cfg, steps[i], states[j]))
  }

  lemma {:induction false} RunKeepsInv(states: seq<State>, cfg: Settings, steps: seq<Step>, i: nat)
    requires IsRun(states, cfg, steps) && i < |states|
    ensures Inv(states[i], cfg)
  {
    if i > 0 {
      hide Inv, Enabled, Next;
      RunKeepsInv(states, cfg, steps, i - 1);
      assert Moves(states[i - 1], cfg, steps[i - 1], states[i]);
      NextKeepsInv(states[i - 1], cfg, steps[i - 1]);
    } else {
      InitialInv(cfg);
    }
  }

  lemma InitialInv(cfg: Settings)
    ensures Inv(INITIAL, cfg)
  {
  }

  /** Conservation, in every reachable state: each accepted job is queued, in
      flight, or has exactly one outcome. */
  lemma JobsAreConserved(states: seq<State>, cfg: Settings, steps: seq<Step>, i: nat, job: Job)
    requires IsRun(states, cfg, steps) && i < |states|
    ensures var s := states[i];
            s.ledger.accepted[job] ==
            multiset(s.pool.jobs)[job] + InFlight(s.pool.workers, job)
            + s.ledger.processed[job] + s.ledger.failed[job] + s.ledger.abandoned[job]
  {
    hide IsRun, FlagsMatch, LockHolds, PoolFits, StopsFit, InFlight;
    RunKeepsInv(states, cfg, steps, i);
  }

  lemma {:induction false} NobodyLive(workers: seq<Worker>, job: Job)
    requires CountLive(workers) == 0
    ensures InFlight(workers, job) == 0
  {
    if workers != [] {
      NobodyLive(workers[..|workers| - 1], job);
    }
  }

  /** A nil Stop: nothing queued, nothing in flight, and every accepted job has had
      exactly one outcome. */
  lemma CleanStopFinishedEverything(states: seq<State>, cfg: Settings, steps: seq<Step>, i: nat, t: Thread, job: Job)
    requires IsRun(states, cfg, steps) && i < |states|
    requires t in states[i].stoppers && states[i].stoppers[t] == Returned(Clean)
    ensures var s := states[i];
            && s.pool.jobs == [] && s.pool.running == 0 && InFlight(s.pool.workers, job) == 0
            && s.ledger.accepted[job] == s.ledger.processed[job] + s.ledger.failed[job] + s.ledger.abandoned[job]
  {
    hide IsRun, LockHolds, InFlight, CountLive;
    RunKeepsInv(states, cfg, steps, i);
    JobsAreConserved(states, cfg, steps, i, job);
    NobodyLive(states[i].pool.workers, job);
  }

  /** The protocol, over all interleavings: a submission that is about to send finds
      the channel open, a worker is only added before closing, and cancellation
      comes after the channel is closed. */
  lemma ProtocolIsSafe(states: seq<State>, cfg: Settings, steps: seq<Step>, i: nat)
    requires IsRun(states, cfg, steps) && i < |steps|
    ensures steps[i].Send? ==> !states[i].gate.jobsClosed
    ensures |states[i + 1].pool.workers| > |states[i].pool.workers| ==> !states[i].gate.closed
    ensures states[i].gate.cancelled ==> states[i].gate.jobsClosed
  {
    hide IsRun, Conserved, PoolFits, StopsFit;
    RunMoves(states, cfg, steps, i);
    RunKeepsInv(states, cfg, steps, i);
  }

  lemma RunMoves(states: seq<State>, cfg: Settings, steps: seq<Step>, i: nat)
    requires IsRun(states, cfg, steps) && i < |steps|
    ensures i + 1 < |states| && Moves(states[i], cfg, steps[i], states[i + 1])
  {
  }

  /** The step a worker takes next, when its handler returns and its timer has not. */
  function WorkerStep(s: State, w: nat): Step
    requires w < |s.pool.workers|
  {
    match s.pool.workers[w].phase
    case Idle => Look(w)
    case Receiving => Receive(w)
    case Running(_, _) => Succeed(w)
    case Backoff(_, _) => Abandon(w)
    case Exited => Look(w)
  }

  /** Once the channel is closed no worker can block: not on a receive, and not on a
      backoff. */
  lemma NoWorkerBlocks(states: seq<State>, cfg: Settings, steps: seq<Step>, i: nat, w: nat)
    requires IsRun(states, cfg, steps) && i < |states|
    requires states[i].gate.jobsClosed && w < |states[i].pool.workers| && !states[i].pool.workers[w].phase.Exited?
    ensures Enabled(states[i], WorkerStep(states[i], w))
  {
    hide IsRun, Conserved, LockHolds, PoolFits, StopsFit;
    RunKeepsInv(states, cfg, steps, i);
  }

  /** After cancellation each worker starts at most one further job. */
  lemma AtMostOneLateJob(states: seq<State>, cfg: Settings, steps: seq<Step>, i: nat, w: nat)
    requires IsRun(states, cfg, steps) && i < |states| && w < |states[i].pool.workers|
    ensures states[i].pool.workers[w].late <= 1
    ensures steps != [] && i < |steps| && steps[i] == Receive(w) && states[i].gate.cancelled && states[i].pool.jobs != [] ==>
              states[i].pool.workers[w].late == 0
  {
    hide IsRun, Conserved, LockHolds, StopsFit, FlagsMatch;
    RunKeepsInv(states, cfg, steps, i);
    if i < |steps| {
      RunMoves(states, cfg, steps, i);
    }
  }

  /** "No worker starts another job" is false. When a drain times out with jobs still
      queued, a worker's next step starts one exactly when it has passed its check. */
  lemma LateJobExactlyWhenChecked(s: State, cfg: Settings, t: Thread, w: nat)
    requires Enabled(s, TimeOut(t)) && s.pool.jobs != []
    requires w < |s.pool.workers| && (s.pool.workers[w].phase.Idle? || s.pool.workers[w].phase.Receiving?)
    ensures var cancelled := Next(s, cfg, TimeOut(t));
            && Enabled(cancelled, WorkerStep(cancelled, w))
            && (Next(cancelled, cfg, WorkerStep(cancelled, w)).pool.workers[w].phase.Running? <==>
                s.pool.workers[w].phase.Receiving?)
  {
  }

  /** The jobs received after cancellation. */
  function LateJobs(workers: seq<Worker>): nat {
    if workers == [] then 0 else LateJobs(workers[..|workers| - 1]) + workers[|workers| - 1].late
  }

  /** The workers between their check and their receive. */
  function Receivers(workers: seq<Worker>): nat {
    if workers == [] then 0
    else Receivers(workers[..|workers| - 1]) + if workers[|workers| - 1].phase.Receiving? then 1 else 0
  }

  lemma {:induction false} LateUpdate(workers: seq<Worker>, i: nat, w: Worker)
    requires i < |workers|
    ensures LateJobs(workers[i := w]) + workers[i].late == LateJobs(workers) + w.late
    ensures Receivers(workers[i := w]) + (if workers[i].phase.Receiving? then 1 else 0)
         == Receivers(workers) + if w.phase.Receiving? then 1 else 0
  {
    var n := |workers| - 1;
    if i < n {
      assert workers[i := w][..n] == workers[..n][i := w];
      LateUpdate(workers[..n], i, w);
    } else {
      assert workers[i := w][..n] == workers[..n];
    }
  }

  lemma {:induction false} NoLateJobs(workers: seq<Worker>)
    requires forall i :: 0 <= i < |workers| ==> workers[i].late == 0
    ensures LateJobs(workers) == 0
  {
    if workers != [] {
      NoLateJobs(workers[..|workers| - 1]);
    }
  }

  /** After cancellation a receive uses up a worker that had checked, and a job. */
  lemma WorkerUsesUp(p: Pool, g: Gate, cfg: Settings, step: Step)
    requires WorkerEnabled(p, g, step) && g.cancelled
    ensures var p' := WorkedPool(p, g, cfg, step);
            && LateJobs(p'.workers) + Receivers(p'.workers) <= LateJobs(p.workers) + Receivers(p.workers)
            && LateJobs(p'.workers) + |p'.jobs| == LateJobs(p.workers) + |p.jobs|
  {
    hide LateJobs, Receivers;
    LateUpdate(p.workers, step.w, WorkerNext(p, g, cfg, step));
  }

  lemma NextUsesUp(s: State, cfg: Settings, step: Step)
    requires FlagsMatch(s.gate) && LockHolds(s) && Enabled(s, step) && s.gate.cancelled
    ensures var p, p' := s.pool, Next(s, cfg, step).pool;
            && LateJobs(p'.workers) + Receivers(p'.workers) <= LateJobs(p.workers) + Receivers(p.workers)
            && LateJobs(p'.workers) + |p'.jobs| == LateJobs(p.workers) + |p.jobs|
    ensures Next(s, cfg, step).gate.cancelled
  {
    hide LateJobs, Receivers, WorkedPool, WorkedLedger, SentPool, SentLedger, LaunchedPool;
    if WorkerEnabled(s.pool, s.gate, step) {
      WorkerUsesUp(s.pool, s.gate, cfg, step);
    }
  }

  /** The jobs started after cancellation, over every run: at most as many as there were
      workers between their check and their receive when the drain timed out, and at
      most as many as were queued. So there are none when either is none. */
  lemma {:induction false} LateJobsWereChecked(states: seq<State>, cfg: Settings, steps: seq<Step>, j: nat, i: nat)
    requires IsRun(states, cfg, steps) && j < i < |states|
    requires steps[j].TimeOut? && !states[j].gate.cancelled
    ensures var late, pool := LateJobs(states[i].pool.workers), states[j].pool;
            && late + Receivers(states[i].pool.workers) <= Receivers(pool.workers)
            && late + |states[i].pool.jobs| == |pool.jobs|
    ensures states[i].gate.cancelled
    decreases i
  {
    hide Next, Enabled, Conserved, StopsFit, LateJobs, Receivers;
    if i == j + 1 {
      hide IsRun;
      RunMoves(states, cfg, steps, j);
      RunKeepsInv(states, cfg, steps, j);
      TimeOutKeepsPool(states[j], cfg, steps[j]);
      NoLateJobs(states[j].pool.workers);
    } else {
      LateJobsWereChecked(states, cfg, steps, j, i - 1);
      hide IsRun;
      RunMoves(states, cfg, steps, i - 1);
      RunKeepsInv(states, cfg, steps, i - 1);
      NextUsesUp(states[i - 1], cfg, steps[i - 1]);
    }
  }

  lemma TimeOutKeepsPool(s: State, cfg: Settings, step: Step)
    requires Enabled(s, step) && step.TimeOut?
    ensures Next(s, cfg, step).pool == s.pool && Next(s, cfg, step).gate.cancelled
  {
  }

  const LATE_SETTINGS := Settings(1, 1, 1, {"mail"})
  const LATE_JOB := Job("mail", 0)

  /** What a run has come to. */
  ghost predicate Reached(states: seq<State>, steps: seq<Step>, s: State) {
    IsRun(states, LATE_SETTINGS, steps) && states != [] && states[|states| - 1] == s
  }

  /** Such a run: the worker checks, Stop closes the queue and times out, the worker
      receives. */
  lemma LateJobRun() returns (states: seq<State>, steps: seq<Step>, end: State)
    ensures Reached(states, steps, end)
    ensures end.gate.cancelled && |end.pool.workers| == 1 && end.pool.workers[0].late == 1
  {
    hide Reached, Enabled, Next;
    states, steps, end := ClosedRun();
    states, steps, end := Stops(states, steps, end, TimeOut(0));
    hide Stopped;
    states, steps, end := Works(states, steps, end, Receive(0));
  }

  lemma ClosedRun() returns (states: seq<State>, steps: seq<Step>, end: State)
    ensures Reached(states, steps, end)
    ensures end.pool == Pool([LATE_JOB], [Worker(Receiving, 0)], 1) && 0 in end.stoppers && end.stoppers[0] == Draining
  {
    hide Reached, Enabled, Next;
    states, steps, end := CheckedRun();
    states, steps, end := Stops(states, steps, end, Stop(0));
    states, steps, end := Stops(states, steps, end, Lead(0));
    states, steps, end := Stops(states, steps, end, Lead(0));
    states, steps, end := Stops(states, steps, end, Lead(0));
    states, steps, end := Stops(states, steps, end, Lead(0));
    states, steps, end := Stops(states, steps, end, Lead(0));
  }

  /** A queued job, and a worker that has passed its check. */
  lemma CheckedRun() returns (states: seq<State>, steps: seq<Step>, end: State)
    ensures Reached(states, steps, end)
    ensures end.gate.once == Fresh && end.stoppers == map[] && NoReaders(end)
    ensures end.pool == Pool([LATE_JOB], [Worker(Receiving, 0)], 1)
  {
    hide Reached, Enabled, Next;
    states, steps, end := LaunchedRun();
    states, steps, end := Works(states, steps, end, Look(0));
  }

  lemma LaunchedRun() returns (states: seq<State>, steps: seq<Step>, end: State)
    ensures Reached(states, steps, end)
    ensures end.gate == INITIAL.gate.(started := true) && end.stoppers == map[] && NoReaders(end)
    ensures end.pool == Pool([LATE_JOB], [Worker(Idle, 0)], 1)
  {
    hide Reached, Enabled, Next;
    states, steps, end := QueuedRun();
    states, steps, end := Starts(states, steps, end, Start(0));
    states, steps, end := Starts(states, steps, end, EnterStart(0));
    states, steps, end := Starts(states, steps, end, CheckStart(0));
    states, steps, end := Starts(states, steps, end, Launch(0));
    states, steps, end := Starts(states, steps, end, Launch(0));
  }

  lemma QueuedRun() returns (states: seq<State>, steps: seq<Step>, end: State)
    ensures Reached(states, steps, end)
    ensures end.gate == INITIAL.gate && end.starters == map[] && end.stoppers == map[] && NoReaders(end)
    ensures end.pool == Pool([LATE_JOB], [], 0)
  {
    states, steps, end := [INITIAL], [], INITIAL;
    assert Reached(states, steps, end);
    hide Reached, Enabled, Next;
    states, steps, end := Submits(states, steps, end, Submit(0, LATE_JOB, false));
    states, steps, end := Submits(states, steps, end, Enter(0));
    states, steps, end := Submits(states, steps, end, Check(0));
    states, steps, end := Submits(states, steps, end, Send(0));
  }

  lemma Extend(states: seq<State>, steps: seq<Step>, s: State, step: Step)
    returns (states': seq<State>, steps': seq<Step>, s': State)
    requires Reached(states, steps, s) && Enabled(s, step)
    ensures Reached(states', steps', s') && s' == Next(s, LATE_SETTINGS, step)
  {
    hide Enabled, Next;
    s' := Next(s, LATE_SETTINGS, step);
    states', steps' := states + [s'], steps + [step];
  }

  lemma Submits(states: seq<State>, steps: seq<Step>, s: State, step: Step)
    returns (states': seq<State>, steps': seq<Step>, s': State)
    requires Reached(states, steps, s) && SubmissionEnabled(s, step)
    ensures Reached(states', steps', s') && s' == Submitted(s, LATE_SETTINGS, step)
  {
    states', steps', s' := Extend(states, steps, s, step);
  }

  lemma Starts(states: seq<State>, steps: seq<Step>, s: State, step: Step)
    returns (states': seq<State>, steps': seq<Step>, s': State)
    requires Reached(states, steps, s) && StartEnabled(s, step)
    ensures Reached(states', steps', s') && s' == Launched(s, LATE_SETTINGS, step)
  {
    states', steps', s' := Extend(states, steps, s, step);
  }

  lemma Stops(states: seq<State>, steps: seq<Step>, s: State, step: Step)
    returns (states': seq<State>, steps': seq<Step>, s': State)
    requires Reached(states, steps, s) && StopEnabled(s, step)
    ensures Reached(states', steps', s') && s' == Stopped(s, step)
  {
    states', steps', s' := Extend(states, steps, s, step);
  }

  lemma Works(states: seq<State>, steps: seq<Step>, s: State, step: Step)
    returns (states': seq<State>, steps': seq<Step>, s': State)
    requires Reached(states, steps, s) && WorkerEnabled(s.pool, s.gate, step)
    ensures Reached(states', steps', s')
    ensures s'.pool == WorkedPool(s.pool, s.gate, LATE_SETTINGS, step) && s'.gate == s.gate
    ensures s'.submissions == s.submissions && s'.starters == s.starters && s'.stoppers == s.stoppers
  {
    states', steps', s' := Extend(states, steps, s, step);
  }
}

/** One job on a worker: the retry loop and its delays (queue/queue.go). */
module JobAttempts {
  datatype Outcome = Processed | Failed | Abandoned

  /** `fails(n)` is attempt n of the handler, `interrupted(n)` the wait after it. */
  ghost predicate AllFailed(fails: nat -> bool, interrupted: nat -> bool, n: nat) {
    forall i :: 1 <= i < n ==> fails(i) && !interrupted(i)
  }

  /** process. A job whose name has no handler fails at once. The outcome is the
      first success, the first interrupted wait, or failure after the last attempt,
      which no wait follows. */
  method Process(known: bool, maxAttempts: nat, fails: nat -> bool, interrupted: nat -> bool)
    returns (outcome: Outcome, attempt: nat)
    requires maxAttempts > 0
    ensures 1 <= attempt <= maxAttempts
    ensures !known ==> outcome == Failed && attempt == 1
    ensures known ==> AllFailed(fails, interrupted, attempt)
    ensures known ==> (outcome == Processed <==> !fails(attempt))
    ensures known ==> (outcome == Abandoned <==> fails(attempt) && attempt < maxAttempts && interrupted(attempt))
    ensures known ==> (outcome == Failed <==> fails(attempt) && attempt == maxAttempts)
  {
    if !known {
      return Failed, 1;
    }
    attempt := 1;
    while true
      invariant 1 <= attempt <= maxAttempts && AllFailed(fails, interrupted, attempt)
      decreases maxAttempts - attempt
    {
      if !fails(attempt) {
        return Processed, attempt;
      }
      if attempt == maxAttempts {
        return Failed, attempt;
      }
      if interrupted(attempt) {
        return Abandoned, attempt;
      }
      attempt := attempt + 1;
    }
  }

  const BASE_MS := 100
  const MOST_MS := 30_000

  function Power2(n: nat): (p: nat)
    ensures p > 0
  {
    if n == 0 then 1 else 2 * Power2(n - 1)
  }

  /** defaultBackoff, in milliseconds; the shift count is clamped to 0..16. */
  function DefaultBackoff(attempt: int): nat {
    var shift := if attempt < 1 then 0 else if attempt - 1 > 16 then 16 else attempt - 1;
    var delay := BASE_MS * Power2(shift);
    if delay > MOST_MS then MOST_MS else delay
  }

  lemma {:induction false} Power2Grows(m: nat, n: nat)
    requires m <= n
    ensures Power2(m) <= Power2(n)
  {
    if m < n {
      Power2Grows(m, n - 1);
    }
  }

  /** Clamping the shift is invisible: for every attempt, however large or negative,
      the delay is the doubling one, capped. */
  lemma BackoffIsCappedDoubling(attempt: int)
    ensures var exact := BASE_MS * Power2(if attempt < 1 then 0 else attempt - 1);
            DefaultBackoff(attempt) == if exact > MOST_MS then MOST_MS else exact
  {
    if attempt > 17 {
      Power2Grows(16, attempt - 1);
      assert Power2(16) == 65536 by {
        assert Power2(8) == 256;
      }
    }
  }

  lemma BackoffNeverShrinks(a: int, b: int)
    requires a <= b
    ensures BASE_MS <= DefaultBackoff(a) <= DefaultBackoff(b) <= MOST_MS
  {
    BackoffIsCappedDoubling(a);
    BackoffIsCappedDoubling(b);
    Power2Grows(0, if a < 1 then 0 else a - 1);
    Power2Grows(if a < 1 then 0 else a - 1, if b < 1 then 0 else b - 1);
  }
}
