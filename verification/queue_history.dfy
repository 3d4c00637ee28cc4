/**
  The job queue's runs by what happened in them (queue/queue.go): the order of jobs, how
  often each was attempted, what the ledger and a call of Stop say, and what a caller of
  Enqueue is told.
  */
module JobHistory {
  import opened JobQueue

  // ----- what happened before state i

  ghost predicate Within(states: seq<State>, steps: seq<Step>, i: nat) {
    |states| == |steps| + 1 && i <= |steps|
  }

  /** The job a worker has. */
  function Held(s: State, w: nat): seq<Job> {
    if w < |s.pool.workers| && (s.pool.workers[w].phase.Running? || s.pool.workers[w].phase.Backoff?)
    then [s.pool.workers[w].phase.job] else []
  }

  /** The job whose caller is told in this step that it was accepted. */
  function SentIn(s: State, step: Step, s': State): seq<Job> {
    if step.Send? && step.t in s.submissions && s.submissions[step.t].Sending?
       && step.t in s'.submissions && s'.submissions[step.t] == Answered(Accepted)
    then [s.submissions[step.t].job] else []
  }

  /** The job a worker has after this receive. */
  function ReceivedIn(step: Step, s': State): seq<Job> {
    if step.Receive? then Held(s', step.w) else []
  }

  ghost function Sent(states: seq<State>, steps: seq<Step>, i: nat): seq<Job>
    requires Within(states, steps, i)
  {
    if i == 0 then [] else Sent(states, steps, i - 1) + SentIn(states[i - 1], steps[i - 1], states[i])
  }

  ghost function Received(states: seq<State>, steps: seq<Step>, i: nat): seq<Job>
    requires Within(states, steps, i)
  {
    if i == 0 then [] else Received(states, steps, i - 1) + ReceivedIn(steps[i - 1], states[i])
  }

  /** What the handler succeeded on, failed on for the last time, and what was dropped
      while waiting for another attempt. */
  datatype Ending = Handled | GivenUp | LetGo

  function EndedIn(s: State, cfg: Settings, step: Step, ending: Ending): seq<Job> {
    match ending
    case Handled => if step.Succeed? then Held(s, step.w) else []
    case GivenUp => if step.Fail? && LastAttempt(s, cfg, step.w) then Held(s, step.w) else []
    case LetGo => if step.Abandon? then Held(s, step.w) else []
  }

  predicate LastAttempt(s: State, cfg: Settings, w: nat) {
    w < |s.pool.workers| && s.pool.workers[w].phase.Running? && s.pool.workers[w].phase.attempt == cfg.maxAttempts
  }

  ghost function Ended(states: seq<State>, cfg: Settings, steps: seq<Step>, i: nat, ending: Ending): multiset<Job>
    requires Within(states, steps, i)
  {
    if i == 0 then multiset{}
    else Ended(states, cfg, steps, i - 1, ending) + multiset(EndedIn(states[i - 1], cfg, steps[i - 1], ending))
  }

  /** State i of a run, and how it came about. */
  lemma Along(states: seq<State>, cfg: Settings, steps: seq<Step>, i: nat)
    requires IsRun(states, cfg, steps) && i < |states|
    ensures |states| == |steps| + 1 && Within(states, steps, i) && states[0] == INITIAL && cfg.maxAttempts > 0
    ensures i > 0 ==> Within(states, steps, i - 1)
    ensures i > 0 ==> var s := states[i - 1];
            Enabled(s, steps[i - 1]) && states[i] == Next(s, cfg, steps[i - 1]) && Inv(s, cfg) && PoolFits(s.pool, s.gate, cfg)
  {
    hide Next, Enabled, Conserved, LockHolds, StopsFit, FlagsMatch, PoolFits;
    if i > 0 {
      RunMoves(states, cfg, steps, i - 1);
      RunKeepsInv(states, cfg, steps, i - 1);
    }
  }

  // ----- what each kind of step leaves alone

  predicate OfWorker(step: Step) {
    step.Look? || step.Receive? || step.Succeed? || step.Fail? || step.Retry? || step.Abandon?
  }

  lemma SubmitLeaves(s: State, cfg: Settings, step: Step)
    requires SubmissionEnabled(s, step)
    ensures var s' := Next(s, cfg, step);
            && s' == Submitted(s, cfg, step) && s'.gate == s.gate && s'.starters == s.starters && s'.stoppers == s.stoppers
            && s'.pool.workers == s.pool.workers && s'.pool.running == s.pool.running && !step.TimeOut? && !OfWorker(step)
  {
  }

  lemma LaunchLeaves(s: State, cfg: Settings, step: Step)
    requires StartEnabled(s, step)
    ensures var s' := Next(s, cfg, step);
            && s' == Launched(s, cfg, step) && s'.ledger == s.ledger && s'.submissions == s.submissions
            && s'.stoppers == s.stoppers && s'.pool.jobs == s.pool.jobs && s'.gate == s.gate.(started := s'.gate.started)
            && (s'.pool == s.pool || s'.pool == LaunchedPool(s.pool)) && !step.TimeOut? && !OfWorker(step)
  {
    hide *;
    StartIsLaunched(s, cfg, step);
    LaunchedLeaves(s, cfg, step);
  }

  lemma LaunchedLeaves(s: State, cfg: Settings, step: Step)
    requires StartEnabled(s, step)
    ensures var s' := Launched(s, cfg, step);
            && s'.ledger == s.ledger && s'.submissions == s.submissions && s'.stoppers == s.stoppers
            && s'.pool.jobs == s.pool.jobs && s'.gate == s.gate.(started := s'.gate.started)
            && (s'.pool == s.pool || s'.pool == LaunchedPool(s.pool))
  {
    hide StarterNext, StartEnabled;
  }

  lemma StartIsLaunched(s: State, cfg: Settings, step: Step)
    requires StartEnabled(s, step)
    ensures Next(s, cfg, step) == Launched(s, cfg, step) && !OfWorker(step) && !step.TimeOut?
  {
    hide Launched;
  }

  lemma StopLeaves(s: State, cfg: Settings, step: Step)
    requires StopEnabled(s, step)
    ensures var s' := Next(s, cfg, step);
            && s' == Stopped(s, step) && s'.pool == s.pool && s'.ledger == s.ledger
            && s'.submissions == s.submissions && s'.starters == s.starters && s'.gate == GateNext(s.gate, step)
            && s'.gate.started == s.gate.started && !OfWorker(step)
            && (s'.gate.cancelled <==> s.gate.cancelled || step.TimeOut?)
  {
    hide StopperNext, GateNext;
    StopIsStopped(s, cfg, step);
    hide Next, StopEnabled;
    GateLeaves(s.gate, step);
  }

  lemma StopIsStopped(s: State, cfg: Settings, step: Step)
    requires StopEnabled(s, step)
    ensures Next(s, cfg, step) == Stopped(s, step) && !OfWorker(step)
  {
    hide Stopped;
  }

  lemma GateLeaves(g: Gate, step: Step)
    ensures GateNext(g, step).started == g.started && (GateNext(g, step).cancelled <==> g.cancelled || step.TimeOut?)
  {
    hide Advanced;
  }

  lemma WorkLeaves(s: State, cfg: Settings, step: Step)
    requires WorkerEnabled(s.pool, s.gate, step)
    ensures var s' := Next(s, cfg, step);
            && s'.pool == WorkedPool(s.pool, s.gate, cfg, step) && s'.ledger == WorkedLedger(s.ledger, s.pool, s.gate, cfg, step)
            && s'.gate == s.gate && s'.submissions == s.submissions && s'.starters == s.starters && s'.stoppers == s.stoppers
            && |s'.pool.workers| == |s.pool.workers| && s'.ledger.accepted == s.ledger.accepted && !step.TimeOut?
  {
    hide WorkerNext;
  }

  lemma DrainLeaves(s: State, cfg: Settings)
    requires Enabled(s, Drain)
    ensures Next(s, cfg, Drain) == s.(gate := s.gate.(finished := true)) && !OfWorker(Drain)
  {
  }

  lemma Kinds(s: State, step: Step)
    requires Enabled(s, step)
    ensures SubmissionEnabled(s, step) || StartEnabled(s, step) || StopEnabled(s, step)
            || WorkerEnabled(s.pool, s.gate, step) || step == Drain
  {
  }

  // ----- the order of jobs

  lemma SendIsFifo(s: State, cfg: Settings, step: Step)
    requires SubmissionEnabled(s, step)
    ensures var s' := Submitted(s, cfg, step);
            s'.pool.jobs == s.pool.jobs + SentIn(s, step, s') && ReceivedIn(step, s') == []
  {
  }

  lemma WorkIsFifo(s: State, cfg: Settings, step: Step)
    requires WorkerEnabled(s.pool, s.gate, step)
    ensures var s' := Next(s, cfg, step);
            s.pool.jobs == ReceivedIn(step, s') + s'.pool.jobs && SentIn(s, step, s') == []
  {
    hide Next, WorkedLedger;
    WorkLeaves(s, cfg, step);
    if step.Receive? && s.pool.jobs != [] {
      assert s.pool.jobs == [s.pool.jobs[0]] + s.pool.jobs[1..];
    }
  }

  lemma NextIsFifo(s: State, cfg: Settings, step: Step)
    requires Enabled(s, step)
    ensures var s' := Next(s, cfg, step);
            s.pool.jobs + SentIn(s, step, s') == ReceivedIn(step, s') + s'.pool.jobs
  {
    hide *;
    Kinds(s, step);
    if SubmissionEnabled(s, step) {
      SubmitLeaves(s, cfg, step);
      SendIsFifo(s, cfg, step);
    } else if StartEnabled(s, step) {
      LaunchLeaves(s, cfg, step);
      NothingMoves(s, step, Next(s, cfg, step));
    } else if StopEnabled(s, step) {
      StopLeaves(s, cfg, step);
      NothingMoves(s, step, Next(s, cfg, step));
    } else if WorkerEnabled(s.pool, s.gate, step) {
      WorkLeaves(s, cfg, step);
      WorkIsFifo(s, cfg, step);
    } else {
      DrainLeaves(s, cfg);
      NothingMoves(s, step, Next(s, cfg, step));
    }
  }

  lemma NothingMoves(s: State, step: Step, s': State)
    requires StartEnabled(s, step) || StopEnabled(s, step) || step == Drain
    ensures SentIn(s, step, s') == [] && ReceivedIn(step, s') == []
    ensures forall cfg, ending :: EndedIn(s, cfg, step, ending) == []
  {
  }

  /** First in, first out, over every run: the jobs whose callers were told that they were
      accepted are, in that order, those that workers received followed by those queued. */
  lemma {:induction false} QueueIsFifo(states: seq<State>, cfg: Settings, steps: seq<Step>, i: nat)
    requires IsRun(states, cfg, steps) && i < |states|
    ensures Within(states, steps, i) && Sent(states, steps, i) == Received(states, steps, i) + states[i].pool.jobs
  {
    hide *;
    Along(states, cfg, steps, i);
    if i > 0 {
      QueueIsFifo(states, cfg, steps, i - 1);
      NextIsFifo(states[i - 1], cfg, steps[i - 1]);
      FifoStep(states, steps, i);
    } else {
      FifoAtStart(states, steps);
    }
  }

  lemma FifoAtStart(states: seq<State>, steps: seq<Step>)
    requires Within(states, steps, 0) && states[0] == INITIAL
    ensures Sent(states, steps, 0) == Received(states, steps, 0) + states[0].pool.jobs
  {
  }

  lemma FifoStep(states: seq<State>, steps: seq<Step>, i: nat)
    requires Within(states, steps, i) && i > 0
    requires Sent(states, steps, i - 1) == Received(states, steps, i - 1) + states[i - 1].pool.jobs
    requires var s, s' := states[i - 1], states[i];
             s.pool.jobs + SentIn(s, steps[i - 1], s') == ReceivedIn(steps[i - 1], s') + s'.pool.jobs
    ensures Sent(states, steps, i) == Received(states, steps, i) + states[i].pool.jobs
  {
    hide SentIn, ReceivedIn;
    var s, s' := states[i - 1], states[i];
    assert Sent(states, steps, i) == Received(states, steps, i - 1) + (s.pool.jobs + SentIn(s, steps[i - 1], s'));
  }

  // ----- the ledger

  lemma LedgerNext(s: State, cfg: Settings, step: Step)
    requires Enabled(s, step) && PoolFits(s.pool, s.gate, cfg)
    ensures var l, s' := s.ledger, Next(s, cfg, step);
            && s'.ledger.accepted == l.accepted + multiset(SentIn(s, step, s'))
            && s'.ledger.processed == l.processed + multiset(EndedIn(s, cfg, step, Handled))
            && s'.ledger.failed == l.failed + multiset(EndedIn(s, cfg, step, GivenUp))
            && s'.ledger.abandoned == l.abandoned + multiset(EndedIn(s, cfg, step, LetGo))
  {
    hide *;
    Kinds(s, step);
    if SubmissionEnabled(s, step) {
      SubmitLeaves(s, cfg, step);
      SubmittedLedger(s, cfg, step);
    } else if StartEnabled(s, step) {
      LaunchLeaves(s, cfg, step);
      NothingMoves(s, step, Next(s, cfg, step));
    } else if StopEnabled(s, step) {
      StopLeaves(s, cfg, step);
      NothingMoves(s, step, Next(s, cfg, step));
    } else if WorkerEnabled(s.pool, s.gate, step) {
      WorkLeaves(s, cfg, step);
      WorkedLedgerNext(s, cfg, step);
      NothingSent(s, step, Next(s, cfg, step));
    } else {
      DrainLeaves(s, cfg);
      NothingMoves(s, step, Next(s, cfg, step));
    }
  }

  lemma NothingSent(s: State, step: Step, s': State)
    requires WorkerEnabled(s.pool, s.gate, step)
    ensures SentIn(s, step, s') == []
  {
  }

  lemma SubmittedLedger(s: State, cfg: Settings, step: Step)
    requires SubmissionEnabled(s, step)
    ensures var s' := Submitted(s, cfg, step);
            && s'.ledger.accepted == s.ledger.accepted + multiset(SentIn(s, step, s'))
            && s'.ledger == s.ledger.(accepted := s'.ledger.accepted, refused := s'.ledger.refused)
    ensures forall ending :: EndedIn(s, cfg, step, ending) == []
  {
  }

  lemma WorkedLedgerNext(s: State, cfg: Settings, step: Step)
    requires WorkerEnabled(s.pool, s.gate, step) && PoolFits(s.pool, s.gate, cfg)
    ensures var l, l' := s.ledger, WorkedLedger(s.ledger, s.pool, s.gate, cfg, step);
            && l'.accepted == l.accepted && l'.refused == l.refused
            && l'.processed == l.processed + multiset(EndedIn(s, cfg, step, Handled))
            && l'.failed == l.failed + multiset(EndedIn(s, cfg, step, GivenUp))
            && l'.abandoned == l.abandoned + multiset(EndedIn(s, cfg, step, LetGo))
  {
    hide PoolFits;
    if s.pool.workers[step.w].phase.Running? {
      LastIsLast(s, cfg, step.w);
    }
  }

  lemma LastIsLast(s: State, cfg: Settings, w: nat)
    requires PoolFits(s.pool, s.gate, cfg) && w < |s.pool.workers| && s.pool.workers[w].phase.Running?
    ensures s.pool.workers[w].phase.attempt <= cfg.maxAttempts
  {
    hide CountLive;
    assert WorkerFits(s.pool.workers[w], s.gate.cancelled, cfg.maxAttempts);
  }

  lemma MultisetAppend(a: seq<Job>, b: seq<Job>)
    ensures multiset(a + b) == multiset(a) + multiset(b)
  {
  }

  /** The ledger is what happened. */
  ghost predicate LedgerTold(states: seq<State>, cfg: Settings, steps: seq<Step>, i: nat)
    requires Within(states, steps, i)
  {
    var l := states[i].ledger;
    && l.accepted == multiset(Sent(states, steps, i)) && l.processed == Ended(states, cfg, steps, i, Handled)
    && l.failed == Ended(states, cfg, steps, i, GivenUp) && l.abandoned == Ended(states, cfg, steps, i, LetGo)
  }

  lemma LedgerStep(states: seq<State>, cfg: Settings, steps: seq<Step>, i: nat)
    requires Within(states, steps, i) && i > 0 && LedgerTold(states, cfg, steps, i - 1)
    requires Enabled(states[i - 1], steps[i - 1]) && PoolFits(states[i - 1].pool, states[i - 1].gate, cfg)
    requires states[i] == Next(states[i - 1], cfg, steps[i - 1])
    ensures LedgerTold(states, cfg, steps, i)
  {
    hide SentIn, EndedIn, Enabled, Next, PoolFits;
    LedgerNext(states[i - 1], cfg, steps[i - 1]);
    MultisetAppend(Sent(states, steps, i - 1), SentIn(states[i - 1], steps[i - 1], states[i]));
  }

  /** The ledger, over every run: accepted are the jobs whose callers were told so,
      processed those a handler succeeded on, failed those it failed on in their last
      attempt, and abandoned those dropped in a wait. */
  lemma {:induction false} LedgerIsHistory(states: seq<State>, cfg: Settings, steps: seq<Step>, i: nat)
    requires IsRun(states, cfg, steps) && i < |states|
    ensures Within(states, steps, i) && LedgerTold(states, cfg, steps, i)
  {
    hide *;
    Along(states, cfg, steps, i);
    if i > 0 {
      LedgerIsHistory(states, cfg, steps, i - 1);
      LedgerStep(states, cfg, steps, i);
    } else {
      LedgerAtStart(states, cfg, steps);
    }
  }

  lemma LedgerAtStart(states: seq<State>, cfg: Settings, steps: seq<Step>)
    requires Within(states, steps, 0) && states[0] == INITIAL
    ensures LedgerTold(states, cfg, steps, 0)
  {
  }

  // ----- attempts

  /** How often the handler has failed since the worker last received a job. */
  function Failures(steps: seq<Step>, i: nat, w: nat): nat
    requires i <= |steps|
  {
    if i == 0 then 0
    else match steps[i - 1]
      case Receive(v) => if v == w then 0 else Failures(steps, i - 1, w)
      case Fail(v) => Failures(steps, i - 1, w) + if v == w then 1 else 0
      case _ => Failures(steps, i - 1, w)
  }

  /** The job a worker last received. */
  ghost function Latest(states: seq<State>, steps: seq<Step>, i: nat, w: nat): seq<Job>
    requires Within(states, steps, i)
  {
    if i == 0 then []
    else if steps[i - 1] == Receive(w) then Held(states[i], w) else Latest(states, steps, i - 1, w)
  }

  /** Attempts so far, the one under way not counted. */
  function Attempted(phase: Phase): nat
    requires phase.Running? || phase.Backoff?
  {
    if phase.Backoff? then phase.attempt else if phase.attempt > 0 then phase.attempt - 1 else 0
  }

  /** What one step does to worker w. */
  ghost predicate Owns(s: State, step: Step, s': State, w: nat) {
    Held(s', w) != [] ==>
      && w < |s'.pool.workers| && (step == Receive(w) ==> Attempted(s'.pool.workers[w].phase) == 0)
      && (step != Receive(w) ==>
            && Held(s, w) == Held(s', w)
            && Attempted(s'.pool.workers[w].phase)
               == Attempted(s.pool.workers[w].phase) + if step == Fail(w) then 1 else 0)
  }

  lemma SameWorkersOwn(s: State, step: Step, s': State, w: nat)
    requires s'.pool.workers == s.pool.workers && !OfWorker(step)
    ensures Owns(s, step, s', w)
  {
  }

  lemma LaunchOwns(s: State, step: Step, s': State, w: nat)
    requires s'.pool == LaunchedPool(s.pool) && !OfWorker(step)
    ensures Owns(s, step, s', w)
  {
  }

  lemma WorkOwns(s: State, cfg: Settings, step: Step, s': State, w: nat)
    requires WorkerEnabled(s.pool, s.gate, step) && PoolFits(s.pool, s.gate, cfg)
    requires s'.pool == WorkedPool(s.pool, s.gate, cfg, step)
    ensures Owns(s, step, s', w)
  {
    hide CountLive;
    assert WorkerFits(s.pool.workers[step.w], s.gate.cancelled, cfg.maxAttempts);
  }

  lemma WorkerIsOwn(s: State, cfg: Settings, step: Step, w: nat)
    requires Enabled(s, step) && PoolFits(s.pool, s.gate, cfg)
    ensures Owns(s, step, Next(s, cfg, step), w)
  {
    hide *;
    Kinds(s, step);
    var s' := Next(s, cfg, step);
    if SubmissionEnabled(s, step) {
      SubmitLeaves(s, cfg, step);
      SameWorkersOwn(s, step, s', w);
    } else if StartEnabled(s, step) {
      LaunchLeaves(s, cfg, step);
      if s'.pool == s.pool {
        SameWorkersOwn(s, step, s', w);
      } else {
        LaunchOwns(s, step, s', w);
      }
    } else if StopEnabled(s, step) {
      StopLeaves(s, cfg, step);
      SameWorkersOwn(s, step, s', w);
    } else if WorkerEnabled(s.pool, s.gate, step) {
      WorkLeaves(s, cfg, step);
      WorkOwns(s, cfg, step, s', w);
    } else {
      DrainLeaves(s, cfg);
      SameWorkersOwn(s, step, s', w);
    }
  }

  /** Attempts, over every run: a worker has the job it last received, and its handler has
      failed on it exactly as often as the attempts before this one. */
  lemma {:induction false} AttemptsAreCounted(states: seq<State>, cfg: Settings, steps: seq<Step>, i: nat, w: nat)
    requires IsRun(states, cfg, steps) && i < |states| && Held(states[i], w) != []
    ensures Within(states, steps, i) && Held(states[i], w) == Latest(states, steps, i, w)
    ensures Attempted(states[i].pool.workers[w].phase) == Failures(steps, i, w)
  {
    hide *;
    Along(states, cfg, steps, i);
    if i > 0 {
      WorkerIsOwn(states[i - 1], cfg, steps[i - 1], w);
      OwnStep(states, steps, i, w);
      if steps[i - 1] != Receive(w) {
        AttemptsAreCounted(states, cfg, steps, i - 1, w);
      }
    } else {
      NothingHeld(w);
    }
  }

  lemma NothingHeld(w: nat)
    ensures Held(INITIAL, w) == []
  {
  }

  lemma OwnStep(states: seq<State>, steps: seq<Step>, i: nat, w: nat)
    requires Within(states, steps, i) && i > 0 && Within(states, steps, i - 1) && Held(states[i], w) != []
    requires Owns(states[i - 1], steps[i - 1], states[i], w)
    ensures w < |states[i].pool.workers| && !states[i].pool.workers[w].phase.Idle?
            && (states[i].pool.workers[w].phase.Running? || states[i].pool.workers[w].phase.Backoff?)
    ensures steps[i - 1] == Receive(w) ==>
              Held(states[i], w) == Latest(states, steps, i, w) && Attempted(states[i].pool.workers[w].phase) == Failures(steps, i, w)
    ensures steps[i - 1] != Receive(w) && Held(states[i - 1], w) == Latest(states, steps, i - 1, w)
            && Attempted(states[i - 1].pool.workers[w].phase) == Failures(steps, i - 1, w) ==>
              Held(states[i], w) == Latest(states, steps, i, w) && Attempted(states[i].pool.workers[w].phase) == Failures(steps, i, w)
    ensures steps[i - 1] != Receive(w) ==> Held(states[i - 1], w) != []
  {
  }

  /** A job counts as failed exactly with the failure that makes as many as it may have. */
  lemma GivenUpAfterLastAttempt(states: seq<State>, cfg: Settings, steps: seq<Step>, i: nat, w: nat)
    requires IsRun(states, cfg, steps) && i < |steps| && steps[i] == Fail(w)
    ensures Failures(steps, i + 1, w) <= cfg.maxAttempts
    ensures states[i + 1].ledger.failed == states[i].ledger.failed +
            if Failures(steps, i + 1, w) == cfg.maxAttempts then multiset(Held(states[i], w)) else multiset{}
  {
    hide Conserved, LockHolds, StopsFit, FlagsMatch, CountLive;
    RunMoves(states, cfg, steps, i);
    RunKeepsInv(states, cfg, steps, i);
    AttemptsAreCounted(states, cfg, steps, i, w);
    hide IsRun;
    assert WorkerFits(states[i].pool.workers[w], states[i].gate.cancelled, cfg.maxAttempts);
    LedgerNext(states[i], cfg, steps[i]);
  }

  // ----- what Stop says

  /** Over every run, a Stop that has seen the drain end returns nil exactly when nothing
      is queued, and otherwise how many jobs are. */
  lemma StopSaysWhatIsLeft(states: seq<State>, cfg: Settings, steps: seq<Step>, i: nat, t: Thread)
    requires IsRun(states, cfg, steps) && i < |steps| && steps[i] == Return(t)
    ensures t in states[i + 1].stoppers
    ensures states[i + 1].stoppers[t] == Returned(Clean) <==> states[i].pool.jobs == []
    ensures forall n :: states[i + 1].stoppers[t] == Returned(Dropped(n)) <==> n == |states[i].pool.jobs| && n > 0
  {
    RunMoves(states, cfg, steps, i);
  }

  /** Unless it was cancelled, a worker leaves only an empty and closed queue; and what a
      Stop has returned is true. */
  ghost predicate LeavesFit(s: State) {
    && (!s.gate.cancelled && (exists w :: 0 <= w < |s.pool.workers| && s.pool.workers[w].phase.Exited?) ==>
          s.gate.jobsClosed && s.pool.jobs == [])
    && forall t :: t in s.stoppers && s.stoppers[t].Returned? ==> ReturnFits(s, s.stoppers[t].outcome)
  }

  predicate ReturnFits(s: State, outcome: Outcome) {
    match outcome
    case Clean => s.gate.finished
    case Dropped(n) => s.gate.finished && n > 0 && (s.gate.cancelled || s.pool.workers == [])
    case TimedOut => s.gate.cancelled
  }

  lemma {:induction false} SomeoneLeft(workers: seq<Worker>)
    requires CountLive(workers) == 0 && workers != []
    ensures workers[0].phase.Exited?
  {
    if |workers| > 1 {
      assert workers[..|workers| - 1][0] == workers[0];
      SomeoneLeft(workers[..|workers| - 1]);
    }
  }

  lemma WorkKeepsLeaves(s: State, cfg: Settings, step: Step)
    requires Inv(s, cfg) && LeavesFit(s) && WorkerEnabled(s.pool, s.gate, step)
    ensures LeavesFit(Next(s, cfg, step))
  {
    hide Conserved, WorkedLedger, CountLive, LockHolds, StopsFit;
  }

  lemma SendKeepsLeaves(s: State, cfg: Settings, step: Step)
    requires Inv(s, cfg) && LeavesFit(s) && SubmissionEnabled(s, step)
    ensures LeavesFit(Next(s, cfg, step))
  {
    hide Conserved, SentLedger, CountLive, StopsFit;
  }

  lemma StartKeepsLeaves(s: State, cfg: Settings, step: Step)
    requires Inv(s, cfg) && LeavesFit(s) && StartEnabled(s, step)
    ensures LeavesFit(Next(s, cfg, step))
  {
    hide Conserved, CountLive, StopsFit;
  }

  lemma StopKeepsLeaves(s: State, cfg: Settings, step: Step)
    requires Inv(s, cfg) && LeavesFit(s) && StopEnabled(s, step)
    ensures LeavesFit(Next(s, cfg, step))
  {
    hide Conserved, LockHolds, CountLive;
    if step.Return? && s.pool.workers != [] {
      SomeoneLeft(s.pool.workers);
    }
  }

  lemma NextKeepsLeaves(s: State, cfg: Settings, step: Step)
    requires Inv(s, cfg) && LeavesFit(s) && Enabled(s, step)
    ensures LeavesFit(Next(s, cfg, step))
  {
    if SubmissionEnabled(s, step) {
      SendKeepsLeaves(s, cfg, step);
    } else if StartEnabled(s, step) {
      StartKeepsLeaves(s, cfg, step);
    } else if StopEnabled(s, step) {
      StopKeepsLeaves(s, cfg, step);
    } else if WorkerEnabled(s.pool, s.gate, step) {
      WorkKeepsLeaves(s, cfg, step);
    }
  }

  lemma {:induction false} RunKeepsLeaves(states: seq<State>, cfg: Settings, steps: seq<Step>, i: nat)
    requires IsRun(states, cfg, steps) && i < |states|
    ensures LeavesFit(states[i])
  {
    if i > 0 {
      hide Inv, Enabled, Next, LeavesFit;
      RunKeepsLeaves(states, cfg, steps, i - 1);
      RunKeepsInv(states, cfg, steps, i - 1);
      RunMoves(states, cfg, steps, i - 1);
      hide IsRun;
      NextKeepsLeaves(states[i - 1], cfg, steps[i - 1]);
    }
  }

  lemma {:induction false} CancelledByTimeOut(states: seq<State>, cfg: Settings, steps: seq<Step>, i: nat)
    requires IsRun(states, cfg, steps) && i < |states|
    ensures states[i].gate.cancelled <==> exists k :: 0 <= k < i && steps[k].TimeOut?
  {
    if i > 0 {
      CancelledByTimeOut(states, cfg, steps, i - 1);
      RunMoves(states, cfg, steps, i - 1);
      hide IsRun;
      CancelledNext(states[i - 1], cfg, steps[i - 1]);
      hide Enabled, Next;
    }
  }

  lemma CancelledNext(s: State, cfg: Settings, step: Step)
    requires Enabled(s, step)
    ensures Next(s, cfg, step).gate.cancelled <==> s.gate.cancelled || step.TimeOut?
  {
    hide *;
    Kinds(s, step);
    if SubmissionEnabled(s, step) {
      SubmitLeaves(s, cfg, step);
    } else if StartEnabled(s, step) {
      LaunchLeaves(s, cfg, step);
    } else if StopEnabled(s, step) {
      StopLeaves(s, cfg, step);
    } else if WorkerEnabled(s.pool, s.gate, step) {
      WorkLeaves(s, cfg, step);
    } else {
      DrainLeaves(s, cfg);
    }
  }

  /** Clean shutdown, over every run in which no drain timed out: once workers were
      launched, a Stop that returns returns nil. */
  lemma UntimedStopIsClean(states: seq<State>, cfg: Settings, steps: seq<Step>, i: nat, t: Thread)
    requires IsRun(states, cfg, steps) && i < |states| && forall k :: 0 <= k < i ==> !steps[k].TimeOut?
    requires states[i].pool.workers != [] && t in states[i].stoppers && states[i].stoppers[t].Returned?
    ensures states[i].stoppers[t] == Returned(Clean)
  {
    RunKeepsLeaves(states, cfg, steps, i);
    CancelledByTimeOut(states, cfg, steps, i);
    hide IsRun;
  }

  // ----- Stop comes to an end

  /** A Stop that has been called has started the closing sequence, and its caller is
      there until it is over. */
  ghost predicate Led(g: Gate, stoppers: map<Thread, Stopper>) {
    && (stoppers != map[] ==> !g.once.Fresh?)
    && (!g.once.Fresh? && !g.once.Finished? ==> exists t :: t in stoppers && stoppers[t].Leading?)
  }

  lemma StopKeepsLed(s: State, step: Step)
    requires Led(s.gate, s.stoppers) && LeadersFit(s.gate, s.stoppers) && StopEnabled(s, step)
    ensures Led(Stopped(s, step).gate, Stopped(s, step).stoppers)
  {
    hide Advanced, NoReaders;
    var s' := Stopped(s, step);
    if !s'.gate.once.Fresh? && !s'.gate.once.Finished? {
      if step.Lead? || (step.Stop? && s.gate.once.Fresh?) {
        assert s'.stoppers[step.t].Leading?;
      } else {
        var t :| t in s.stoppers && s.stoppers[t].Leading?;
        assert t in s'.stoppers && s'.stoppers[t].Leading?;
      }
    }
  }

  lemma {:induction false} RunKeepsLed(states: seq<State>, cfg: Settings, steps: seq<Step>, i: nat)
    requires IsRun(states, cfg, steps) && i < |states|
    ensures Led(states[i].gate, states[i].stoppers)
  {
    hide *;
    Along(states, cfg, steps, i);
    if i > 0 {
      RunKeepsLed(states, cfg, steps, i - 1);
      var s := states[i - 1];
      LeadersOf(s, cfg);
      NextKeepsLed(s, cfg, steps[i - 1]);
    } else {
      NobodyLeads();
    }
  }

  lemma NobodyLeads()
    ensures Led(INITIAL.gate, INITIAL.stoppers)
  {
  }

  lemma LeadersOf(s: State, cfg: Settings)
    requires Inv(s, cfg)
    ensures LeadersFit(s.gate, s.stoppers)
  {
    hide Conserved, FlagsMatch, LockHolds, PoolFits, DrainsFit;
  }

  lemma SameGateLed(s: State, s': State)
    requires Led(s.gate, s.stoppers) && s'.stoppers == s.stoppers && s'.gate.once == s.gate.once
    ensures Led(s'.gate, s'.stoppers)
  {
  }

  lemma NextKeepsLed(s: State, cfg: Settings, step: Step)
    requires Led(s.gate, s.stoppers) && LeadersFit(s.gate, s.stoppers) && Enabled(s, step)
    ensures Led(Next(s, cfg, step).gate, Next(s, cfg, step).stoppers)
  {
    hide *;
    Kinds(s, step);
    if StopEnabled(s, step) {
      StopLeaves(s, cfg, step);
      StopKeepsLed(s, step);
    } else {
      if SubmissionEnabled(s, step) {
        SubmitLeaves(s, cfg, step);
      } else if StartEnabled(s, step) {
        LaunchLeaves(s, cfg, step);
      } else if WorkerEnabled(s.pool, s.gate, step) {
        WorkLeaves(s, cfg, step);
      } else {
        DrainLeaves(s, cfg);
      }
      SameGateLed(s, Next(s, cfg, step));
    }
  }

  /** Not a new call, and not the end of a Stop's patience. */
  predicate Progress(step: Step) {
    !step.Submit? && !step.Start? && !step.Stop? && !step.TimeOut?
  }

  lemma LeaderCanGoOn(s: State, t: Thread) returns (step: Step)
    requires t in s.stoppers && s.stoppers[t].Leading?
    ensures Progress(step) && Enabled(s, step)
  {
    if s.gate.once != Signalled || NoReaders(s) {
      step := Lead(t);
    } else if u :| u in s.submissions && (s.submissions[u].Checking? || s.submissions[u].Sending?) {
      step := if s.submissions[u].Checking? then Check(u) else Send(u);
      assert SubmissionEnabled(s, step);
    } else {
      var u :| u in s.starters && (s.starters[u].Entered? || s.starters[u].Launching?);
      step := if s.starters[u].Entered? then CheckStart(u) else Launch(u);
      assert StartEnabled(s, step);
    }
  }

  lemma {:induction false} SomeoneLive(workers: seq<Worker>) returns (w: nat)
    requires CountLive(workers) != 0
    ensures w < |workers| && !workers[w].phase.Exited?
  {
    w := |workers| - 1;
    if workers[w].phase.Exited? {
      w := SomeoneLive(workers[..w]);
    }
  }

  lemma DrainCanGoOn(s: State, cfg: Settings, t: Thread) returns (step: Step)
    requires Inv(s, cfg) && t in s.stoppers && s.stoppers[t].Draining?
    ensures Progress(step) && Enabled(s, step)
  {
    hide Conserved, LockHolds, CountLive;
    if s.gate.finished {
      step := Observe(t);
      assert StopEnabled(s, step);
    } else if s.pool.running == 0 {
      step := Drain;
    } else {
      var w := SomeoneLive(s.pool.workers);
      step := WorkerStep(s, w);
      assert WorkerEnabled(s.pool, s.gate, step);
    }
  }

  /** Shutdown never gets stuck, over every run: until a Stop has returned, something can
      go on that is no new call and no running out of patience: its caller, the one it
      waits for, a reader of the lock, a worker, or the drain. */
  lemma ShutdownIsNeverStuck(states: seq<State>, cfg: Settings, steps: seq<Step>, i: nat, t: Thread) returns (step: Step)
    requires IsRun(states, cfg, steps) && i < |states|
    requires t in states[i].stoppers && !states[i].stoppers[t].Returned?
    ensures Progress(step) && Enabled(states[i], step)
  {
    RunKeepsLed(states, cfg, steps, i);
    RunKeepsInv(states, cfg, steps, i);
    var s := states[i];
    hide IsRun, Conserved, LockHolds, PoolFits, FlagsMatch, LeadersFit, DrainsFit, Enabled, Progress;
    assert s.stoppers != map[];
    match s.stoppers[t]
    case Leading => step := LeaderCanGoOn(s, t);
    case Blocked =>
      if s.gate.once.Finished? {
        step := Join(t);
        JoinCanGoOn(s, t);
      } else {
        var u :| u in s.stoppers && s.stoppers[u].Leading?;
        step := LeaderCanGoOn(s, u);
      }
    case Draining => step := DrainCanGoOn(s, cfg, t);
    case Observed =>
      step := Return(t);
      ReturnCanGoOn(s, t);
  }

  lemma JoinCanGoOn(s: State, t: Thread)
    requires t in s.stoppers && s.stoppers[t].Blocked? && s.gate.once.Finished?
    ensures Progress(Join(t)) && Enabled(s, Join(t))
  {
    assert StopEnabled(s, Join(t));
  }

  lemma ReturnCanGoOn(s: State, t: Thread)
    requires t in s.stoppers && s.stoppers[t].Observed?
    ensures Progress(Return(t)) && Enabled(s, Return(t))
  {
    assert StopEnabled(s, Return(t));
  }

  // ----- the workers come to rest

  /** How many steps a worker in this phase can take before it is done with what it has, if
      the handler may be tried this often. */
  function Remaining(phase: Phase, maxAttempts: nat): nat {
    match phase
    case Idle => 2
    case Receiving => 1
    case Running(_, n) => if n <= maxAttempts then 2 * (maxAttempts - n) + 3 else 3
    case Backoff(_, n) => if n <= maxAttempts then 2 * (maxAttempts - n) + 2 else 2
    case Exited => 0
  }

  function RemainingIn(workers: seq<Worker>, maxAttempts: nat): nat {
    if workers == [] then 0
    else RemainingIn(workers[..|workers| - 1], maxAttempts) + Remaining(workers[|workers| - 1].phase, maxAttempts)
  }

  /** What is left to do for the queue: for its workers, and for each queued job. */
  function Work(p: Pool, maxAttempts: nat): nat {
    RemainingIn(p.workers, maxAttempts) + (2 * maxAttempts + 1) * |p.jobs|
  }

  lemma {:induction false} RemainingUpdate(workers: seq<Worker>, i: nat, w: Worker, maxAttempts: nat)
    requires i < |workers|
    ensures RemainingIn(workers[i := w], maxAttempts) + Remaining(workers[i].phase, maxAttempts)
         == RemainingIn(workers, maxAttempts) + Remaining(w.phase, maxAttempts)
  {
    hide Remaining;
    var n := |workers| - 1;
    if i < n {
      assert workers[i := w][..n] == workers[..n][i := w];
      RemainingUpdate(workers[..n], i, w, maxAttempts);
    } else {
      assert workers[i := w][..n] == workers[..n];
    }
  }

  /** Every step of a worker uses up some of it. */
  lemma WorkIsUsedUp(s: State, cfg: Settings, step: Step)
    requires WorkerEnabled(s.pool, s.gate, step) && PoolFits(s.pool, s.gate, cfg) && cfg.maxAttempts > 0
    ensures Work(WorkedPool(s.pool, s.gate, cfg, step), cfg.maxAttempts) < Work(s.pool, cfg.maxAttempts)
  {
    hide CountLive, RemainingIn;
    assert WorkerFits(s.pool.workers[step.w], s.gate.cancelled, cfg.maxAttempts);
    RemainingUpdate(s.pool.workers, step.w, WorkerNext(s.pool, s.gate, cfg, step), cfg.maxAttempts);
    WorkerGetsOn(s.pool, s.gate, cfg, step);
    if step.Receive? && s.pool.jobs != [] {
      Distributes(2 * cfg.maxAttempts + 1, |s.pool.jobs| - 1, 1);
    }
    hide Remaining, WorkerNext;
  }

  lemma WorkerGetsOn(p: Pool, g: Gate, cfg: Settings, step: Step)
    requires WorkerEnabled(p, g, step) && WorkerFits(p.workers[step.w], g.cancelled, cfg.maxAttempts) && cfg.maxAttempts > 0
    ensures Remaining(WorkerNext(p, g, cfg, step).phase, cfg.maxAttempts) <
            Remaining(p.workers[step.w].phase, cfg.maxAttempts)
            + if step.Receive? && p.jobs != [] then 2 * cfg.maxAttempts + 1 else 0
  {
  }

  /** The steps of workers so far, the accepted jobs, and the workers launched. */
  function WorkerSteps(steps: seq<Step>, i: nat): nat
    requires i <= |steps|
  {
    if i == 0 then 0 else WorkerSteps(steps, i - 1) + if OfWorker(steps[i - 1]) then 1 else 0
  }

  function Credit(jobs: nat, workers: nat, maxAttempts: nat): nat {
    (2 * maxAttempts + 1) * jobs + 2 * workers
  }

  lemma LaunchedRemaining(workers: seq<Worker>, maxAttempts: nat)
    ensures RemainingIn(workers + [Worker(Idle, 0)], maxAttempts) == RemainingIn(workers, maxAttempts) + 2
  {
    assert (workers + [Worker(Idle, 0)])[..|workers|] == workers;
  }

  /** What a step adds to the work is paid for by the jobs and workers it adds. */
  ghost predicate Pays(s: State, cfg: Settings, step: Step, s': State) {
    Work(s'.pool, cfg.maxAttempts) + (if OfWorker(step) then 1 else 0) + Credit(0, |s.pool.workers|, cfg.maxAttempts)
    <= Work(s.pool, cfg.maxAttempts) + Credit(|SentIn(s, step, s')|, |s'.pool.workers|, cfg.maxAttempts)
  }

  lemma SendPays(s: State, cfg: Settings, step: Step)
    requires SubmissionEnabled(s, step) && Enabled(s, step)
    ensures Pays(s, cfg, step, Next(s, cfg, step))
  {
    hide *;
    SubmitLeaves(s, cfg, step);
    SendIsFifo(s, cfg, step);
    PaidBySending(s, cfg, step, Next(s, cfg, step));
  }

  lemma Distributes(n: nat, a: nat, b: nat)
    ensures n * (a + b) == n * a + n * b
  {
  }

  lemma PaidBySending(s: State, cfg: Settings, step: Step, s': State)
    requires !OfWorker(step) && s'.pool.workers == s.pool.workers && s'.pool.jobs == s.pool.jobs + SentIn(s, step, s')
    ensures Pays(s, cfg, step, s')
  {
    hide SentIn, RemainingIn;
    Distributes(2 * cfg.maxAttempts + 1, |s.pool.jobs|, |SentIn(s, step, s')|);
  }

  lemma PaidByNothing(s: State, cfg: Settings, step: Step, s': State)
    requires !OfWorker(step) && s'.pool == s.pool
    ensures Pays(s, cfg, step, s')
  {
  }

  lemma PaidByLaunching(s: State, cfg: Settings, step: Step, s': State)
    requires !OfWorker(step) && s'.pool == LaunchedPool(s.pool)
    ensures Pays(s, cfg, step, s')
  {
    hide RemainingIn;
    LaunchedRemaining(s.pool.workers, cfg.maxAttempts);
  }

  lemma PaidByWorking(s: State, cfg: Settings, step: Step, s': State)
    requires Work(s'.pool, cfg.maxAttempts) < Work(s.pool, cfg.maxAttempts) && |s'.pool.workers| == |s.pool.workers|
    ensures Pays(s, cfg, step, s')
  {
    hide Work;
  }

  lemma NextPays(s: State, cfg: Settings, step: Step)
    requires Enabled(s, step) && PoolFits(s.pool, s.gate, cfg) && cfg.maxAttempts > 0
    ensures Pays(s, cfg, step, Next(s, cfg, step))
  {
    hide *;
    Kinds(s, step);
    var s' := Next(s, cfg, step);
    if SubmissionEnabled(s, step) {
      SendPays(s, cfg, step);
    } else if StartEnabled(s, step) {
      LaunchLeaves(s, cfg, step);
      if s'.pool == s.pool {
        PaidByNothing(s, cfg, step, s');
      } else {
        PaidByLaunching(s, cfg, step, s');
      }
    } else if StopEnabled(s, step) {
      StopLeaves(s, cfg, step);
      PaidByNothing(s, cfg, step, s');
    } else if WorkerEnabled(s.pool, s.gate, step) {
      WorkLeaves(s, cfg, step);
      WorkIsUsedUp(s, cfg, step);
      PaidByWorking(s, cfg, step, s');
    } else {
      DrainLeaves(s, cfg);
      PaidByNothing(s, cfg, step, s');
    }
  }

  lemma CreditAdds(states: seq<State>, cfg: Settings, steps: seq<Step>, i: nat)
    requires Within(states, steps, i) && i > 0 && Pays(states[i - 1], cfg, steps[i - 1], states[i])
    requires WorkerSteps(steps, i - 1) + Work(states[i - 1].pool, cfg.maxAttempts)
             <= Credit(|Sent(states, steps, i - 1)|, |states[i - 1].pool.workers|, cfg.maxAttempts)
    ensures WorkerSteps(steps, i) + Work(states[i].pool, cfg.maxAttempts)
            <= Credit(|Sent(states, steps, i)|, |states[i].pool.workers|, cfg.maxAttempts)
  {
    hide SentIn, Work;
    Distributes(2 * cfg.maxAttempts + 1, |Sent(states, steps, i - 1)|, |SentIn(states[i - 1], steps[i - 1], states[i])|);
  }

  /** The workers come to rest, in every run: for each accepted job they take at most two
      steps per attempt and one more, and two for each worker. */
  lemma {:induction false} WorkersComeToRest(states: seq<State>, cfg: Settings, steps: seq<Step>, i: nat)
    requires IsRun(states, cfg, steps) && i < |states|
    ensures Within(states, steps, i)
    ensures WorkerSteps(steps, i) + Work(states[i].pool, cfg.maxAttempts)
            <= Credit(|Sent(states, steps, i)|, |states[i].pool.workers|, cfg.maxAttempts)
  {
    hide *;
    Along(states, cfg, steps, i);
    if i > 0 {
      WorkersComeToRest(states, cfg, steps, i - 1);
      NextPays(states[i - 1], cfg, steps[i - 1]);
      CreditAdds(states, cfg, steps, i);
    } else {
      NoWork(states, steps, cfg);
    }
  }

  lemma NoWork(states: seq<State>, steps: seq<Step>, cfg: Settings)
    requires Within(states, steps, 0) && states[0] == INITIAL
    ensures WorkerSteps(steps, 0) + Work(states[0].pool, cfg.maxAttempts) <= Credit(|Sent(states, steps, 0)|, 0, cfg.maxAttempts)
    ensures |states[0].pool.workers| == 0
  {
  }

  /** No job is let go before shutdown begins. */
  lemma {:induction false} LetGoInShutdown(states: seq<State>, cfg: Settings, steps: seq<Step>, i: nat)
    requires IsRun(states, cfg, steps) && i < |states|
    ensures states[i].ledger.abandoned != multiset{} ==> states[i].gate.shutdown
  {
    hide *;
    Along(states, cfg, steps, i);
    if i > 0 {
      LetGoInShutdown(states, cfg, steps, i - 1);
      NextLetsGo(states[i - 1], cfg, steps[i - 1]);
    } else {
      NothingLetGo();
    }
  }

  lemma NothingLetGo()
    ensures INITIAL.ledger.abandoned == multiset{}
  {
  }

  lemma NextLetsGo(s: State, cfg: Settings, step: Step)
    requires Enabled(s, step) && PoolFits(s.pool, s.gate, cfg)
    ensures var s' := Next(s, cfg, step);
            s'.ledger.abandoned == s.ledger.abandoned || s'.gate.shutdown
    ensures s.gate.shutdown ==> Next(s, cfg, step).gate.shutdown
  {
    hide *;
    Kinds(s, step);
    if SubmissionEnabled(s, step) {
      SubmitLeaves(s, cfg, step);
      SubmittedLedger(s, cfg, step);
    } else if StartEnabled(s, step) {
      LaunchLeaves(s, cfg, step);
    } else if StopEnabled(s, step) {
      StopLeaves(s, cfg, step);
      GateKeepsShutdown(s.gate, step);
    } else if WorkerEnabled(s.pool, s.gate, step) {
      WorkLeaves(s, cfg, step);
      WorkLetsGo(s, cfg, step);
    } else {
      DrainLeaves(s, cfg);
    }
  }

  lemma GateKeepsShutdown(g: Gate, step: Step)
    ensures g.shutdown ==> GateNext(g, step).shutdown
  {
    hide Advanced;
  }

  lemma WorkLetsGo(s: State, cfg: Settings, step: Step)
    requires WorkerEnabled(s.pool, s.gate, step)
    ensures WorkedLedger(s.ledger, s.pool, s.gate, cfg, step).abandoned == s.ledger.abandoned || s.gate.shutdown
  {
  }

  // ----- what Start launches

  /** The Start that launches has launched all workers so far, or all there are to be. */
  ghost predicate LaunchFits(s: State, cfg: Settings) {
    && (!s.gate.started ==> s.pool.workers == [])
    && (forall t :: t in s.starters && s.starters[t].Launching? ==>
          s.gate.started && s.starters[t].launched == |s.pool.workers| <= cfg.workers)
    && (forall t, u :: t in s.starters && u in s.starters && s.starters[t].Launching? && s.starters[u].Launching? ==> t == u)
    && (s.gate.started ==> |s.pool.workers| == cfg.workers || exists t :: t in s.starters && s.starters[t].Launching?)
  }

  lemma LaunchKeepsLaunch(s: State, cfg: Settings, step: Step)
    requires LaunchFits(s, cfg) && StartEnabled(s, step)
    ensures LaunchFits(Launched(s, cfg, step), cfg)
  {
    var s' := Launched(s, cfg, step);
    if s'.gate.started && |s'.pool.workers| != cfg.workers {
      var t :| t in s'.starters && (s'.starters[t].Launching? || (t in s.starters && s.starters[t].Launching?));
      assert s'.starters[t].Launching? || step == Launch(t);
    }
  }

  lemma SameLaunch(s: State, cfg: Settings, s': State)
    requires LaunchFits(s, cfg) && s'.starters == s.starters
    requires s'.gate.started == s.gate.started && |s'.pool.workers| == |s.pool.workers|
    ensures LaunchFits(s', cfg)
  {
  }

  lemma NextKeepsLaunch(s: State, cfg: Settings, step: Step)
    requires LaunchFits(s, cfg) && Enabled(s, step)
    ensures LaunchFits(Next(s, cfg, step), cfg)
  {
    hide *;
    Kinds(s, step);
    if StartEnabled(s, step) {
      LaunchLeaves(s, cfg, step);
      LaunchKeepsLaunch(s, cfg, step);
    } else {
      if SubmissionEnabled(s, step) {
        SubmitLeaves(s, cfg, step);
      } else if StopEnabled(s, step) {
        StopLeaves(s, cfg, step);
      } else if WorkerEnabled(s.pool, s.gate, step) {
        WorkLeaves(s, cfg, step);
      } else {
        DrainLeaves(s, cfg);
      }
      SameLaunch(s, cfg, Next(s, cfg, step));
    }
  }

  lemma {:induction false} RunKeepsLaunch(states: seq<State>, cfg: Settings, steps: seq<Step>, i: nat)
    requires IsRun(states, cfg, steps) && i < |states|
    ensures LaunchFits(states[i], cfg)
  {
    if i > 0 {
      hide Enabled, Next, LaunchFits;
      RunKeepsLaunch(states, cfg, steps, i - 1);
      RunMoves(states, cfg, steps, i - 1);
      hide IsRun;
      NextKeepsLaunch(states[i - 1], cfg, steps[i - 1]);
    }
  }

  /** However many calls of Start there are, the workers are launched once, all of them:
      there are never more than there are to be, and as many when no Start is at it. */
  lemma WorkersAreLaunchedOnce(states: seq<State>, cfg: Settings, steps: seq<Step>, i: nat)
    requires IsRun(states, cfg, steps) && i < |states|
    ensures var s := states[i];
            && |s.pool.workers| <= cfg.workers
            && (s.gate.started && (forall t :: t in s.starters ==> !s.starters[t].Launching?) ==>
                  |s.pool.workers| == cfg.workers)
  {
    RunKeepsLaunch(states, cfg, steps, i);
    hide IsRun;
  }

  // ----- what Enqueue says

  /** The step that answers a call, for each answer. */
  ghost predicate Explains(s: State, cfg: Settings, step: Step, t: Thread, reply: Reply) {
    match reply
    case ContextDone => step.Submit? && step.t == t && step.contextDone
    case NoHandler =>
      step.Submit? && step.t == t && !step.contextDone && (step.job.name == "" || step.job.name !in cfg.handlers)
    case Closed => step == Check(t) && s.gate.closed
    case Full => step == Send(t) && |s.pool.jobs| >= cfg.buffer
    case Accepted => step == Send(t) && |s.pool.jobs| < cfg.buffer
  }

  /** A call of Enqueue is answered for the reason it is told, and as soon as there is
      one. */
  lemma RepliesAreTrue(states: seq<State>, cfg: Settings, steps: seq<Step>, i: nat, t: Thread, reply: Reply)
    requires IsRun(states, cfg, steps) && i < |steps|
    requires t !in states[i].submissions || !states[i].submissions[t].Answered?
    ensures t in states[i + 1].submissions && states[i + 1].submissions[t] == Answered(reply) <==>
            Explains(states[i], cfg, steps[i], t, reply)
  {
    RunMoves(states, cfg, steps, i);
    hide IsRun, WorkedPool, WorkedLedger, SentPool, SentLedger, LaunchedPool;
  }

  /** What has been submitted and not refused has a handler. */
  ghost predicate Handleable(s: State, cfg: Settings) {
    && (forall t :: t in s.submissions && !s.submissions[t].Answered? ==> Known(cfg, s.submissions[t].job))
    && forall job :: job in s.ledger.accepted ==> Known(cfg, job)
  }

  predicate Known(cfg: Settings, job: Job) {
    job.name != "" && job.name in cfg.handlers
  }

  lemma SubmitKeepsHandleable(s: State, cfg: Settings, step: Step)
    requires Handleable(s, cfg) && SubmissionEnabled(s, step)
    ensures Handleable(Submitted(s, cfg, step), cfg)
  {
    hide SentPool;
  }

  lemma {:induction false} AcceptedHasHandler(states: seq<State>, cfg: Settings, steps: seq<Step>, i: nat)
    requires IsRun(states, cfg, steps) && i < |states|
    ensures Handleable(states[i], cfg)
  {
    if i > 0 {
      hide Handleable, WorkedPool, Submitted, LaunchedPool, Stopped;
      AcceptedHasHandler(states, cfg, steps, i - 1);
      RunMoves(states, cfg, steps, i - 1);
      hide IsRun;
      var s, step := states[i - 1], steps[i - 1];
      if SubmissionEnabled(s, step) {
        SubmitKeepsHandleable(s, cfg, step);
      } else {
        OthersKeepHandleable(s, cfg, step);
      }
    }
  }

  lemma SameHandleable(s: State, cfg: Settings, s': State)
    requires Handleable(s, cfg) && s'.submissions == s.submissions && s'.ledger.accepted == s.ledger.accepted
    ensures Handleable(s', cfg)
  {
  }

  lemma OthersKeepHandleable(s: State, cfg: Settings, step: Step)
    requires Handleable(s, cfg) && Enabled(s, step) && !SubmissionEnabled(s, step)
    ensures Handleable(Next(s, cfg, step), cfg)
  {
    hide *;
    Kinds(s, step);
    if StartEnabled(s, step) {
      LaunchLeaves(s, cfg, step);
    } else if StopEnabled(s, step) {
      StopLeaves(s, cfg, step);
    } else if WorkerEnabled(s.pool, s.gate, step) {
      WorkLeaves(s, cfg, step);
    } else {
      DrainLeaves(s, cfg);
    }
    SameHandleable(s, cfg, Next(s, cfg, step));
  }
}
