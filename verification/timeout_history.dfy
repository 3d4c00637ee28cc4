/**
  What a request gets from the timeout middleware (middleware/timeout.go), by what the
  handler did: its writes, the headers as it had set them when it first wrote, and its
  panic.
  */
module TimeoutHistory {
  import opened Wrappers
  import opened TimeoutSpec
  import opened TimeoutRace

  predicate Writes(step: Step) {
    step.CallWriteHeader? || step.CallWrite?
  }

  /** The handler's writes in the first i steps. */
  function Outputs(steps: seq<Step>, i: nat): seq<Output>
    requires i <= |steps|
  {
    if i == 0 then []
    else match steps[i - 1]
      case CallWriteHeader(status) => Outputs(steps, i - 1) + [Status(status)]
      case CallWrite(content) => Outputs(steps, i - 1) + [Body(content)]
      case _ => Outputs(steps, i - 1)
  }

  /** The headers it has set in the first i steps. */
  function HeadersSet(steps: seq<Step>, i: nat): Headers
    requires i <= |steps|
  {
    if i == 0 then map[]
    else match steps[i - 1]
      case SetHeader(name, value) => HeadersSet(steps, i - 1)[name := value]
      case _ => HeadersSet(steps, i - 1)
  }

  /** The headers it had set when it first wrote. */
  function FirstHeaders(steps: seq<Step>, i: nat): Option<Headers>
    requires i <= |steps|
  {
    if i == 0 then None
    else if FirstHeaders(steps, i - 1).Some? then FirstHeaders(steps, i - 1)
    else if Writes(steps[i - 1]) then Some(HeadersSet(steps, i - 1))
    else None
  }

  /** How it ended, if it did. */
  function EndedWith(steps: seq<Step>, i: nat): Option<Option<Panic>>
    requires i <= |steps|
  {
    if i == 0 then None
    else match steps[i - 1]
      case Return => Some(None)
      case Throw(panic) => Some(Some(panic))
      case _ => EndedWith(steps, i - 1)
  }

  predicate Before(steps: seq<Step>, i: nat, step: Step)
    requires i <= |steps|
  {
    step in steps[..i]
  }

  lemma BeforeNext(steps: seq<Step>, i: nat, step: Step)
    requires 0 < i <= |steps|
    ensures Before(steps, i, step) <==> Before(steps, i - 1, step) || steps[i - 1] == step
  {
    assert steps[..i] == steps[..i - 1] + [steps[i - 1]];
  }

  /** A state of a run is what its steps say. */
  ghost predicate Told(s: State, steps: seq<Step>, i: nat)
    requires i <= |steps|
  {
    && s.calls == Outputs(steps, i) && s.writer.header == HeadersSet(steps, i) && s.left == EndedWith(steps, i)
    && (Late(s) <==> Before(steps, i, Deadline)) && (s.writer.hijacked <==> Before(steps, i, MarkHijacked))
  }

  lemma NextTells(s: State, document: Headers, steps: seq<Step>, i: nat)
    requires 0 < i <= |steps| && Told(s, steps, i - 1) && Enabled(s, steps[i - 1])
    ensures Told(Next(s, document, steps[i - 1]), steps, i)
  {
    NextCalls(s, document, steps, i);
    NextEnds(s, document, steps, i);
    NextIsLate(s, document, steps[i - 1]);
    BeforeNext(steps, i, Deadline);
    BeforeNext(steps, i, MarkHijacked);
    hide Before, Next, Enabled, Outputs, HeadersSet, EndedWith;
  }

  lemma NextCalls(s: State, document: Headers, steps: seq<Step>, i: nat)
    requires 0 < i <= |steps| && Enabled(s, steps[i - 1])
    requires s.calls == Outputs(steps, i - 1) && s.writer.header == HeadersSet(steps, i - 1)
    ensures var s' := Next(s, document, steps[i - 1]);
            s'.calls == Outputs(steps, i) && s'.writer.header == HeadersSet(steps, i)
  {
  }

  lemma NextEnds(s: State, document: Headers, steps: seq<Step>, i: nat)
    requires 0 < i <= |steps| && Enabled(s, steps[i - 1]) && s.left == EndedWith(steps, i - 1)
    ensures Next(s, document, steps[i - 1]).left == EndedWith(steps, i)
  {
  }

  lemma NextIsLate(s: State, document: Headers, step: Step)
    requires Enabled(s, step)
    ensures var s' := Next(s, document, step);
            && (Late(s') <==> Late(s) || step == Deadline) && (s'.writer.hijacked <==> s.writer.hijacked || step == MarkHijacked)
  {
  }

  lemma {:induction false} RunIsTold(states: seq<State>, inner: Headers, document: Headers, steps: seq<Step>, i: nat)
    requires IsRun(states, inner, document, steps) && i < |states|
    ensures Told(states[i], steps, i)
  {
    if i > 0 {
      hide Enabled, Next, Told;
      RunIsTold(states, inner, document, steps, i - 1);
      assert Moves(states[i - 1], document, steps[i - 1], states[i]);
      NextTells(states[i - 1], document, steps, i);
    }
  }

  /** While it is in time and has the connection, the handler's first write commits the
      response, under the headers of that moment, and nothing else does. */
  ghost predicate Committed(s: State, steps: seq<Step>, i: nat)
    requires i <= |steps|
  {
    !Late(s) && !s.writer.hijacked && !s.request.Ended? ==>
      s.sent == FirstHeaders(steps, i) && (s.writer.committed <==> FirstHeaders(steps, i).Some?)
  }

  lemma NextCommits(s: State, document: Headers, steps: seq<Step>, i: nat)
    requires 0 < i <= |steps| && Told(s, steps, i - 1) && Committed(s, steps, i - 1) && Enabled(s, steps[i - 1])
    requires Served(s)
    ensures Committed(Next(s, document, steps[i - 1]), steps, i)
  {
    hide Before, Outputs, HeadersSet, EndedWith;
    if Writes(steps[i - 1]) {
      if !Late(s) && !s.writer.hijacked {
        WriteCommits(s, document, steps[i - 1]);
      }
    } else {
      OthersCommitNothing(s, document, steps[i - 1]);
    }
    NextIsLate(s, document, steps[i - 1]);
    hide Next, Enabled;
  }

  lemma WriteCommits(s: State, document: Headers, step: Step)
    requires Enabled(s, step) && Writes(step) && !Late(s) && !s.writer.hijacked
    ensures var s' := Next(s, document, step);
            && s'.writer.committed && s'.request == s.request
            && s'.sent == if s.writer.committed then s.sent else Some(s.writer.header)
  {
  }

  lemma OthersCommitNothing(s: State, document: Headers, step: Step)
    requires Enabled(s, step) && !Writes(step) && Served(s)
    ensures var s' := Next(s, document, step);
            s.request.Ended? || s'.request.Ended? || (s'.sent == s.sent && s'.writer.committed == s.writer.committed)
    ensures s.request.Ended? ==> Next(s, document, step).request.Ended?
  {
  }

  lemma {:induction false} RunIsCommitted(states: seq<State>, inner: Headers, document: Headers, steps: seq<Step>, i: nat)
    requires IsRun(states, inner, document, steps) && i < |states|
    ensures Committed(states[i], steps, i)
  {
    if i > 0 {
      hide Enabled, Next, Told, Committed, Owned, Prompt, Served, Forwarded, Flagged;
      RunIsCommitted(states, inner, document, steps, i - 1);
      RunIsTold(states, inner, document, steps, i - 1);
      RunKeepsInv(states, inner, document, steps, i - 1);
      assert Moves(states[i - 1], document, steps[i - 1], states[i]);
      NextCommits(states[i - 1], document, steps, i);
    }
  }

  lemma FinishCommits(s: State, document: Headers, steps: seq<Step>, i: nat)
    requires i < |steps| && Told(s, steps, i) && Committed(s, steps, i) && Enabled(s, Finish)
    requires !Late(s) && !s.writer.hijacked
    ensures var s' := Next(s, document, Finish);
            && s'.writer.committed && s'.onTime == s.onTime && s'.calls == s.calls && !Late(s') && !s'.writer.hijacked
            && s'.sent == Some(if FirstHeaders(steps, i).Some? then FirstHeaders(steps, i).value else HeadersSet(steps, i))
            && s'.request == Ended(s.request.recovered)
  {
    hide Before, Outputs, HeadersSet, EndedWith;
  }

  /** The response of a request that finishes in time: everything the handler wrote, under
      the headers it had set when it first wrote, or by the end if it wrote nothing; and its
      panic, if it panicked, goes on. */
  lemma FinishedInTime(states: seq<State>, inner: Headers, document: Headers, steps: seq<Step>, i: nat)
    requires IsRun(states, inner, document, steps) && i < |steps| && steps[i] == Finish
    requires !Before(steps, i, Deadline) && !Before(steps, i, MarkHijacked)
    ensures var w := states[i + 1].writer;
            && w.committed && w.log == Delivered(Outputs(steps, i))
            && w.headers == inner + match FirstHeaders(steps, i) case Some(h) => h case None => HeadersSet(steps, i)
    ensures states[i + 1].request.Ended? && EndedWith(steps, i) == Some(states[i + 1].request.panic)
  {
    RunIsTold(states, inner, document, steps, i);
    RunIsCommitted(states, inner, document, steps, i);
    RunKeepsInv(states, inner, document, steps, i);
    assert Moves(states[i], document, steps[i], states[i + 1]);
    hide Enabled, Next, Owned, Prompt, Served, Delivered, FirstHeaders, HeadersSet, Outputs, EndedWith;
    FinishCommits(states[i], document, steps, i);
    OneOwner(states, inner, document, steps, i + 1);
    NoDocumentInTime(states, inner, document, steps, i + 1);
  }

  lemma NoDocumentInTime(states: seq<State>, inner: Headers, document: Headers, steps: seq<Step>, i: nat)
    requires IsRun(states, inner, document, steps) && i < |states| && !Late(states[i])
    ensures Document !in states[i].writer.log
  {
    hide IsRun;
    OneOwner(states, inner, document, steps, i);
  }

  /** Panics by the handler's steps, over every run: a request panics only with what the
      handler panicked with, and one that ends quietly after a panic ended late. */
  lemma PanicsAreTheHandlers(states: seq<State>, inner: Headers, document: Headers, steps: seq<Step>, i: nat)
    requires IsRun(states, inner, document, steps) && i < |states| && states[i].request.Ended?
    ensures var panic := states[i].request.panic;
            && (panic.Some? ==> EndedWith(steps, i) == Some(panic))
            && (panic.None? && EndedWith(steps, i).Some? && EndedWith(steps, i).value.Some? ==> Before(steps, i, Deadline))
  {
    hide Owned, Prompt, Served, Before, EndedWith;
    RunIsTold(states, inner, document, steps, i);
    PanicsAreForwarded(states, inner, document, steps, i);
  }

  /** What the deferred function does with a panic, over every run: it keeps one to itself
      exactly when the deadline has passed by then, and otherwise is about to send how the
      handler ended. */
  lemma RecoverSwallowsExactly(states: seq<State>, inner: Headers, document: Headers, steps: seq<Step>, i: nat)
    requires IsRun(states, inner, document, steps) && i < |steps| && steps[i] == Recover
    ensures EndedWith(steps, i).Some?
    ensures states[i + 1].handler ==
            if EndedWith(steps, i).value.Some? && Before(steps, i, Deadline) then Left else Sending(EndedWith(steps, i).value)
  {
    hide Owned, Prompt, Served, Before, EndedWith;
    RunIsTold(states, inner, document, steps, i);
    RunKeepsInv(states, inner, document, steps, i);
    assert Moves(states[i], document, steps[i], states[i + 1]);
  }
}
