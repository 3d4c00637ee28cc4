/**
  The timeout middleware (middleware/timeout.go): the response writer that
  serialises a handler against its deadline, and the two goroutines that race for
  it, one atomic step at a time.
  */
module TimeoutSpec {
  type Headers = map<string, string>

  /** What the real writer receives. `Document` is the rendered timeout response. */
  datatype Output = Status(status: int) | Body(content: string) | Document

  /** `headers` and `log` belong to the real writer, `header` to the handler. */
  datatype Writer = Writer(headers: Headers, log: seq<Output>, header: Headers, committed: bool, hijacked: bool)

  predicate Rejects(w: Writer, late: bool) {
    w.hijacked || late
  }

  function Commit(w: Writer): Writer {
    if w.committed then w else w.(committed := true, headers := w.headers + w.header)
  }

  function WriteHeader(w: Writer, late: bool, status: int): Writer {
    if w.committed || Rejects(w, late) then w
    else Commit(w).(log := w.log + [Status(status)])
  }

  function Write(w: Writer, late: bool, content: string): Writer {
    if Rejects(w, late) then w else Commit(w).(log := w.log + [Body(content)])
  }

  function CommitHeaders(w: Writer, late: bool): Writer {
    if w.committed || Rejects(w, late) then w else Commit(w)
  }

  /** `document` are the headers the error handler sets on the real writer. */
  function Expire(w: Writer, document: Headers): Writer {
    if w.committed || w.hijacked then w
    else w.(committed := true, log := w.log + [Document], headers := w.headers + document)
  }
}

/** The writer, updated in place. */
module TimeoutGuard {
  import opened TimeoutSpec

  /** Every method is one critical section under its mutex;
      `late` is whether the context's deadline has passed when it looks. */
  class TimeoutWriter {
    var headers: Headers
    var log: seq<Output>
    var header: Headers
    var committed: bool
    var hijacked: bool

    function Contents(): Writer
      reads this
    {
      Writer(headers, log, header, committed, hijacked)
    }

    constructor (inner: Headers)
      ensures Contents() == Writer(inner, [], map[], false, false)
    {
      headers, log, header, committed, hijacked := inner, [], map[], false, false;
    }

    method CommitLocked()
      modifies this
      ensures Contents() == Commit(old(Contents()))
    {
      if committed {
        return;
      }
      committed := true;
      headers := headers + header;
    }

    method WriteHeader(late: bool, status: int)
      modifies this
      ensures Contents() == TimeoutSpec.WriteHeader(old(Contents()), late, status)
    {
      if committed || hijacked || late {
        return;
      }
      CommitLocked();
      log := log + [Status(status)];
    }

    /** A rejected write still reports every byte as written; another reports what the
        real writer does, which is `accepted` bytes and whether it failed. */
    method Write(late: bool, content: string, accepted: nat, fails: bool) returns (n: nat, failed: bool)
      modifies this
      ensures Contents() == TimeoutSpec.Write(old(Contents()), late, content)
      ensures (n, failed) == if Rejects(old(Contents()), late) then (|content|, false) else (accepted, fails)
    {
      if hijacked || late {
        return |content|, false;
      }
      CommitLocked();
      log := log + [Body(content)];
      return accepted, fails;
    }

    method CommitHeaders(late: bool)
      modifies this
      ensures Contents() == TimeoutSpec.CommitHeaders(old(Contents()), late)
    {
      if committed || hijacked || late {
        return;
      }
      CommitLocked();
    }

    method Expire(document: Headers)
      modifies this
      ensures Contents() == TimeoutSpec.Expire(old(Contents()), document)
    {
      if committed || hijacked {
        return;
      }
      committed := true;
      log := log + [Document];
      headers := headers + document;
    }
  }
}

/** The middleware: a handler goroutine and a request goroutine around one writer. */
module TimeoutRace {
  import opened Wrappers
  import opened TimeoutSpec

  /** The context ends once, for one reason. */
  datatype Context = Running | Cancelled | DeadlineExceeded

  type Panic = string

  /** Taking: the connection is hijacked, the flag not yet set. Leaving and Sending
      are the deferred function, before and after its check. */
  datatype Handler = Serving | Taking | Leaving(recovered: Option<Panic>) | Sending(recovered: Option<Panic>) | Left

  datatype Request = Selecting | Expiring | Waiting | Finishing(recovered: Option<Panic>) | Ended(panic: Option<Panic>)

  /** `calls` are all the handler's writes, `onTime` those made before the deadline
      and before a hijack, `sent` its headers when its response was committed,
      `left` how it ended, and `taken` says that it has the connection. */
  datatype State = State(
    context: Context, writer: Writer, handler: Handler, request: Request, done: Option<Option<Panic>>,
    calls: seq<Output>, onTime: seq<Output>, sent: Option<Headers>, left: Option<Option<Panic>>, taken: bool)

  function Initial(inner: Headers): State {
    State(Running, Writer(inner, [], map[], false, false), Serving, Selecting, None, [], [], None, None, false)
  }

  datatype Step =
    | Deadline | Cancel
    | SetHeader(name: string, value: string) | CallWriteHeader(status: int) | CallWrite(content: string)
    | TakeConnection | MarkHijacked
    | Return | Throw(panic: Panic) | Recover | SendDone
    | SelectDone | SelectContext | Render | ReceiveDone | Finish

  predicate Late(s: State) {
    s.context == DeadlineExceeded
  }

  predicate Enabled(s: State, step: Step) {
    match step
    case Deadline => s.context == Running
    case Cancel => s.context == Running
    case SetHeader(_, _) => s.handler == Serving
    case CallWriteHeader(_) => s.handler == Serving
    case CallWrite(_) => s.handler == Serving
    case TakeConnection => s.handler == Serving
    case MarkHijacked => s.handler == Taking
    case Return => s.handler == Serving
    case Throw(_) => s.handler == Serving
    case Recover => s.handler.Leaving?
    case SendDone => s.handler.Sending?
    case SelectDone => s.request == Selecting && s.done.Some?
    case SelectContext => s.request == Selecting && s.context != Running
    case Render => s.request == Expiring
    case ReceiveDone => s.request == Waiting && s.done.Some?
    case Finish => s.request.Finishing?
  }

  /** A write by the handler, with what it does to the writer. */
  function Called(s: State, output: Output, writer: Writer): State {
    s.(writer := writer, calls := s.calls + [output],
       onTime := if Rejects(s.writer, Late(s)) then s.onTime else s.onTime + [output],
       sent := if writer.committed && !s.writer.committed then Some(s.writer.header) else s.sent)
  }

  function Finished(s: State): State
    requires s.request.Finishing?
  {
    var writer := CommitHeaders(s.writer, Late(s));
    s.(writer := writer, request := Ended(s.request.recovered),
       sent := if writer.committed && !s.writer.committed then Some(s.writer.header) else s.sent)
  }

  function Next(s: State, document: Headers, step: Step): State
    requires Enabled(s, step)
  {
    match step
    case Deadline => s.(context := DeadlineExceeded)
    case Cancel => s.(context := Cancelled)
    case SetHeader(name, value) => s.(writer := s.writer.(header := s.writer.header[name := value]))
    case CallWriteHeader(status) => Called(s, Status(status), WriteHeader(s.writer, Late(s), status))
    case CallWrite(content) => Called(s, Body(content), Write(s.writer, Late(s), content))
    case TakeConnection => s.(handler := Taking, taken := true)
    case MarkHijacked => s.(handler := Serving, writer := s.writer.(hijacked := true))
    case Return => s.(handler := Leaving(None), left := Some(None))
    case Throw(panic) => s.(handler := Leaving(Some(panic)), left := Some(Some(panic)))
    case Recover =>
      s.(handler := if s.handler.recovered.Some? && Late(s) then Left else Sending(s.handler.recovered))
    case SendDone => s.(handler := Left, done := Some(s.handler.recovered))
    case SelectDone => s.(request := Finishing(s.done.value), done := None)
    case SelectContext => s.(request := if Late(s) then Expiring else Waiting)
    case Render => s.(request := Ended(None), writer := Expire(s.writer, document))
    case ReceiveDone => s.(request := Finishing(s.done.value), done := None)
    case Finish => Finished(s)
  }

  /** The calls that reach a response: a status after the first call is superfluous. */
  function Delivered(calls: seq<Output>): (log: seq<Output>)
    ensures Document !in calls ==> Document !in log
  {
    if calls == [] then []
    else
      var rest, last := calls[..|calls| - 1], calls[|calls| - 1];
      if last.Status? && rest != [] then Delivered(rest) else Delivered(rest) + [last]
  }

  /** Nobody has the response yet. */
  predicate Unowned(s: State, inner: Headers) {
    !s.writer.committed && s.writer.log == [] && s.writer.headers == inner && s.onTime == [] && s.sent.None?
  }

  /** The handler has it: its writes before the deadline, under its headers. */
  predicate HandlerOwns(s: State, inner: Headers) {
    && s.writer.committed && s.writer.log == Delivered(s.onTime)
    && s.sent.Some? && s.writer.headers == inner + s.sent.value
  }

  /** The timeout has it: the document, and nothing of the handler's. */
  predicate TimeoutOwns(s: State, inner: Headers, document: Headers) {
    && s.writer.committed && s.writer.log == [Document] && s.writer.headers == inner + document
    && s.onTime == [] && s.sent.None? && Late(s)
  }

  ghost predicate Owned(s: State, inner: Headers, document: Headers) {
    Unowned(s, inner) || HandlerOwns(s, inner) || TimeoutOwns(s, inner, document)
  }

  /** `onTime` is a prefix of the handler's writes, and all of them until the
      deadline passes or the connection is hijacked. */
  ghost predicate Prompt(s: State) {
    && s.onTime <= s.calls && Document !in s.calls
    && (!Late(s) && !s.writer.hijacked ==> s.onTime == s.calls)
  }

  /** Nobody waits for an outcome that was not sent. */
  predicate Served(s: State) {
    && (s.request == Waiting ==> s.context == Cancelled)
    && (s.request == Expiring ==> Late(s))
    && (s.handler == Left && s.done.None? ==> Late(s) || s.request.Finishing? || s.request.Ended?)
    && (s.done.Some? || s.request.Finishing? ==> s.handler == Left)
    && (s.request.Ended? ==> s.handler == Left || Late(s))
    && (s.writer.committed && s.onTime == [] ==> s.handler == Left || Late(s))
  }

  /** A panic reaches the request goroutine, unless the timeout was answered. */
  predicate Forwarded(s: State) {
    && (s.handler.Leaving? || s.handler.Sending? ==> s.left == Some(s.handler.recovered))
    && (s.handler == Serving || s.handler == Taking ==> s.left.None?)
    && (s.handler == Left ==> s.left.Some?)
    && (s.done.Some? ==> s.done == s.left)
    && (s.request.Finishing? ==> s.left == Some(s.request.recovered))
    && (s.request.Ended? && s.request.panic.Some? ==> s.left == Some(s.request.panic))
    && (s.request == Ended(None) && s.left.Some? && s.left.value.Some? ==> Late(s))
  }

  /** The flag is late by one step: the handler has the connection when it is about to
      set the flag, or the flag is set. */
  predicate Flagged(s: State) {
    s.taken <==> s.handler == Taking || s.writer.hijacked
  }

  ghost predicate Inv(s: State, inner: Headers, document: Headers) {
    Owned(s, inner, document) && Prompt(s) && Served(s) && Forwarded(s) && Flagged(s)
  }

  lemma DeliveredNext(calls: seq<Output>, output: Output)
    ensures Delivered(calls + [output]) ==
            if output.Status? && calls != [] then Delivered(calls) else Delivered(calls) + [output]
  {
    assert (calls + [output])[..|calls|] == calls;
  }

  lemma NothingDelivered()
    ensures Delivered([]) == []
  {
  }

  lemma CallKeepsOwned(s: State, inner: Headers, document: Headers, output: Output, writer: Writer)
    requires Inv(s, inner, document) && s.handler == Serving && output != Document
    requires (output.Status? && writer == WriteHeader(s.writer, Late(s), output.status))
          || (output.Body? && writer == Write(s.writer, Late(s), output.content))
    ensures Owned(Called(s, output, writer), inner, document)
  {
    NothingDelivered();
    hide Delivered;
    DeliveredNext(s.onTime, output);
  }

  lemma NextKeepsOwned(s: State, inner: Headers, document: Headers, step: Step)
    requires Inv(s, inner, document) && Enabled(s, step)
    ensures Owned(Next(s, document, step), inner, document)
  {
    hide Delivered, Called;
    NothingDelivered();
    if step.CallWriteHeader? {
      CallKeepsOwned(s, inner, document, Status(step.status), WriteHeader(s.writer, Late(s), step.status));
    } else if step.CallWrite? {
      CallKeepsOwned(s, inner, document, Body(step.content), Write(s.writer, Late(s), step.content));
    }
  }

  lemma NextKeepsPrompt(s: State, document: Headers, step: Step)
    requires Prompt(s) && Enabled(s, step)
    ensures Prompt(Next(s, document, step))
  {
  }

  lemma NextKeepsServed(s: State, inner: Headers, document: Headers, step: Step)
    requires Inv(s, inner, document) && Enabled(s, step)
    ensures Served(Next(s, document, step))
  {
    hide Delivered;
  }

  lemma NextKeepsForwarded(s: State, inner: Headers, document: Headers, step: Step)
    requires Inv(s, inner, document) && Enabled(s, step)
    ensures Forwarded(Next(s, document, step))
  {
    hide Delivered, Owned, Prompt;
  }

  lemma NextKeepsFlagged(s: State, document: Headers, step: Step)
    requires Flagged(s) && Enabled(s, step)
    ensures Flagged(Next(s, document, step))
  {
  }

  // ----- every run

  ghost predicate IsRun(states: seq<State>, inner: Headers, document: Headers, steps: seq<Step>) {
    && |states| == |steps| + 1 && states[0] == Initial(inner)
    && (forall i, j :: 0 <= i < |steps| && j == i + 1 ==> Moves(states[i], document, steps[i], states[j]))
  }

  predicate Moves(s: State, document: Headers, step: Step, s': State) {
    Enabled(s, step) && s' == Next(s, document, step)
  }

  lemma {:induction false} RunKeepsInv(states: seq<State>, inner: Headers, document: Headers, steps: seq<Step>, i: nat)
    requires IsRun(states, inner, document, steps) && i < |states|
    ensures Inv(states[i], inner, document)
  {
    if i > 0 {
      hide Owned, Prompt, Served, Forwarded, Flagged, Enabled, Next;
      RunKeepsInv(states, inner, document, steps, i - 1);
      assert Moves(states[i - 1], document, steps[i - 1], states[i]);
      NextKeepsOwned(states[i - 1], inner, document, steps[i - 1]);
      NextKeepsPrompt(states[i - 1], document, steps[i - 1]);
      NextKeepsServed(states[i - 1], inner, document, steps[i - 1]);
      NextKeepsForwarded(states[i - 1], inner, document, steps[i - 1]);
      NextKeepsFlagged(states[i - 1], document, steps[i - 1]);
    }
  }

  /** One owner per response, in every interleaving: the real writer has received
      the handler's own writes from before the deadline and no document, or exactly
      the document and none of the handler's writes and headers. */
  lemma OneOwner(states: seq<State>, inner: Headers, document: Headers, steps: seq<Step>, i: nat)
    requires IsRun(states, inner, document, steps) && i < |states|
    ensures var s := states[i];
            && s.onTime <= s.calls && (!Late(s) && !s.writer.hijacked ==> s.onTime == s.calls)
            && ((s.writer.log == Delivered(s.onTime) && Document !in s.writer.log
                 && s.writer.headers == inner + if s.sent.Some? then s.sent.value else map[])
                || (s.writer.log == [Document] && s.onTime == [] && s.writer.headers == inner + document && Late(s)))
  {
    hide IsRun;
    RunKeepsInv(states, inner, document, steps, i);
    var s := states[i];
    assert inner + map[] == inner;
    assert Document !in s.onTime;
  }

  /** The request goroutine never waits for an outcome that will not come: it waits
      for one only after a cancellation that is not the deadline, and then a handler
      that has left has sent. */
  lemma NeverWaitsInVain(states: seq<State>, inner: Headers, document: Headers, steps: seq<Step>, i: nat)
    requires IsRun(states, inner, document, steps) && i < |states|
    requires states[i].handler == Left && !states[i].request.Ended?
    ensures exists step :: step in {SelectDone, SelectContext, Render, ReceiveDone, Finish} && Enabled(states[i], step)
  {
    hide IsRun, Delivered;
    RunKeepsInv(states, inner, document, steps, i);
    var s := states[i];
    var step := match s.request
      case Selecting => if s.done.Some? then SelectDone else SelectContext
      case Expiring => Render
      case Waiting => ReceiveDone
      case Finishing(_) => Finish
      case Ended(_) => Finish;
    assert Enabled(s, step);
  }

  /** A step that renders the document on a response nobody has. */
  predicate Renders(s: State, step: Step) {
    step == Render && !s.writer.committed && !s.writer.hijacked
  }

  lemma DocumentNext(s: State, document: Headers, step: Step)
    requires Enabled(s, step)
    ensures Document in Next(s, document, step).writer.log <==> Document in s.writer.log || Renders(s, step)
  {
  }

  predicate RenderedBefore(states: seq<State>, steps: seq<Step>, i: nat)
    requires i <= |steps| <= |states|
  {
    exists k :: 0 <= k < i && Renders(states[k], steps[k])
  }

  lemma RenderedBeforeNext(states: seq<State>, steps: seq<Step>, i: nat)
    requires 0 < i <= |steps| <= |states|
    ensures RenderedBefore(states, steps, i) <==> RenderedBefore(states, steps, i - 1) || Renders(states[i - 1], steps[i - 1])
  {
  }

  /** The document, over every run: it has been rendered exactly when some earlier step
      was a render that found the response neither committed nor hijacked. */
  lemma {:induction false} DocumentExactlyWhenRendered(states: seq<State>, inner: Headers, document: Headers,
                                                       steps: seq<Step>, i: nat)
    requires IsRun(states, inner, document, steps) && i < |states|
    ensures Document in states[i].writer.log <==> RenderedBefore(states, steps, i)
  {
    if i > 0 {
      hide Enabled, Next, Renders, RenderedBefore;
      DocumentExactlyWhenRendered(states, inner, document, steps, i - 1);
      assert Moves(states[i - 1], document, steps[i - 1], states[i]);
      DocumentNext(states[i - 1], document, steps[i - 1]);
      RenderedBeforeNext(states, steps, i);
    }
  }

  predicate Settling(s: State) {
    s.request.Finishing? || s.request.Ended?
  }

  lemma SettlingStays(s: State, document: Headers, step: Step)
    requires Enabled(s, step) && (step == SelectDone || Settling(s))
    ensures Settling(Next(s, document, step)) && step != Render
  {
  }

  /** An outcome that wins the select leaves no document, late or not: nothing renders
      one before or after. */
  lemma {:induction false} NoDocumentAfterDone(states: seq<State>, inner: Headers, document: Headers,
                                               steps: seq<Step>, j: nat, i: nat)
    requires IsRun(states, inner, document, steps) && j < i < |states| && steps[j] == SelectDone
    ensures Settling(states[i]) && Document !in states[i].writer.log
    decreases i
  {
    hide Next;
    assert Moves(states[i - 1], document, steps[i - 1], states[i]);
    if i == j + 1 {
      RenderedOnce(states, inner, document, steps, j);
    } else {
      NoDocumentAfterDone(states, inner, document, steps, j, i - 1);
    }
    SettlingStays(states[i - 1], document, steps[i - 1]);
    DocumentNext(states[i - 1], document, steps[i - 1]);
  }

  /** A late request without the document: the outcome is there before the deadline and
      wins the select after it, and nothing has been written. */
  lemma LateWithoutDocument(inner: Headers, document: Headers) returns (states: seq<State>)
    ensures IsRun(states, inner, document, [Return, Recover, SendDone, Deadline, SelectDone, Finish])
    ensures Late(states[6]) && states[6].request == Ended(None) && states[6].writer.log == []
            && !states[6].writer.committed
  {
    var s0 := Initial(inner);
    var s3 := s0.(handler := Left, done := Some(None), left := Some(None));
    var s1, s2 := SendsEarly(inner, document, s3);
    var s5 := s3.(context := DeadlineExceeded, request := Finishing(None), done := None);
    var s4 := SelectsLate(s3, document, s5);
    var s6 := s5.(request := Ended(None));
    assert Moves(s5, document, Finish, s6);
    hide Next, Enabled;
    states := [s0, s1, s2, s3, s4, s5, s6];
  }

  lemma SendsEarly(inner: Headers, document: Headers, s3: State) returns (s1: State, s2: State)
    requires s3 == Initial(inner).(handler := Left, done := Some(None), left := Some(None))
    ensures Moves(Initial(inner), document, Return, s1) && Moves(s1, document, Recover, s2) && Moves(s2, document, SendDone, s3)
  {
    s1 := Next(Initial(inner), document, Return);
    s2 := Next(s1, document, Recover);
  }

  lemma SelectsLate(s3: State, document: Headers, s5: State) returns (s4: State)
    requires s3.context == Running && s3.request == Selecting && s3.done == Some(None)
    requires s5 == s3.(context := DeadlineExceeded, request := Finishing(None), done := None)
    ensures Moves(s3, document, Deadline, s4) && Moves(s4, document, SelectDone, s5)
  {
    s4 := Next(s3, document, Deadline);
  }

  /** Panics, in every interleaving: the request goroutine panics only with what the
      handler panicked with, and swallows a panic only after the deadline. */
  lemma PanicsAreForwarded(states: seq<State>, inner: Headers, document: Headers, steps: seq<Step>, i: nat)
    requires IsRun(states, inner, document, steps) && i < |states| && states[i].request.Ended?
    ensures var s := states[i];
            && (s.request.panic.Some? ==> s.left == Some(s.request.panic))
            && (s.left.Some? && s.left.value.Some? && s.request.panic.None? ==> Late(s))
  {
    hide IsRun, Owned, Prompt, Served;
    RunKeepsInv(states, inner, document, steps, i);
  }

  /** The hijack race, over every run: a render writes the document on a connection the
      handler has exactly when the handler has taken it and not yet set the flag, and
      nothing was committed. */
  lemma HijackRaceExactly(states: seq<State>, inner: Headers, document: Headers, steps: seq<Step>, i: nat)
    requires IsRun(states, inner, document, steps) && i < |steps| && steps[i] == Render
    ensures var s, s' := states[i], states[i + 1];
            s.taken && Document in s'.writer.log <==>
            s.handler == Taking && !s.writer.committed && !s.writer.hijacked
  {
    hide Next, Owned, Prompt, Forwarded;
    RunKeepsInv(states, inner, document, steps, i);
    assert Moves(states[i], document, steps[i], states[i + 1]);
    DocumentNext(states[i], document, steps[i]);
    RenderedOnce(states, inner, document, steps, i);
  }

  /** A render finds no document: there is one at most. */
  lemma {:induction false} RenderedOnce(states: seq<State>, inner: Headers, document: Headers, steps: seq<Step>, i: nat)
    requires IsRun(states, inner, document, steps) && i < |states|
    requires states[i].request == Selecting || states[i].request == Expiring
    ensures Document !in states[i].writer.log
  {
    if i > 0 {
      hide Next;
      assert Moves(states[i - 1], document, steps[i - 1], states[i]);
      UndecidedBefore(states[i - 1], document, steps[i - 1]);
      DocumentNext(states[i - 1], document, steps[i - 1]);
      RenderedOnce(states, inner, document, steps, i - 1);
    }
  }

  lemma UndecidedBefore(s: State, document: Headers, step: Step)
    requires Enabled(s, step)
    requires Next(s, document, step).request == Selecting || Next(s, document, step).request == Expiring
    ensures (s.request == Selecting || s.request == Expiring) && step != Render
  {
  }

  /** Such a run, from the beginning. */
  lemma HijackRace(inner: Headers, document: Headers) returns (states: seq<State>)
    ensures IsRun(states, inner, document, [TakeConnection, Deadline, SelectContext, Render])
    ensures states[4].taken && states[4].handler == Taking && states[4].writer.log == [Document]
  {
    var s0 := Initial(inner);
    var s1 := Next(s0, document, TakeConnection);
    var s2 := Next(s1, document, Deadline);
    var s3 := Next(s2, document, SelectContext);
    states := [s0, s1, s2, s3, Next(s3, document, Render)];
  }
}
