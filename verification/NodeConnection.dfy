/**
 The Core side of one Node connection: requests matched with responses by id,
 streams matched with frames by id, bounded memories of what was cancelled or
 dropped, and the shutdown that releases every waiter.

 `Connection` is the state between two awaits and `Apply` one atomic step of
 any task; a run interleaves callers, stream consumers and the socket reader.
*/
module NodeConnections {
  import opened Wrappers
  import S = NodeStreams

  type Id = string

  const TOMBSTONES: nat := 256

  datatype Future = Waiting | Result(value: string) | Error(error: string) | Cancelled

  /** Where the coroutine of `request` is. */
  datatype Caller = Sending | Awaiting | Returned(value: string) | Raised(error: string) | Aborted

  datatype Request = Request(future: Future, caller: Caller)

  /**
   `requests` and `streams` hold every future and stream ever made; `pending`
   and `registered` are the ids the connection still looks up. `cancelled` and
   `dropped` record every tombstone ever appended, and `abandoned` the streams
   whose opener or finisher gave up on them.
  */
  datatype Connection = Connection(
    closed: bool,
    requests: map<Id, Request>,
    pending: set<Id>,
    closedRequests: seq<Id>,
    cancelled: seq<Id>,
    streams: map<Id, S.Tracked>,
    registered: set<Id>,
    closedStreams: seq<Id>,
    dropped: seq<Id>,
    abandoned: set<Id>)

  const NEW := Connection(false, map[], {}, [], [], map[], {}, [], [], {})

  datatype Verdict = Fine | Ignored | ProtocolError | Overflow

  predicate IsLive(caller: Caller) {
    caller.Sending? || caller.Awaiting?
  }

  /** `deque(maxlen=256).append`. */
  function Remember(ids: seq<Id>, id: Id): seq<Id> {
    (if |ids| >= TOMBSTONES then ids[|ids| - TOMBSTONES + 1..] else ids) + [id]
  }

  /** The most recent entries of a history. */
  function Latest(history: seq<Id>): seq<Id> {
    if |history| > TOMBSTONES then history[|history| - TOMBSTONES..] else history
  }

  lemma RememberKeepsLatest(history: seq<Id>, id: Id)
    ensures Remember(Latest(history), id) == Latest(history + [id])
  {
  }

  // --------------------------------------------------------------- requests

  function Ask(c: Connection, id: Id): Connection {
    if id in c.requests then c
    else if c.closed then c.(requests := c.requests[id := Request(Cancelled, Raised("node_offline"))])
    else c.(requests := c.requests[id := Request(Waiting, Sending)], pending := c.pending + {id})
  }

  function SendDone(c: Connection, id: Id): Connection {
    if id in c.requests && c.requests[id].caller.Sending?
    then c.(requests := c.requests[id := c.requests[id].(caller := Awaiting)])
    else c
  }

  /** The `finally` of `request`: forget the id and cancel an unfinished future. */
  function Leave(c: Connection, id: Id, caller: Caller): Connection
    requires id in c.requests
  {
    var future := c.requests[id].future;
    c.(requests := c.requests[id := Request(if future.Waiting? then Cancelled else future, caller)],
       pending := c.pending - {id})
  }

  function SendFails(c: Connection, id: Id): Connection {
    if id in c.requests && c.requests[id].caller.Sending? then Leave(c, id, Raised("node_offline")) else c
  }

  function Resume(c: Connection, id: Id): Connection {
    if id in c.requests && c.requests[id].caller.Awaiting? then
      match c.requests[id].future
      case Result(value) => Leave(c, id, Returned(value))
      case Error(error) => Leave(c, id, Raised(error))
      case _ => c
    else c
  }

  function Cancel(c: Connection, id: Id): Connection {
    if id in c.requests && IsLive(c.requests[id].caller)
    then Leave(c.(closedRequests := Remember(c.closedRequests, id), cancelled := c.cancelled + [id]), id, Aborted)
    else c
  }

  datatype Answer = Success(value: string) | Malformed | Refusal(error: string)

  predicate Expects(c: Connection, id: Id) {
    id in c.pending && id in c.requests && c.requests[id].future.Waiting?
  }

  function Complete(c: Connection, id: Id, future: Future): Connection
    requires id in c.requests
  {
    c.(requests := c.requests[id := c.requests[id].(future := future)])
  }

  /** `_dispatch_response`. */
  function Respond(c: Connection, id: Id, answer: Answer): (Connection, Verdict) {
    if !Expects(c, id) then (c, if id in c.closedRequests then Ignored else ProtocolError)
    else match answer
      case Success(value) => (Complete(c, id, Result(value)), Fine)
      case Malformed => (c, ProtocolError)
      case Refusal(error) => (Complete(c, id, Error(error)), Fine)
  }

  // ---------------------------------------------------------------- streams

  function OpenStream(c: Connection, id: Id): Connection {
    if id in c.streams || c.closed then c
    else c.(streams := c.streams[id := S.FRESH], registered := c.registered + {id})
  }

  /** `open_stream` failing: the stream is forgotten without a tombstone. */
  function OpenFails(c: Connection, id: Id): Connection {
    if id in c.registered then c.(registered := c.registered - {id}, abandoned := c.abandoned + {id}) else c
  }

  function Drop(c: Connection, id: Id): Connection {
    if id in c.registered
    then c.(registered := c.registered - {id}, closedStreams := Remember(c.closedStreams, id),
            dropped := c.dropped + [id])
    else c
  }

  function WithStream(c: Connection, id: Id, t: S.Tracked): Connection {
    c.(streams := c.streams[id := t])
  }

  /** The local half of `close` and `abort`. */
  function BeginClose(c: Connection, id: Id): Connection {
    if id in c.streams then WithStream(c, id, S.Shut(c.streams[id])) else c
  }

  /** The second half, after the awaited send. */
  function EndClose(c: Connection, id: Id): Connection {
    if id in c.streams && c.streams[id].log.shut then Drop(c, id) else c
  }

  /** `finish` dropping the stream whether or not its end arrived. */
  function GiveUp(c: Connection, id: Id): Connection {
    if id in c.registered then Drop(c.(abandoned := c.abandoned + {id}), id) else c
  }

  function Receive(c: Connection, id: Id): Connection {
    if id in c.streams then WithStream(c, id, S.Take(c.streams[id])) else c
  }

  datatype Frame = Data(item: S.Item) | Closing | Failing(error: string) | BadFrame

  /** `dispatch` of a stream message. */
  function Deliver(c: Connection, id: Id, frame: Frame): (Connection, Verdict) {
    if id !in c.registered || id !in c.streams
    then (c, if id in c.closedStreams then Ignored else ProtocolError)
    else
      var t := c.streams[id];
      match frame
      case BadFrame => (c, ProtocolError)
      case Data(item) =>
        if !S.IsFed(item) then (c, ProtocolError)
        else (WithStream(c, id, S.Feed(t, item)),
              if !t.s.closed && |t.s.queue| == S.QUEUE_DEPTH then Overflow else Fine)
      case Closing => (Drop(WithStream(c, id, S.Finish(t, S.End)), id), Fine)
      case Failing(error) => (Drop(WithStream(c, id, S.Finish(t, S.Failure(error))), id), Fine)
  }

  // --------------------------------------------------------------- shutdown

  function FailFuture(r: Request, error: string): Request {
    if r.future.Waiting? then r.(future := Error(error)) else r
  }

  function FailRequests(c: Connection, error: string): map<Id, Request> {
    map id | id in c.requests :: if id in c.pending then FailFuture(c.requests[id], error) else c.requests[id]
  }

  function FailStreams(c: Connection, error: string): map<Id, S.Tracked> {
    map id | id in c.streams ::
      if id in c.registered then S.Finish(c.streams[id], S.Failure(error)) else c.streams[id]
  }

  /** `NodeConnection.close`. */
  function Close(c: Connection, error: string): Connection {
    if c.closed then c
    else c.(closed := true, requests := FailRequests(c, error), pending := {},
            streams := FailStreams(c, error), registered := {})
  }

  // ------------------------------------------------------------------- runs

  datatype Step =
    | Asking(id: Id) | SentOff(id: Id) | SendFailing(id: Id) | Resuming(id: Id) | Cancelling(id: Id)
    | Responding(id: Id, answer: Answer)
    | Opening(id: Id) | OpenFailing(id: Id) | BeginClosing(id: Id) | EndClosing(id: Id) | GivingUp(id: Id)
    | Receiving(id: Id) | Delivering(id: Id, frame: Frame)
    | Shutdown(error: string)

  function Apply(c: Connection, step: Step): Connection {
    match step
    case Asking(id) => Ask(c, id)
    case SentOff(id) => SendDone(c, id)
    case SendFailing(id) => SendFails(c, id)
    case Resuming(id) => Resume(c, id)
    case Cancelling(id) => Cancel(c, id)
    case Responding(id, answer) => Respond(c, id, answer).0
    case Opening(id) => OpenStream(c, id)
    case OpenFailing(id) => OpenFails(c, id)
    case BeginClosing(id) => BeginClose(c, id)
    case EndClosing(id) => EndClose(c, id)
    case GivingUp(id) => GiveUp(c, id)
    case Receiving(id) => Receive(c, id)
    case Delivering(id, frame) => Deliver(c, id, frame).0
    case Shutdown(error) => Close(c, error)
  }

  function Play(steps: seq<Step>): Connection {
    if steps == [] then NEW else Apply(Play(steps[..|steps| - 1]), steps[|steps| - 1])
  }

  // -------------------------------------------------------------- invariant

  /** What relates one request to the ids looked up: only a pending future can be waiting. */
  predicate RequestOk(c: Connection, id: Id)
    requires id in c.requests
  {
    var r := c.requests[id];
    && (r.future.Waiting? ==> id in c.pending)
    && (id in c.pending ==> IsLive(r.caller) && !c.closed)
    && (IsLive(r.caller) ==> !r.future.Cancelled?)
    && (r.caller.Returned? ==> r.future == Result(r.caller.value))
  }

  ghost predicate RequestsOk(c: Connection) {
    forall id :: id in c.requests ==> RequestOk(c, id)
  }

  ghost predicate CancelsOk(c: Connection) {
    && c.closedRequests == Latest(c.cancelled)
    && c.pending <= c.requests.Keys
    && (forall id :: id in c.cancelled ==> id in c.requests && c.requests[id].caller.Aborted?)
    && (forall id :: id in c.requests && c.requests[id].caller.Aborted? ==> id in c.cancelled)
  }

  /** A stream the connection no longer looks up has been closed, unless it was given up. */
  predicate StreamOk(c: Connection, id: Id)
    requires id in c.streams
  {
    && (id in c.registered ==> !c.closed)
    && (id !in c.registered && id !in c.abandoned ==> c.streams[id].s.closed)
  }

  ghost predicate StreamsOk(c: Connection) {
    forall id :: id in c.streams ==> StreamOk(c, id) && S.Good(c.streams[id])
  }

  ghost predicate DropsOk(c: Connection) {
    && c.closedStreams == Latest(c.dropped)
    && c.registered <= c.streams.Keys
    && forall id :: id in c.dropped ==> id in c.streams && id !in c.registered
  }

  ghost predicate Good(c: Connection) {
    RequestsOk(c) && CancelsOk(c) && StreamsOk(c) && DropsOk(c)
  }

  /** The caller leaves with an outcome that agrees with its future. */
  lemma LeaveKeepsGood(c: Connection, id: Id, caller: Caller)
    requires Good(c) && id in c.requests && IsLive(c.requests[id].caller) && !IsLive(caller) && !caller.Aborted?
    requires caller.Returned? ==> c.requests[id].future == Result(caller.value)
    ensures Good(Leave(c, id, caller))
  {
  }

  lemma CancelKeepsGood(c: Connection, id: Id)
    requires Good(c)
    ensures Good(Cancel(c, id))
  {
    RememberKeepsLatest(c.cancelled, id);
  }

  lemma RequestStepKeepsGood(c: Connection, step: Step)
    requires Good(c)
    requires step.Asking? || step.SentOff? || step.SendFailing? || step.Resuming? || step.Responding?
    ensures Good(Apply(c, step))
  {
    var id := step.id;
    if step.SendFailing? {
      if id in c.requests && c.requests[id].caller.Sending? {
        LeaveKeepsGood(c, id, Raised("node_offline"));
      }
    } else if step.Resuming? {
      if id in c.requests && c.requests[id].caller.Awaiting? {
        match c.requests[id].future
        case Result(value) => LeaveKeepsGood(c, id, Returned(value));
        case Error(error) => LeaveKeepsGood(c, id, Raised(error));
        case _ =>
      }
    }
  }

  lemma DropKeepsGood(c: Connection, id: Id)
    requires Good(c) && (id in c.streams ==> c.streams[id].s.closed || id in c.abandoned)
    ensures Good(Drop(c, id))
  {
    RememberKeepsLatest(c.dropped, id);
  }

  lemma StaysClosed(t: S.Tracked, e: S.Event)
    ensures t.s.closed ==> S.Step(t, e).s.closed
  {
  }

  lemma WithStreamKeepsGood(c: Connection, id: Id, e: S.Event)
    requires Good(c) && id in c.streams && S.Legal(e)
    ensures Good(WithStream(c, id, S.Step(c.streams[id], e)))
  {
    S.StepKeepsGood(c.streams[id], e);
    StaysClosed(c.streams[id], e);
  }

  lemma AbandonKeepsGood(c: Connection, id: Id)
    requires Good(c)
    ensures Good(c.(abandoned := c.abandoned + {id})) && Good(OpenFails(c, id))
  {
  }

  lemma OpenKeepsGood(c: Connection, id: Id)
    requires Good(c)
    ensures Good(OpenStream(c, id))
  {
  }

  lemma DeliverKeepsGood(c: Connection, id: Id, frame: Frame)
    requires Good(c)
    ensures Good(Deliver(c, id, frame).0)
  {
    if id in c.registered && id in c.streams {
      match frame
      case BadFrame =>
      case Data(item) => if S.IsFed(item) { WithStreamKeepsGood(c, id, S.Feeding(item)); }
      case Closing =>
        WithStreamKeepsGood(c, id, S.Finishing(S.End));
        DropKeepsGood(WithStream(c, id, S.Finish(c.streams[id], S.End)), id);
      case Failing(error) =>
        WithStreamKeepsGood(c, id, S.Finishing(S.Failure(error)));
        DropKeepsGood(WithStream(c, id, S.Finish(c.streams[id], S.Failure(error))), id);
    }
  }

  lemma CloseKeepsGood(c: Connection, error: string)
    requires Good(c)
    ensures Good(Close(c, error))
  {
    var d := Close(c, error);
    if !c.closed {
      forall id | id in d.streams ensures StreamOk(d, id) && S.Good(d.streams[id]) {
        if id in c.registered {
          S.StepKeepsGood(c.streams[id], S.Finishing(S.Failure(error)));
        }
        assert StreamOk(c, id);
      }
      forall id | id in d.requests ensures RequestOk(d, id) {
        assert RequestOk(c, id);
      }
    }
  }

  lemma StepKeepsGood(c: Connection, step: Step)
    requires Good(c)
    ensures Good(Apply(c, step))
  {
    match step
    case Cancelling(id) => CancelKeepsGood(c, id);
    case Opening(id) => OpenKeepsGood(c, id);
    case OpenFailing(id) => AbandonKeepsGood(c, id);
    case BeginClosing(id) => if id in c.streams { WithStreamKeepsGood(c, id, S.Shutting); }
    case EndClosing(id) => EndCloseKeepsGood(c, id);
    case GivingUp(id) =>
      AbandonKeepsGood(c, id);
      DropKeepsGood(c.(abandoned := c.abandoned + {id}), id);
    case Receiving(id) => if id in c.streams { WithStreamKeepsGood(c, id, S.Taking); }
    case Delivering(id, frame) => DeliverKeepsGood(c, id, frame);
    case Shutdown(error) => CloseKeepsGood(c, error);
    case _ => RequestStepKeepsGood(c, step);
  }

  lemma EndCloseKeepsGood(c: Connection, id: Id)
    requires Good(c)
    ensures Good(EndClose(c, id))
  {
    if id in c.streams && c.streams[id].log.shut {
      assert S.Good(c.streams[id]);
      DropKeepsGood(c, id);
    }
  }

  lemma {:induction false} EveryConnectionIsGood(steps: seq<Step>)
    ensures Good(Play(steps))
  {
    if steps != [] {
      EveryConnectionIsGood(steps[..|steps| - 1]);
      StepKeepsGood(Play(steps[..|steps| - 1]), steps[|steps| - 1]);
    }
  }

  // ------------------------------------------------- requests and responses

  /** How one step may change one future: a finished one never, a waiting one only by its own message. */
  predicate FutureStep(step: Step, id: Id, before: Future, after: Future) {
    if !before.Waiting? then after == before
    else match after
      case Waiting => true
      case Result(value) => step == Responding(id, Success(value))
      case Error(error) => step == Responding(id, Refusal(error)) || step == Shutdown(error)
      case Cancelled => step == Cancelling(id) || step == SendFailing(id)
  }

  lemma ResponseCompletesOnlyItsRequest(c: Connection, step: Step, id: Id)
    requires id in c.requests
    ensures id in Apply(c, step).requests
    ensures FutureStep(step, id, c.requests[id].future, Apply(c, step).requests[id].future)
  {
  }

  /** A future completes at most once. */
  lemma {:induction false} FuturesAreFinal(steps: seq<Step>, more: seq<Step>, id: Id)
    requires id in Play(steps).requests
    ensures id in Play(steps + more).requests
    ensures !Play(steps).requests[id].future.Waiting?
            ==> Play(steps + more).requests[id].future == Play(steps).requests[id].future
  {
    if more == [] {
      assert steps + more == steps;
    } else {
      var all := steps + more;
      assert all[..|all| - 1] == steps + more[..|more| - 1];
      FuturesAreFinal(steps, more[..|more| - 1], id);
      ResponseCompletesOnlyItsRequest(Play(all[..|all| - 1]), all[|all| - 1], id);
    }
  }

  lemma NewFutures(c: Connection, step: Step, id: Id)
    requires id !in c.requests && id in Apply(c, step).requests
    ensures Apply(c, step).requests[id].future.Waiting? || Apply(c, step).requests[id].future.Cancelled?
  {
  }

  /** What a caller is given is what the Node answered under the id of that caller. */
  lemma {:induction false} ResultCameFromItsResponse(steps: seq<Step>, id: Id)
    requires id in Play(steps).requests && Play(steps).requests[id].future.Result?
    ensures Responding(id, Success(Play(steps).requests[id].future.value)) in steps
  {
    var front, step := steps[..|steps| - 1], steps[|steps| - 1];
    if id in Play(front).requests {
      ResponseCompletesOnlyItsRequest(Play(front), step, id);
      if Play(front).requests[id].future.Result? {
        ResultCameFromItsResponse(front, id);
      }
    } else {
      NewFutures(Play(front), step, id);
    }
  }

  lemma CallerGetsItsOwnResult(steps: seq<Step>, id: Id)
    requires id in Play(steps).requests && Play(steps).requests[id].caller.Returned?
    ensures Responding(id, Success(Play(steps).requests[id].caller.value)) in steps
  {
    EveryConnectionIsGood(steps);
    assert RequestOk(Play(steps), id);
    ResultCameFromItsResponse(steps, id);
  }

  /** The last 256 entries of a history, or all of a shorter one. */
  function Recent(history: seq<Id>): seq<Id> {
    if |history| <= 256 then history else history[|history| - 256..]
  }

  /** A response nobody waits for is dropped silently exactly when its request is among the last 256 cancelled. */
  lemma LateResponses(steps: seq<Step>, id: Id, answer: Answer)
    ensures var c := Play(steps);
            var (after, verdict) := Respond(c, id, answer);
            && (id in c.cancelled ==> !Expects(c, id))
            && (!Expects(c, id) ==> after == c && verdict == if id in Recent(c.cancelled) then Ignored else ProtocolError)
  {
    EveryConnectionIsGood(steps);
    assert Latest(Play(steps).cancelled) == Recent(Play(steps).cancelled);
    assert id in Play(steps).cancelled ==> RequestOk(Play(steps), id);
  }

  /** A frame nobody reads is dropped silently exactly when its stream is among the last 256 dropped. */
  lemma LateFrames(steps: seq<Step>, id: Id, frame: Frame)
    ensures var c := Play(steps);
            var (after, verdict) := Deliver(c, id, frame);
            && (id in c.dropped ==> id !in c.registered)
            && (id !in c.registered ==> after == c && verdict == if id in Recent(c.dropped) then Ignored else ProtocolError)
  {
    EveryConnectionIsGood(steps);
    assert Latest(Play(steps).dropped) == Recent(Play(steps).dropped);
  }

  // --------------------------------------------------- answers arrive (runs)

  lemma PlayStep(steps: seq<Step>, step: Step)
    ensures Play(steps + [step]) == Apply(Play(steps), step)
  {
    assert (steps + [step])[..|steps|] == steps;
  }

  /** The steps that end the wait for an answer to a request. */
  predicate Settles(step: Step, id: Id) {
    || step == Cancelling(id) || step == SendFailing(id)
    || (step.Responding? && step.id == id && !step.answer.Malformed?)
    || step.Shutdown?
  }

  lemma ExpectedStep(c: Connection, step: Step, id: Id)
    requires Expects(c, id) && !c.closed && IsLive(c.requests[id].caller) && !Settles(step, id)
    ensures var d := Apply(c, step); Expects(d, id) && !d.closed && IsLive(d.requests[id].caller)
  {
  }

  /** A request asked on an open connection is expected until it is answered, fails, is cancelled or the connection closes. */
  lemma {:induction false} AskedIsExpected(before: seq<Step>, id: Id, more: seq<Step>)
    requires !Play(before).closed && id !in Play(before).requests
    requires forall i :: 0 <= i < |more| ==> !Settles(more[i], id)
    ensures var c := Play(before + [Asking(id)] + more); Expects(c, id) && !c.closed && IsLive(c.requests[id].caller)
  {
    var all := before + [Asking(id)] + more;
    PlayStep(before, Asking(id));
    if more == [] {
      assert all == before + [Asking(id)];
    } else {
      var front := before + [Asking(id)] + more[..|more| - 1];
      assert all == front + [more[|more| - 1]];
      AskedIsExpected(before, id, more[..|more| - 1]);
      PlayStep(front, more[|more| - 1]);
      ExpectedStep(Play(front), more[|more| - 1], id);
    }
  }

  /** The caller has been given its outcome, or will be when it next resumes. */
  predicate Gives(r: Request, future: Future, caller: Caller) {
    r.future == future && (IsLive(r.caller) || r.caller == caller)
  }

  predicate Outcome(future: Future, caller: Caller) {
    (future.Result? && caller == Returned(future.value)) || (future.Error? && caller == Raised(future.error))
  }

  lemma GivesStep(c: Connection, step: Step, id: Id, future: Future, caller: Caller)
    requires id in c.requests && Gives(c.requests[id], future, caller) && Outcome(future, caller)
    requires step != Cancelling(id) && step != SendFailing(id)
    ensures id in Apply(c, step).requests && Gives(Apply(c, step).requests[id], future, caller)
  {
  }

  /** Once sent, the caller of a completed request leaves with its outcome at its next resumption. */
  lemma GivenAtResumption(c: Connection, id: Id, future: Future, caller: Caller)
    requires id in c.requests && Gives(c.requests[id], future, caller) && Outcome(future, caller)
    ensures var d := Apply(Apply(c, SentOff(id)), Resuming(id)); id in d.requests && d.requests[id].caller == caller
    ensures c.requests[id].caller.Awaiting? ==> Apply(c, Resuming(id)).requests[id].caller == caller
  {
  }

  lemma {:induction false} GivenLater(steps: seq<Step>, more: seq<Step>, id: Id, future: Future, caller: Caller)
    requires id in Play(steps).requests && Gives(Play(steps).requests[id], future, caller) && Outcome(future, caller)
    requires Cancelling(id) !in more && SendFailing(id) !in more
    ensures id in Play(steps + more).requests && Gives(Play(steps + more).requests[id], future, caller)
  {
    if more == [] {
      assert steps + more == steps;
    } else {
      var front, last := steps + more[..|more| - 1], more[|more| - 1];
      assert steps + more == front + [last] && last in more;
      GivenLater(steps, more[..|more| - 1], id, future, caller);
      PlayStep(front, last);
      GivesStep(Play(front), last, id, future, caller);
    }
  }

  /** What an answer or a shutdown makes of an expected request. */
  predicate Completes(step: Step, id: Id, future: Future) {
    || (future.Result? && step == Responding(id, Success(future.value)))
    || (future.Error? && (step == Responding(id, Refusal(future.error)) || step == Shutdown(future.error)))
  }

  lemma ExpectedIsCompleted(c: Connection, step: Step, id: Id, future: Future)
    requires Expects(c, id) && !c.closed && Completes(step, id, future)
    ensures id in Apply(c, step).requests && Apply(c, step).requests[id].future == future
    ensures Apply(c, step).requests[id].caller == c.requests[id].caller
  {
  }

  /**
   An expected answer arrives. In every reachable state, a request that is
   expected becomes the value of a successful answer, or the error of a refusal
   or of the shutdown; and through any later steps but the caller's own
   cancellation or failed send, the caller then leaves with exactly that: at its
   next resumption once its request is sent.
  */
  lemma AnswersArrive(steps: seq<Step>, step: Step, id: Id, future: Future, caller: Caller, more: seq<Step>)
    requires Expects(Play(steps), id) && Completes(step, id, future) && Outcome(future, caller)
    requires Cancelling(id) !in more && SendFailing(id) !in more
    ensures id in Play(steps + [step]).requests && Play(steps + [step]).requests[id].future == future
    ensures var all := steps + [step] + more;
            && id in Play(all).requests && Play(all).requests[id].future == future
            && (IsLive(Play(all).requests[id].caller) || Play(all).requests[id].caller == caller)
            && (Play(all).requests[id].caller.Awaiting? ==>
                  id in Play(all + [Resuming(id)]).requests && Play(all + [Resuming(id)]).requests[id].caller == caller)
            && id in Play(all + [SentOff(id)] + [Resuming(id)]).requests
            && Play(all + [SentOff(id)] + [Resuming(id)]).requests[id].caller == caller
  {
    var all := steps + [step] + more;
    EveryConnectionIsGood(steps);
    assert RequestOk(Play(steps), id);
    PlayStep(steps, step);
    ExpectedIsCompleted(Play(steps), step, id, future);
    GivenLater(steps + [step], more, id, future, caller);
    GivenAtResumption(Play(all), id, future, caller);
    PlayStep(all, Resuming(id));
    PlayStep(all, SentOff(id));
    PlayStep(all + [SentOff(id)], Resuming(id));
  }

  /** A malformed answer is the Node's fault: a protocol error, and the request is still expected. */
  lemma ExpectedAnswerVerdicts(c: Connection, id: Id, answer: Answer)
    requires Expects(c, id)
    ensures Respond(c, id, answer).1 == if answer.Malformed? then ProtocolError else Fine
    ensures answer.Malformed? ==> Apply(c, Responding(id, answer)) == c
  {
  }

  lemma LatestHasLast(history: seq<Id>, id: Id)
    ensures id in Recent(history + [id])
  {
    var all := Recent(history + [id]);
    assert all[|all| - 1] == id;
  }

  /** A caller that is cancelled leaves at once, its request is expected no more, and a late answer is no error. */
  lemma CancelledRequestsLeave(steps: seq<Step>, id: Id)
    requires id in Play(steps).requests && IsLive(Play(steps).requests[id].caller)
    ensures var c := Play(steps + [Cancelling(id)]);
            id in c.requests && c.requests[id].caller == Aborted && !Expects(c, id) && id in Recent(c.cancelled)
  {
    PlayStep(steps, Cancelling(id));
    LatestHasLast(Play(steps).cancelled, id);
  }

  /** A caller whose send fails is told that the Node is offline. */
  lemma UnsentRequestsLeave(steps: seq<Step>, id: Id)
    requires id in Play(steps).requests && Play(steps).requests[id].caller.Sending?
    ensures var c := Play(steps + [SendFailing(id)]);
            id in c.requests && c.requests[id].caller == Raised("node_offline") && !Expects(c, id)
  {
    PlayStep(steps, SendFailing(id));
  }

  /** On a closed connection a request fails at once. */
  lemma OfflineRequestsFail(steps: seq<Step>, id: Id)
    requires Play(steps).closed && id !in Play(steps).requests
    ensures var c := Play(steps + [Asking(id)]);
            id in c.requests && c.requests[id].caller == Raised("node_offline") && !Expects(c, id)
  {
    EveryConnectionIsGood(steps);
    PlayStep(steps, Asking(id));
  }

  // ------------------------------------------------------ release at close

  /** A consumer that keeps reading gets, or already got, an end or a failure. */
  predicate Released(t: S.Tracked) {
    var seen := t.log.taken + t.s.queue;
    seen != [] && (seen[|seen| - 1].End? || seen[|seen| - 1].Failure?)
  }

  lemma ReleasedIffTerminated(t: S.Tracked)
    requires S.Good(t)
    ensures Released(t) <==> S.Terminated(t.log)
  {
    assert t.log.taken + t.s.queue == S.Remaining(t.log.enqueued, t.log.lost);
  }

  /** In every state, and for every stream, given up or not: released means closed by the Node or the shutdown. */
  lemma ReleasedIffClosedRemotely(steps: seq<Step>, id: Id)
    requires id in Play(steps).streams
    ensures var t := Play(steps).streams[id]; Released(t) <==> t.s.closed && !t.log.shut
  {
    EveryConnectionIsGood(steps);
    ReleasedIffTerminated(Play(steps).streams[id]);
  }

  /** An unregistered stream is never registered again and never given another item. */
  lemma UnregisteredStep(c: Connection, step: Step, id: Id)
    requires id in c.streams && id !in c.registered
    ensures id in Apply(c, step).streams && id !in Apply(c, step).registered
    ensures Apply(c, step).streams[id].log.enqueued == c.streams[id].log.enqueued
  {
  }

  lemma {:induction false} UnregisteredGetsNothing(steps: seq<Step>, more: seq<Step>, id: Id)
    requires id in Play(steps).streams && id !in Play(steps).registered
    ensures id in Play(steps + more).streams && id !in Play(steps + more).registered
    ensures Play(steps + more).streams[id].log.enqueued == Play(steps).streams[id].log.enqueued
  {
    var all := steps + more;
    if more == [] {
      assert all == steps;
    } else {
      assert all[..|all| - 1] == steps + more[..|more| - 1];
      UnregisteredGetsNothing(steps, more[..|more| - 1], id);
      UnregisteredStep(Play(all[..|all| - 1]), all[|all| - 1], id);
    }
  }

  /** The opener or the finisher of the stream gives it up. */
  predicate Abandons(c: Connection, step: Step, id: Id) {
    (step == GivingUp(id) || step == OpenFailing(id)) && id in c.registered
  }

  predicate GaveUpAt(steps: seq<Step>, k: int, id: Id) {
    0 <= k < |steps| && Abandons(Play(steps[..k]), steps[k], id)
  }

  lemma AbandonedStep(c: Connection, step: Step, id: Id)
    ensures id in Apply(c, step).abandoned <==> id in c.abandoned || Abandons(c, step, id)
  {
  }

  lemma GaveUpBefore(front: seq<Step>, step: Step, k: int, id: Id)
    ensures GaveUpAt(front + [step], k, id)
            <==> GaveUpAt(front, k, id) || (k == |front| && Abandons(Play(front), step, id))
  {
    var steps := front + [step];
    if 0 <= k < |front| {
      assert steps[..k] == front[..k] && steps[k] == front[k];
    } else if k == |front| {
      assert steps[..k] == front;
    }
  }

  lemma {:induction false} AbandonedIffGivenUp(steps: seq<Step>, id: Id)
    ensures id in Play(steps).abandoned <==> exists k :: GaveUpAt(steps, k, id)
  {
    if steps != [] {
      var front, last := steps[..|steps| - 1], steps[|steps| - 1];
      AbandonedIffGivenUp(front, id);
      AbandonedStep(Play(front), last, id);
      assert steps == front + [last];
      forall k ensures GaveUpAt(steps, k, id) <==> GaveUpAt(front, k, id) || (k == |front| && Abandons(Play(front), last, id)) {
        GaveUpBefore(front, last, k, id);
      }
      if Abandons(Play(front), last, id) {
        assert GaveUpAt(steps, |front|, id);
      }
    }
  }

  lemma PlayExtended(steps: seq<Step>, k: nat)
    requires k < |steps|
    ensures Play(steps[..k + 1]) == Apply(Play(steps[..k]), steps[k]) && steps == steps[..k + 1] + steps[k + 1..]
  {
    assert steps[..k + 1][..k] == steps[..k];
  }

  lemma AbandonStep(c: Connection, step: Step, id: Id)
    requires Good(c) && Abandons(c, step, id)
    ensures id in c.streams && id in Apply(c, step).streams && id !in Apply(c, step).registered
    ensures Apply(c, step).streams[id] == c.streams[id]
  {
  }

  /** What a stream had been given when it was given up is all it ever gets: overflowed or finished by then, or never. */
  lemma GivenUpIsReleasedIff(steps: seq<Step>, k: nat, id: Id)
    requires GaveUpAt(steps, k, id)
    ensures id in Play(steps[..k]).streams && id in Play(steps).streams
    ensures var t := Play(steps[..k]).streams[id];
            Released(Play(steps).streams[id]) <==> t.s.closed && !t.log.shut
  {
    var c, upTo := Play(steps[..k]), steps[..k + 1];
    EveryConnectionIsGood(steps[..k]);
    PlayExtended(steps, k);
    AbandonStep(c, steps[k], id);
    UnregisteredGetsNothing(upTo, steps[k + 1..], id);
    StreamsAreGood(steps, id);
    ReleasedIffTerminated(Play(steps).streams[id]);
    ReleasedIffClosedRemotely(steps[..k], id);
    ReleasedIffTerminated(c.streams[id]);
  }

  /**
   Once the connection is closed, no request waits for an answer. A stream that
   nobody gave up is released exactly if its owner had not begun to close it,
   and one that was given up exactly if it was closed at that moment, and not
   by its owner, as after an overflow.
  */
  lemma CloseReleasesEveryone(steps: seq<Step>, id: Id)
    requires Play(steps).closed
    ensures id in Play(steps).requests ==> !Play(steps).requests[id].future.Waiting?
    ensures id in Play(steps).streams && (forall k :: !GaveUpAt(steps, k, id))
            ==> (Released(Play(steps).streams[id]) <==> !Play(steps).streams[id].log.shut)
    ensures forall k :: GaveUpAt(steps, k, id) ==>
              && id in Play(steps).streams && id in Play(steps[..k]).streams
              && (Released(Play(steps).streams[id])
                  <==> Play(steps[..k]).streams[id].s.closed && !Play(steps[..k]).streams[id].log.shut)
  {
    var c := Play(steps);
    EveryConnectionIsGood(steps);
    if id in c.requests {
      assert RequestOk(c, id);
    }
    AbandonedIffGivenUp(steps, id);
    if id in c.streams {
      assert StreamOk(c, id);
      ReleasedIffTerminated(c.streams[id]);
    }
    forall k | GaveUpAt(steps, k, id)
      ensures id in c.streams && id in Play(steps[..k]).streams
              && (Released(c.streams[id]) <==> Play(steps[..k]).streams[id].s.closed && !Play(steps[..k]).streams[id].log.shut)
    {
      GivenUpIsReleasedIff(steps, k, id);
    }
  }

  lemma ShutStreamStaysEmptyHanded(c: Connection, step: Step, id: Id)
    requires id in c.streams && c.streams[id].log.shut && c.streams[id].s.closed
    ensures id in Apply(c, step).streams
    ensures var t := Apply(c, step).streams[id];
            t.log.shut && t.s.closed && t.log.enqueued == c.streams[id].log.enqueued
  {
  }

  lemma {:induction false} ShutStreamGetsNothing(steps: seq<Step>, more: seq<Step>, id: Id)
    requires id in Play(steps).streams && Play(steps).streams[id].log.shut && Play(steps).streams[id].s.closed
    ensures id in Play(steps + more).streams
    ensures var t := Play(steps + more).streams[id];
            t.log.shut && t.s.closed && t.log.enqueued == Play(steps).streams[id].log.enqueued
  {
    var all := steps + more;
    if more == [] {
      assert all == steps;
    } else {
      assert all[..|all| - 1] == steps + more[..|more| - 1];
      ShutStreamGetsNothing(steps, more[..|more| - 1], id);
      ShutStreamStaysEmptyHanded(Play(all[..|all| - 1]), all[|all| - 1], id);
    }
  }

  lemma StreamsAreGood(steps: seq<Step>, id: Id)
    requires id in Play(steps).streams
    ensures S.Good(Play(steps).streams[id])
  {
    EveryConnectionIsGood(steps);
  }

  /** A stream closed locally is never given another item, so a consumer already waiting on it waits for ever. */
  lemma ShutStreamIsNeverReleased(steps: seq<Step>, more: seq<Step>, id: Id)
    requires id in Play(steps).streams && Play(steps).streams[id].log.shut
    ensures id in Play(steps + more).streams
    ensures var t := Play(steps + more).streams[id];
            t.log.enqueued == Play(steps).streams[id].log.enqueued && !Released(t)
  {
    StreamsAreGood(steps, id);
    ShutStreamGetsNothing(steps, more, id);
    StreamsAreGood(steps + more, id);
    ReleasedIffTerminated(Play(steps + more).streams[id]);
  }

  /** Such a stream: its owner begins to close it, and the connection closes before the awaited send ends. */
  lemma ClosingOwnerCanMissTheClose()
    ensures var steps := [Opening("s"), BeginClosing("s"), Shutdown("gone")];
            && Play(steps).closed && "s" in Play(steps).streams && "s" !in Play(steps).abandoned
            && Play(steps).streams["s"].s.queue == [] && !Released(Play(steps).streams["s"])
  {
    var steps := [Opening("s"), BeginClosing("s"), Shutdown("gone")];
    assert steps[..2] == [Opening("s"), BeginClosing("s")];
    assert steps[..2][..1] == [Opening("s")];
    assert Play(steps[..1]) == OpenStream(NEW, "s");
    assert Play(steps[..2]) == BeginClose(OpenStream(NEW, "s"), "s");
  }

  /** On a closed connection a request is registered and forgotten again in one step. */
  lemma AskOnClosed(c: Connection, id: Id)
    requires Good(c) && id !in c.requests
    ensures var registered := c.(requests := c.requests[id := Request(Waiting, Sending)], pending := c.pending + {id});
            Ask(c, id) == if c.closed then Leave(registered, id, Raised("node_offline")) else registered
  {
    assert c.pending + {id} - {id} == c.pending;
  }

  // ------------------------------------------------ streams carry data (runs)

  /** The chunks and controls the Node has sent under this id since the stream was opened. */
  function SentBy(steps: seq<Step>, id: Id): seq<S.Item> {
    if steps == [] then []
    else
      var front, last := steps[..|steps| - 1], steps[|steps| - 1];
      SentBy(front, id)
      + (if id in Play(front).streams && last.Delivering? && last.id == id && last.frame.Data?
            && (last.frame.item.Chunk? || last.frame.item.Control?)
         then [last.frame.item] else [])
  }

  /** The stream has been given the first of these items, and all of them while it is open and looked up. */
  ghost predicate Carries(c: Connection, id: Id, sent: seq<S.Item>) {
    if id !in c.streams then sent == []
    else
      var payload := S.Payload(c.streams[id].log);
      payload <= sent && (id in c.registered && !c.streams[id].s.closed ==> payload == sent)
  }

  lemma DataCarries(c: Connection, id: Id, item: S.Item, sent: seq<S.Item>)
    requires Good(c) && id in c.streams && S.IsFed(item) && Carries(c, id, sent)
    ensures Carries(Apply(c, Delivering(id, Data(item))), id, sent + [item])
  {
    if id in c.registered {
      S.PayloadOfStep(c.streams[id], S.Feeding(item));
      S.PrefixGrows(S.Payload(c.streams[id].log), sent, [item]);
    }
  }

  /** The event by which one step, other than data, changes a stream. */
  function EventOf(step: Step): S.Event {
    match step
    case BeginClosing(_) => S.Shutting
    case Delivering(_, Failing(error)) => S.Finishing(S.Failure(error))
    case Delivering(_, _) => S.Finishing(S.End)
    case Shutdown(error) => S.Finishing(S.Failure(error))
    case _ => S.Taking
  }

  lemma StreamEvents(c: Connection, step: Step, id: Id)
    requires id in c.streams
    requires !(step.Delivering? && step.id == id && step.frame.Data? && S.IsFed(step.frame.item))
    ensures var t, d := c.streams[id], Apply(c, step);
            && id in d.streams && (id in d.registered ==> id in c.registered)
            && (d.streams[id] == t || d.streams[id] == S.Step(t, EventOf(step)))
  {
  }

  /** Nothing else adds to the payload of a stream. */
  lemma OthersCarry(c: Connection, step: Step, id: Id, sent: seq<S.Item>)
    requires Good(c) && Carries(c, id, sent)
    requires !(id in c.streams && step.Delivering? && step.id == id && step.frame.Data? && S.IsFed(step.frame.item))
    ensures Carries(Apply(c, step), id, sent)
  {
    if id in c.streams {
      var t := c.streams[id];
      StreamEvents(c, step, id);
      S.PayloadOfStep(t, EventOf(step));
      StaysClosed(t, EventOf(step));
    } else if id in Apply(c, step).streams {
      NewStreamIsEmpty(c, step, id);
    }
  }

  lemma NewStreamIsEmpty(c: Connection, step: Step, id: Id)
    requires id !in c.streams && id in Apply(c, step).streams
    ensures Apply(c, step).streams[id] == S.FRESH
  {
  }

  /** In every reachable state a stream has been given what the Node sent, in order: all of it while open and looked up. */
  lemma {:induction false} StreamsCarryWhatWasSent(steps: seq<Step>, id: Id)
    ensures Carries(Play(steps), id, SentBy(steps, id))
  {
    if steps != [] {
      var front, last := steps[..|steps| - 1], steps[|steps| - 1];
      StreamsCarryWhatWasSent(front, id);
      EveryConnectionIsGood(front);
      if id in Play(front).streams && last.Delivering? && last.id == id && last.frame.Data? && S.IsFed(last.frame.item) {
        DataCarries(Play(front), id, last.frame.item, SentBy(front, id));
      } else {
        OthersCarry(Play(front), last, id, SentBy(front, id));
      }
    }
  }

  /** The frames by which the Node ends a stream, and the item the consumer finds at the end. */
  predicate Ends(frame: Frame, last: S.Item) {
    (frame == Closing && last == S.End) || (frame.Failing? && last == S.Failure(frame.error))
  }

  lemma FinishAppends(t: S.Tracked, item: S.Item)
    requires !t.s.closed
    ensures S.Finish(t, item).log.enqueued == t.log.enqueued + [item]
  {
  }

  lemma EndingFrame(c: Connection, id: Id, frame: Frame, last: S.Item)
    requires id in c.registered && id in c.streams && !c.streams[id].s.closed && Ends(frame, last)
    ensures var d := Apply(c, Delivering(id, frame));
            && id in d.streams && id !in d.registered && id in d.dropped
            && d.streams[id].log.enqueued == c.streams[id].log.enqueued + [last]
  {
    FinishAppends(c.streams[id], last);
    var finished := WithStream(c, id, S.Finish(c.streams[id], last));
    assert Apply(c, Delivering(id, frame)) == Drop(finished, id);
  }

  /**
   The Node ends an open stream: whatever follows, the consumer finds all that
   was sent and then the end or the error, less the one item the stream records
   as lost; when it has read everything, that is what it has seen.
  */
  lemma NodeEndsTheStream(steps: seq<Step>, id: Id, frame: Frame, last: S.Item, more: seq<Step>)
    requires id in Play(steps).registered && id in Play(steps).streams && !Play(steps).streams[id].s.closed
    requires Ends(frame, last)
    ensures var c := Play(steps + [Delivering(id, frame)] + more);
            && id in c.streams && id !in c.registered
            && c.streams[id].log.enqueued == SentBy(steps, id) + [last]
            && c.streams[id].log.taken + c.streams[id].s.queue
               == S.Remaining(SentBy(steps, id) + [last], c.streams[id].log.lost)
            && Released(c.streams[id])
  {
    var ended := steps + [Delivering(id, frame)];
    EveryConnectionIsGood(steps);
    StreamsCarryWhatWasSent(steps, id);
    OpenIsPayload(Play(steps), id);
    PlayStep(steps, Delivering(id, frame));
    EndingFrame(Play(steps), id, frame, last);
    UnregisteredGetsNothing(ended, more, id);
    StreamsAreGood(ended + more, id);
    ReleasedIffTerminated(Play(ended + more).streams[id]);
  }

  lemma OpenIsPayload(c: Connection, id: Id)
    requires Good(c) && id in c.streams && !c.streams[id].s.closed
    ensures S.Payload(c.streams[id].log) == c.streams[id].log.enqueued
  {
    assert S.Good(c.streams[id]);
  }

  /** A frame for a stream that is looked up: bad data is an error that changes nothing, an overflow is reported. */
  lemma FrameVerdicts(c: Connection, id: Id, frame: Frame)
    requires Good(c) && id in c.registered
    ensures var (d, verdict) := Deliver(c, id, frame);
            && (verdict == ProtocolError
                <==> frame.BadFrame? || (frame.Data? && !(frame.item.Chunk? || frame.item.Control?)))
            && (verdict == ProtocolError ==> d == c)
            && (verdict == Overflow
                <==> frame.Data? && (frame.item.Chunk? || frame.item.Control?) && !c.streams[id].s.closed
                     && |c.streams[id].s.queue| == 32)
            && verdict != Ignored
  {
  }

  /** The steps of the stream's own side: opening, reading, closing and giving up. */
  lemma OwnStreamSteps(steps: seq<Step>, id: Id)
    ensures var c := Play(steps);
            && (!c.closed && id !in c.streams ==> var d := Play(steps + [Opening(id)]);
                  id in d.registered && id in d.streams && !d.streams[id].s.closed && d.streams[id].s.queue == [])
            && (id in c.streams && c.streams[id].s.queue != [] ==> var d := Play(steps + [Receiving(id)]);
                  && id in d.streams && d.streams[id].log.taken == c.streams[id].log.taken + [c.streams[id].s.queue[0]]
                  && d.streams[id].s.queue == c.streams[id].s.queue[1..])
            && (id in c.registered ==> var d := Play(steps + [GivingUp(id)]); id !in d.registered && id in d.dropped)
            && (id in c.registered ==> var d := Play(steps + [OpenFailing(id)]); id !in d.registered && d.dropped == c.dropped)
  {
    PlayStep(steps, Opening(id));
    PlayStep(steps, Receiving(id));
    PlayStep(steps, GivingUp(id));
    PlayStep(steps, OpenFailing(id));
  }

  /** An owner that closes an open stream leaves a tombstone for it. */
  lemma OwnerCloses(steps: seq<Step>, id: Id)
    requires id in Play(steps).registered && id in Play(steps).streams && !Play(steps).streams[id].s.closed
    ensures var c := Play(steps + [BeginClosing(id)]);
            id in c.streams && c.streams[id].s.closed && c.streams[id].log.shut && id in c.registered
    ensures var d := Play(steps + [BeginClosing(id)] + [EndClosing(id)]); id !in d.registered && id in d.dropped
  {
    PlayStep(steps, BeginClosing(id));
    PlayStep(steps + [BeginClosing(id)], EndClosing(id));
  }

  // ----------------------------------------------------------- mutable form

  class NodeConnection {
    var closed: bool
    var requests: map<Id, Request>
    var pending: set<Id>
    var closedRequests: seq<Id>
    ghost var cancelled: seq<Id>
    var streams: map<Id, S.Tracked>
    var registered: set<Id>
    var closedStreams: seq<Id>
    ghost var dropped: seq<Id>
    ghost var abandoned: set<Id>

    ghost function View(): Connection
      reads this
    {
      Connection(closed, requests, pending, closedRequests, cancelled, streams, registered, closedStreams, dropped,
                 abandoned)
    }

    constructor ()
      ensures View() == NEW
    {
      closed, requests, pending, closedRequests, cancelled := false, map[], {}, [], [];
      streams, registered, closedStreams, dropped, abandoned := map[], {}, [], [], {};
    }

    /** `request` up to its first await. */
    method BeginRequest(id: Id) returns (sending: bool)
      requires Good(View()) && id !in requests
      modifies this`requests, this`pending
      ensures Good(View()) && View() == Ask(old(View()), id) && sending == !closed
    {
      RequestStepKeepsGood(View(), Asking(id));
      sending := !closed;
      requests := requests[id := Request(Waiting, Sending)];
      pending := pending + {id};
      AskOnClosed(old(View()), id);
      if !sending {
        Forget(id, Raised("node_offline"));
      }
    }

    /** The `finally` of `request`. */
    method Forget(id: Id, caller: Caller)
      requires id in requests
      modifies this`requests, this`pending
      ensures View() == Leave(old(View()), id, caller)
    {
      pending := pending - {id};
      var future := requests[id].future;
      requests := requests[id := Request(if future.Waiting? then Cancelled else future, caller)];
    }

    /** `request` resumed by its finished future. */
    method EndRequest(id: Id) returns (caller: Caller)
      requires Good(View()) && id in requests && requests[id].caller.Awaiting? && !requests[id].future.Waiting?
      modifies this`requests, this`pending
      ensures Good(View()) && View() == Resume(old(View()), id)
      ensures caller == (match old(requests)[id].future
                         case Result(value) => Returned(value)
                         case Error(error) => Raised(error)
                         case _ => Aborted)
      ensures !caller.Aborted? && requests[id].caller == caller
    {
      assert RequestOk(View(), id);
      RequestStepKeepsGood(View(), Resuming(id));
      var future := requests[id].future;
      caller := if future.Result? then Returned(future.value) else Raised(future.error);
      Forget(id, caller);
    }

    /** `request` cancelled while sending or waiting. */
    method AbortRequest(id: Id)
      requires Good(View()) && id in requests && IsLive(requests[id].caller)
      modifies this`requests, this`pending, this`closedRequests, this`cancelled
      ensures Good(View()) && View() == Cancel(old(View()), id)
    {
      CancelKeepsGood(View(), id);
      closedRequests := Remember(closedRequests, id);
      cancelled := cancelled + [id];
      Forget(id, Aborted);
    }

    /** `_dispatch_response`. */
    method DispatchResponse(id: Id, answer: Answer) returns (verdict: Verdict)
      requires Good(View())
      modifies this`requests
      ensures Good(View()) && (View(), verdict) == Respond(old(View()), id, answer)
    {
      RequestStepKeepsGood(View(), Responding(id, answer));
      if id !in pending || !requests[id].future.Waiting? {
        verdict := if id in closedRequests then Ignored else ProtocolError;
      } else if answer.Malformed? {
        verdict := ProtocolError;
      } else {
        var future := if answer.Success? then Result(answer.value) else Error(answer.error);
        requests := requests[id := requests[id].(future := future)];
        verdict := Fine;
      }
    }

    /** `drop_stream`. */
    method DropStream(id: Id)
      modifies this`registered, this`closedStreams, this`dropped
      ensures View() == Drop(old(View()), id)
    {
      if id in registered {
        registered := registered - {id};
        closedStreams := Remember(closedStreams, id);
        dropped := dropped + [id];
      }
    }

    /** `dispatch` of stream messages. */
    method DispatchFrame(id: Id, frame: Frame) returns (verdict: Verdict)
      requires Good(View())
      modifies this`streams, this`registered, this`closedStreams, this`dropped
      ensures Good(View()) && (View(), verdict) == Deliver(old(View()), id, frame)
    {
      DeliverKeepsGood(View(), id, frame);
      if id !in registered {
        verdict := if id in closedStreams then Ignored else ProtocolError;
      } else if frame.BadFrame? || (frame.Data? && !S.IsFed(frame.item)) {
        verdict := ProtocolError;
      } else if frame.Data? {
        var t := streams[id];
        streams := streams[id := S.Feed(t, frame.item)];
        verdict := if !t.s.closed && |t.s.queue| == S.QUEUE_DEPTH then Overflow else Fine;
      } else {
        var last := if frame.Closing? then S.End else S.Failure(frame.error);
        streams := streams[id := S.Finish(streams[id], last)];
        DropStream(id);
        verdict := Fine;
      }
    }

    /** `for future in self._pending.values(): ...`. */
    method FailPending(error: string)
      requires pending <= requests.Keys
      modifies this`requests
      ensures requests == FailRequests(old(View()), error)
    {
      var rest := pending;
      while rest != {}
        invariant rest <= pending && requests.Keys == old(requests).Keys
        invariant forall id :: id in requests && (id in rest || id !in pending) ==> requests[id] == old(requests)[id]
        invariant forall id :: id in pending - rest ==> requests[id] == FailFuture(old(requests)[id], error)
      {
        var id :| id in rest;
        if requests[id].future.Waiting? {
          requests := requests[id := requests[id].(future := Error(error))];
        }
        rest := rest - {id};
      }
    }

    /** `for stream in self._streams.values(): stream.feed_error(error)`. */
    method FailRegistered(error: string)
      requires registered <= streams.Keys
      modifies this`streams
      ensures streams == FailStreams(old(View()), error)
    {
      var rest := registered;
      while rest != {}
        invariant rest <= registered && streams.Keys == old(streams).Keys
        invariant forall id :: id in streams && (id in rest || id !in registered) ==> streams[id] == old(streams)[id]
        invariant forall id :: id in registered - rest ==> streams[id] == S.Finish(old(streams)[id], S.Failure(error))
      {
        var id :| id in rest;
        streams := streams[id := S.Finish(streams[id], S.Failure(error))];
        rest := rest - {id};
      }
    }

    method Close(error: string)
      requires Good(View())
      modifies this
      ensures Good(View()) && View() == Apply(old(View()), Shutdown(error))
    {
      CloseKeepsGood(View(), error);
      if !closed {
        closed := true;
        FailPending(error);
        FailRegistered(error);
        pending := {};
        registered := {};
      }
    }
  }
}
