/**
 The Core side of one Node stream: a bounded queue that the connection's
 reader fills and one consumer drains, closed either by the Node (with an end
 or an error item) or locally.
*/
module NodeStreams {
  import opened Wrappers

  const QUEUE_DEPTH: nat := 32

  datatype Item = Chunk(data: seq<bv8>) | Control(control: string) | End | Failure(error: string)

  const OVERFLOW := Failure("stream_overflow")

  /** Chunks and controls are fed; an end or a failure terminates the stream. */
  predicate IsFed(i: Item) {
    i.Chunk? || i.Control?
  }

  datatype Stream = Stream(queue: seq<Item>, closed: bool)

  /**
   What happened to a stream so far: every item ever put in the queue, every
   item the consumer took out, the index of the enqueued item that was thrown
   away, and whether the stream was closed locally.
  */
  datatype Log = Log(enqueued: seq<Item>, taken: seq<Item>, lost: Option<nat>, shut: bool)

  datatype Tracked = Tracked(s: Stream, log: Log)

  const FRESH := Tracked(Stream([], false), Log([], [], None, false))

  function Put(t: Tracked, item: Item): Tracked {
    Tracked(t.s.(queue := t.s.queue + [item]), t.log.(enqueued := t.log.enqueued + [item]))
  }

  /** Close with a final item; a full queue first gives up its oldest item. */
  function Terminate(t: Tracked, item: Item): Tracked {
    if |t.s.queue| == QUEUE_DEPTH
    then Put(Tracked(Stream(t.s.queue[1..], true), t.log.(lost := Some(|t.log.taken|))), item)
    else Put(t.(s := t.s.(closed := true)), item)
  }

  function Feed(t: Tracked, item: Item): Tracked {
    if t.s.closed then t
    else if |t.s.queue| == QUEUE_DEPTH then Terminate(t, OVERFLOW)
    else Put(t, item)
  }

  function Finish(t: Tracked, item: Item): Tracked {
    if t.s.closed then t else Terminate(t, item)
  }

  function Take(t: Tracked): Tracked {
    if t.s.queue == [] then t
    else Tracked(t.s.(queue := t.s.queue[1..]), t.log.(taken := t.log.taken + [t.s.queue[0]]))
  }

  function Shut(t: Tracked): Tracked {
    if t.s.closed then t else Tracked(t.s.(closed := true), t.log.(shut := true))
  }

  // ------------------------------------------------------------- invariant

  /** The enqueued items without the one that was thrown away. */
  function Remaining(enqueued: seq<Item>, lost: Option<nat>): seq<Item> {
    if lost.Some? && lost.value < |enqueued|
    then enqueued[..lost.value] + enqueued[lost.value + 1..]
    else enqueued
  }

  /** A terminator is the last item ever enqueued. */
  ghost predicate TerminatorIsLast(log: Log) {
    forall i :: 0 <= i < |log.enqueued| - 1 ==> IsFed(log.enqueued[i])
  }

  predicate Terminated(log: Log) {
    log.enqueued != [] && !IsFed(log.enqueued[|log.enqueued| - 1])
  }

  /** The lost item was the oldest unread one of a full queue when the terminator came. */
  predicate LossIsExact(log: Log) {
    log.lost.Some? ==> Terminated(log) && log.lost.value + QUEUE_DEPTH + 1 == |log.enqueued|
                       && log.lost.value <= |log.taken|
  }

  ghost predicate Good(t: Tracked) {
    && |t.s.queue| <= QUEUE_DEPTH
    && t.log.taken + t.s.queue == Remaining(t.log.enqueued, t.log.lost)
    && TerminatorIsLast(t.log)
    && LossIsExact(t.log)
    && (t.s.closed <==> t.log.shut || Terminated(t.log))
    && !(t.log.shut && Terminated(t.log))
  }

  lemma PutKeepsGood(t: Tracked, item: Item)
    requires Good(t) && !t.s.closed && |t.s.queue| < QUEUE_DEPTH && IsFed(item)
    ensures Good(Put(t, item))
  {
    assert t.log.taken + (t.s.queue + [item]) == t.log.enqueued + [item];
  }

  lemma TerminateKeepsGood(t: Tracked, item: Item)
    requires Good(t) && !t.s.closed && !IsFed(item)
    ensures Good(Terminate(t, item)) && Terminate(t, item).s.closed
    ensures Terminate(t, item).log.lost
            == (if |t.s.queue| == QUEUE_DEPTH then Some(|t.log.taken|) else None)
  {
    var q, k := t.s.queue, |t.log.taken|;
    assert t.log.lost.None?;
    assert t.log.taken + (q + [item]) == t.log.enqueued + [item];
    if |q| == QUEUE_DEPTH {
      assert (t.log.enqueued + [item])[..k] == t.log.taken;
      assert (t.log.enqueued + [item])[k + 1..] == q[1..] + [item];
    }
  }

  lemma TakeKeepsGood(t: Tracked)
    requires Good(t)
    ensures Good(Take(t))
  {
    if t.s.queue != [] {
      assert t.log.taken + [t.s.queue[0]] + t.s.queue[1..] == t.log.taken + t.s.queue;
    }
  }

  // ------------------------------------------------------------------ runs

  datatype Event = Feeding(item: Item) | Finishing(item: Item) | Taking | Shutting

  /** Readers feed chunks and controls, and finish with an end or a failure. */
  predicate Legal(e: Event) {
    match e
    case Feeding(item) => IsFed(item)
    case Finishing(item) => !IsFed(item)
    case _ => true
  }

  function Step(t: Tracked, e: Event): Tracked {
    match e
    case Feeding(item) => Feed(t, item)
    case Finishing(item) => Finish(t, item)
    case Taking => Take(t)
    case Shutting => Shut(t)
  }

  function Play(events: seq<Event>): Tracked {
    if events == [] then FRESH else Step(Play(events[..|events| - 1]), events[|events| - 1])
  }

  predicate AllLegal(events: seq<Event>) {
    forall e :: e in events ==> Legal(e)
  }

  /** Everything the reader tried to feed, in order. */
  function Offered(events: seq<Event>): seq<Item> {
    if events == [] then []
    else
      var last := events[|events| - 1];
      Offered(events[..|events| - 1]) + (if last.Feeding? then [last.item] else [])
  }

  /** The enqueued items without a terminator. */
  function Payload(log: Log): seq<Item> {
    if Terminated(log) then log.enqueued[..|log.enqueued| - 1] else log.enqueued
  }

  lemma StepKeepsGood(t: Tracked, e: Event)
    requires Good(t) && Legal(e)
    ensures Good(Step(t, e))
  {
    match e
    case Feeding(item) =>
      if !t.s.closed {
        if |t.s.queue| < QUEUE_DEPTH {
          PutKeepsGood(t, item);
        } else {
          TerminateKeepsGood(t, OVERFLOW);
        }
      }
    case Finishing(item) =>
      if !t.s.closed {
        TerminateKeepsGood(t, item);
      }
    case Taking => TakeKeepsGood(t);
    case Shutting =>
  }

  /** The queue is bounded, terminates once, and loses at most the one item `LossIsExact` describes. */
  lemma {:induction false} EveryStreamIsGood(events: seq<Event>)
    requires AllLegal(events)
    ensures Good(Play(events))
  {
    if events != [] {
      EveryStreamIsGood(events[..|events| - 1]);
      StepKeepsGood(Play(events[..|events| - 1]), events[|events| - 1]);
    }
  }

  lemma PayloadOfPut(t: Tracked, item: Item)
    requires Good(t) && !t.s.closed
    ensures IsFed(item) ==> Payload(Put(t, item).log) == Payload(t.log) + [item]
    ensures !IsFed(item) ==> Payload(Terminate(t, item).log) == Payload(t.log)
  {
  }

  /** One event: what it adds to the enqueued items is what was offered. */
  lemma PayloadOfStep(t: Tracked, e: Event)
    requires Good(t) && Legal(e)
    ensures var payload := Payload(Step(t, e).log);
            payload == Payload(t.log) || (e.Feeding? && payload == Payload(t.log) + [e.item])
    ensures t.s.closed || e.Taking? || e.Shutting? ==> Payload(Step(t, e).log) == Payload(t.log)
    ensures !Step(t, e).s.closed && e.Feeding? ==> Payload(Step(t, e).log) == Payload(t.log) + [e.item]
  {
    if !t.s.closed && (e.Feeding? || e.Finishing?) {
      PayloadOfPut(t, e.item);
      PayloadOfPut(t, OVERFLOW);
    }
  }

  /** Once closed, nothing is enqueued, so the payload stays a prefix of the offers. */
  lemma PrefixGrows(s: seq<Item>, t: seq<Item>, more: seq<Item>)
    requires s <= t
    ensures s <= t + more
  {
  }

  /** What was enqueued is what was offered, in order: all of it while open, the first items of it afterwards. */
  lemma {:induction false} EnqueuedInOfferedOrder(events: seq<Event>)
    requires AllLegal(events)
    ensures Payload(Play(events).log) <= Offered(events)
    ensures !Play(events).s.closed ==> Payload(Play(events).log) == Offered(events)
  {
    if events != [] {
      var front, e := events[..|events| - 1], events[|events| - 1];
      EnqueuedInOfferedOrder(front);
      EveryStreamIsGood(front);
      PayloadOfStep(Play(front), e);
      PrefixGrows(Payload(Play(front).log), Offered(front), if e.Feeding? then [e.item] else []);
    }
  }

  /**
   What the consumer of a finished stream saw once it drained the queue: the
   offered items in order and then the terminator, except for one item when
   the queue was full at termination.
  */
  lemma DrainedConsumerSaw(events: seq<Event>)
    requires AllLegal(events)
    requires Play(events).s.closed && !Play(events).log.shut && Play(events).s.queue == []
    ensures var log := Play(events).log;
            && log.enqueued != [] && log.taken != [] && Payload(log) <= Offered(events)
            && log.taken == Remaining(Payload(log), log.lost) + [log.enqueued[|log.enqueued| - 1]]
            && !IsFed(log.taken[|log.taken| - 1])
            && forall i :: 0 <= i < |log.taken| - 1 ==> IsFed(log.taken[i])
  {
    EveryStreamIsGood(events);
    EnqueuedInOfferedOrder(events);
    var t := Play(events);
    assert t.log.taken + t.s.queue == t.log.taken;
  }

  lemma {:induction false} ClosedLogIsFinal(before: seq<Event>, after: seq<Event>)
    requires Play(before).s.closed
    ensures Play(before + after).s.closed
    ensures Play(before + after).log.(taken := []) == Play(before).log.(taken := [])
  {
    if after == [] {
      assert before + after == before;
    } else {
      var events := before + after;
      assert events[..|events| - 1] == before + after[..|after| - 1];
      ClosedLogIsFinal(before, after[..|after| - 1]);
    }
  }

  /**
   The item lost is decided by the event that terminates the stream: none if
   the queue had room, and otherwise the oldest item not yet read.
  */
  lemma LostIffFullAtTermination(before: seq<Event>, e: Event, after: seq<Event>)
    requires AllLegal(before) && Legal(e)
    requires !Play(before).s.closed && Terminated(Play(before + [e]).log)
    ensures var t := Play(before);
            Play(before + [e] + after).log.lost
            == (if |t.s.queue| == QUEUE_DEPTH then Some(|t.log.taken|) else None)
    ensures Play(before).log.enqueued == Play(before).log.taken + Play(before).s.queue
  {
    EveryStreamIsGood(before);
    var t := Play(before);
    var events := before + [e];
    assert events[..|events| - 1] == before;
    match e {
      case Feeding(item) =>
        if |t.s.queue| == QUEUE_DEPTH {
          TerminateKeepsGood(t, OVERFLOW);
        }
      case Finishing(item) => TerminateKeepsGood(t, item);
      case Taking =>
      case Shutting =>
    }
    ClosedLogIsFinal(events, after);
  }

  /**
   What closes an open stream, and how it ends: its owner, an end or an error
   from outside, or an item fed when thirty-two are unread.
  */
  lemma OpenStreamClosesIff(events: seq<Event>, e: Event)
    requires AllLegal(events) && !Play(events).s.closed
    requires e.Feeding? ==> e.item.Chunk? || e.item.Control?
    requires e.Finishing? ==> e.item.End? || e.item.Failure?
    ensures var t, t' := Play(events), Play(events + [e]);
            && (t'.s.closed <==> e.Shutting? || e.Finishing? || (e.Feeding? && |t.s.queue| == 32))
            && (t'.s.closed && !e.Shutting? ==>
                  t'.log.enqueued == t.log.enqueued + [if e.Finishing? then e.item else Failure("stream_overflow")])
            && (e.Shutting? ==> t'.s.queue == t.s.queue && t'.log.enqueued == t.log.enqueued)
            && (!t'.s.closed && e.Feeding? ==> t'.s.queue == t.s.queue + [e.item] && t'.log.enqueued == t.log.enqueued + [e.item])
  {
    assert (events + [e])[..|events|] == events;
    EveryStreamIsGood(events);
  }

  /** Reading takes the oldest item, from an open or a closed stream. */
  lemma TakingIsInOrder(events: seq<Event>)
    ensures var t, t' := Play(events), Play(events + [Taking]);
            && t'.s.closed == t.s.closed && t'.log.enqueued == t.log.enqueued
            && (if t.s.queue == [] then t' == t
                else t'.s.queue == t.s.queue[1..] && t'.log.taken == t.log.taken + [t.s.queue[0]])
  {
    assert (events + [Taking])[..|events|] == events;
  }

  // ---------------------------------------------------------- mutable form

  datatype Received = Pending | Got(item: Item) | Ended | Raised(error: string)

  class NodeStream {
    var queue: seq<Item>
    var closed: bool
    ghost var log: Log

    ghost function View(): Tracked
      reads this
    {
      Tracked(Stream(queue, closed), log)
    }

    constructor ()
      ensures View() == FRESH
    {
      queue := [];
      closed := false;
      log := FRESH.log;
    }

    /** `_replace_queue_tail`. */
    method ReplaceQueueTail(item: Item)
      requires Good(View().(s := Stream(queue, false))) && closed && !IsFed(item)
      modifies this
      ensures View() == Terminate(old(View()).(s := Stream(old(queue), false)), item)
    {
      if |queue| == QUEUE_DEPTH {
        log := log.(lost := Some(|log.taken|));
        queue := queue[1..];
      }
      queue := queue + [item];
      log := log.(enqueued := log.enqueued + [item]);
    }

    method FeedError(item: Item)
      requires Good(View()) && !IsFed(item)
      modifies this
      ensures Good(View()) && View() == Finish(old(View()), item)
    {
      if !closed {
        TerminateKeepsGood(View(), item);
        closed := true;
        ReplaceQueueTail(item);
      }
    }

    /** `feed_data` and `feed_control`; `ok` is false when the overflow is raised. */
    method FeedItem(item: Item) returns (ok: bool)
      requires Good(View()) && IsFed(item)
      modifies this
      ensures Good(View()) && View() == Feed(old(View()), item)
      ensures !ok <==> !old(closed) && closed
      ensures !ok ==> queue[|queue| - 1] == OVERFLOW
    {
      ok := true;
      if !closed {
        if |queue| == QUEUE_DEPTH {
          FeedError(OVERFLOW);
          ok := false;
        } else {
          PutKeepsGood(View(), item);
          queue := queue + [item];
          log := log.(enqueued := log.enqueued + [item]);
        }
      }
    }

    /** The local half of `close` and `abort`, before their awaited send. */
    method BeginClose() returns (send: bool)
      requires Good(View())
      modifies this
      ensures Good(View()) && View() == Shut(old(View())) && send == !old(closed)
    {
      send := !closed;
      if !closed {
        closed := true;
        log := log.(shut := true);
      }
    }

    /** `receive_event`; an empty queue leaves the consumer waiting. */
    method ReceiveEvent() returns (r: Received)
      requires Good(View())
      modifies this
      ensures Good(View()) && View() == Take(old(View()))
      ensures r == if old(queue) == [] then Pending else EventOf(old(queue)[0])
    {
      if queue == [] {
        r := Pending;
      } else {
        TakeKeepsGood(View());
        r := EventOf(queue[0]);
        log := log.(taken := log.taken + [queue[0]]);
        queue := queue[1..];
      }
    }

    /** `receive`: drop controls until something else is at the head of the queue. */
    method Receive() returns (r: Received)
      requires Good(View())
      modifies this
      ensures Good(View()) && View() == TakeData(old(View())) && r == FirstData(old(queue))
    {
      r := ReceiveEvent();
      while r.Got? && r.item.Control?
        invariant Good(View())
        invariant (if r.Got? && r.item.Control?
                   then TakeData(View()) == TakeData(old(View())) && FirstData(queue) == FirstData(old(queue))
                   else View() == TakeData(old(View())) && r == FirstData(old(queue)))
        decreases |queue|, r.Got?
      {
        r := ReceiveEvent();
      }
    }
  }

  function EventOf(i: Item): Received {
    match i
    case End => Ended
    case Failure(error) => Raised(error)
    case _ => Got(i)
  }

  /** Take items up to and including the first that is not a control. */
  function TakeData(t: Tracked): Tracked
    decreases |t.s.queue|
  {
    if t.s.queue == [] || !t.s.queue[0].Control? then Take(t) else TakeData(Take(t))
  }

  function FirstData(queue: seq<Item>): Received {
    if queue == [] then Pending
    else if queue[0].Control? then FirstData(queue[1..])
    else EventOf(queue[0])
  }

  /** A data consumer skips exactly the controls in front of the next chunk or terminator. */
  lemma {:induction false} ReceiveSkipsControls(t: Tracked, n: nat)
    requires n <= |t.s.queue| && (forall i :: 0 <= i < n ==> t.s.queue[i].Control?)
    requires n < |t.s.queue| ==> !t.s.queue[n].Control?
    ensures var read := if n < |t.s.queue| then n + 1 else n;
            && TakeData(t).s.queue == t.s.queue[read..]
            && TakeData(t).log.taken == t.log.taken + t.s.queue[..read]
            && TakeData(t).log.enqueued == t.log.enqueued
    ensures FirstData(t.s.queue) == if n < |t.s.queue| then EventOf(t.s.queue[n]) else Pending
    decreases n
  {
    if n > 0 {
      ReceiveSkipsControls(Take(t), n - 1);
      var read := if n < |t.s.queue| then n + 1 else n;
      assert t.s.queue[..read] == [t.s.queue[0]] + t.s.queue[1..][..read - 1];
    }
  }
}
