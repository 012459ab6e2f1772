/**
 The Activity event log and its delivery to notification devices
 (`events`, `notification_devices` and `event_notification_claims`).

 `Log` is the content of the three tables, the functions on it are the
 transactions, class `ActivityStore` performs them statement by statement, and
 `History` runs them over time while remembering what every device received.
*/
module ActivityLog {
  type DeviceId = string

  datatype Subject = FileRunSubject(id: string) | RemoteRunSubject(id: string)

  datatype Event = Event(subject: Subject, revision: nat, notify: bool, occurredAt: int)

  datatype Device = Device(startSequence: nat, lastSeen: int)

  /** One row of `event_notification_claims`; the event is named by its sequence. */
  datatype Claim = Claim(sequence: nat, device: DeviceId)

  /** `lastSequence` is the AUTOINCREMENT counter, which no deletion lowers. */
  datatype Log = Log(
    events: map<nat, Event>,
    lastSequence: nat,
    devices: map<DeviceId, Device>,
    claims: set<Claim>)

  const EMPTY_LOG := Log(map[], 0, map[], {})

  const EVENT_RETENTION: int := 30 * 24 * 3600
  const DEVICE_RETENTION: int := 90 * 24 * 3600
  const CLEANUP_INTERVAL: int := 6 * 3600
  const MAX_POLL: nat := 50

  // ---------------------------------------------------------------- queries

  predicate HasEvent(events: map<nat, Event>, subject: Subject, revision: nat) {
    exists s :: s in events && events[s].subject == subject && events[s].revision == revision
  }

  predicate Eligible(events: map<nat, Event>, s: nat, device: Device) {
    s in events && events[s].notify && s > device.startSequence
  }

  /** The events a poll may still claim for `id`. */
  function Unclaimed(log: Log, id: DeviceId): set<nat>
    requires id in log.devices
  {
    set s | s in log.events && Eligible(log.events, s, log.devices[id]) && Claim(s, id) !in log.claims
  }

  ghost predicate Ascending(s: seq<nat>) {
    forall i, j :: 0 <= i < j < |s| ==> s[i] < s[j]
  }

  predicate IsMin(m: nat, s: set<nat>) {
    m in s && forall x :: x in s ==> m <= x
  }

  lemma {:induction false} MinExists(s: set<nat>)
    requires s != {}
    ensures exists m :: IsMin(m, s)
    decreases s
  {
    var m :| m in s;
    if !IsMin(m, s) {
      var rest := s - {m};
      var below :| below in s && below < m;
      assert below in rest;
      MinExists(rest);
      var n :| IsMin(n, rest);
      assert n <= below;
      assert forall x :: x in s ==> x == m || x in rest;
      assert IsMin(n, s);
    }
  }

  function Min(s: set<nat>): (m: nat)
    requires s != {}
    ensures m in s && forall x :: x in s ==> m <= x
  {
    MinExists(s);
    var m :| m in s && IsMin(m, s);
    m
  }

  /** ORDER BY sequence LIMIT n. */
  function Oldest(s: set<nat>, n: nat): (r: seq<nat>)
    ensures Ascending(r)
    ensures forall x :: x in r ==> x in s
    ensures forall x, y :: x in r && y in s && y !in r ==> x < y
    ensures |r| == if |s| <= n then |s| else n
    decreases n
  {
    if n == 0 || s == {} then []
    else
      var m := Min(s);
      var rest := Oldest(s - {m}, n - 1);
      assert |s - {m}| == |s| - 1;
      assert forall i :: 0 <= i < |rest| ==> rest[i] in rest && m < rest[i];
      [m] + rest
  }

  function Max(s: set<nat>): (m: nat)
    ensures s == {} ==> m == 0
    ensures forall x :: x in s ==> x <= m
    ensures s != {} ==> m in s
    decreases |s|
  {
    if s == {} then 0
    else
      var low := Min(s);
      var rest := s - {low};
      assert s == rest + {low};
      if rest == {} then low else Max(rest)
  }

  function Limit(requested: int): (r: nat)
    ensures 1 <= r <= MAX_POLL
  {
    var low := if requested < MAX_POLL then requested else MAX_POLL;
    if low > 1 then low else 1
  }

  // ----------------------------------------------------------- transactions

  /** ON CONFLICT(subject_type, subject_id, subject_revision) DO NOTHING. */
  function InsertEvent(log: Log, e: Event): Log {
    if HasEvent(log.events, e.subject, e.revision) then log
    else log.(events := log.events[log.lastSequence + 1 := e], lastSequence := log.lastSequence + 1)
  }

  function SurvivingEvents(events: map<nat, Event>, now: int): map<nat, Event> {
    map s | s in events && events[s].occurredAt >= now - EVENT_RETENTION :: events[s]
  }

  function SurvivingDevices(devices: map<DeviceId, Device>, now: int): map<DeviceId, Device> {
    map id | id in devices && devices[id].lastSeen >= now - DEVICE_RETENTION :: devices[id]
  }

  /** ON DELETE CASCADE from both sides of a claim. */
  function Cascade(claims: set<Claim>, events: map<nat, Event>, devices: map<DeviceId, Device>): set<Claim> {
    set c | c in claims && c.device in devices && c.sequence in events
  }

  function Cleanup(log: Log, now: int): Log {
    var events := SurvivingEvents(log.events, now);
    var devices := SurvivingDevices(log.devices, now);
    Log(events, log.lastSequence, devices, Cascade(log.claims, events, devices))
  }

  function Register(log: Log, id: DeviceId, now: int): Log {
    log.(devices := log.devices[id := Device(Max(log.events.Keys), now)])
  }

  function Batch(log: Log, id: DeviceId, limit: int): seq<nat>
    requires id in log.devices
  {
    Oldest(Unclaimed(log, id), Limit(limit))
  }

  function ClaimsFor(batch: seq<nat>, id: DeviceId): set<Claim> {
    set s | s in batch :: Claim(s, id)
  }

  /** The part of a poll after its cleanup: register silently, or claim the oldest batch. */
  function Poll(log: Log, id: DeviceId, limit: int, now: int): (Log, seq<nat>) {
    if id !in log.devices then (Register(log, id, now), [])
    else
      var batch := Batch(log, id, limit);
      (log.(devices := log.devices[id := log.devices[id].(lastSeen := now)],
            claims := log.claims + ClaimsFor(batch, id)),
       batch)
  }

  // ------------------------------------------------------------ the methods

  class ActivityStore {
    var events: map<nat, Event>
    var lastSequence: nat
    var devices: map<DeviceId, Device>
    var claims: set<Claim>
    var cleanupAt: int

    ghost function Contents(): Log
      reads this
    {
      Log(events, lastSequence, devices, claims)
    }

    constructor ()
      ensures Contents() == EMPTY_LOG && cleanupAt == 0
    {
      events, lastSequence, devices, claims, cleanupAt := map[], 0, map[], {}, 0;
    }

    method Insert(e: Event)
      modifies this
      ensures Contents() == InsertEvent(old(Contents()), e) && cleanupAt == old(cleanupAt)
      ensures if exists s :: s in old(events) && old(events)[s].subject == e.subject && old(events)[s].revision == e.revision
              then Contents() == old(Contents())
              else lastSequence == old(lastSequence) + 1 && events == old(events)[lastSequence := e]
                   && devices == old(devices) && claims == old(claims)
    {
      if !HasEvent(events, e.subject, e.revision) {
        lastSequence := lastSequence + 1;
        events := events[lastSequence := e];
      }
    }

    /** `_cleanup_activity_history`: at most every six hours unless forced. */
    method CleanupHistory(now: int, monotonic: int, force: bool)
      modifies this
      ensures !force && monotonic < old(cleanupAt) ==> Contents() == old(Contents()) && cleanupAt == old(cleanupAt)
      ensures force || monotonic >= old(cleanupAt) ==>
        Contents() == Cleanup(old(Contents()), now) && cleanupAt == monotonic + CLEANUP_INTERVAL
      // Thirty days of events, ninety days of devices, the claims between them, six hours of peace.
      ensures force || monotonic >= old(cleanupAt) ==>
        && (forall s :: s in events <==> s in old(events) && old(events)[s].occurredAt >= now - 2592000)
        && (forall s :: s in events ==> events[s] == old(events)[s])
        && (forall id :: id in devices <==> id in old(devices) && old(devices)[id].lastSeen >= now - 7776000)
        && (forall id :: id in devices ==> devices[id] == old(devices)[id])
        && (forall c :: c in claims <==> c in old(claims) && c.device in devices && c.sequence in events)
        && lastSequence == old(lastSequence) && cleanupAt == monotonic + 21600
    {
      if !force && monotonic < cleanupAt {
        return;
      }
      cleanupAt := monotonic + CLEANUP_INTERVAL;
      events := SurvivingEvents(events, now);
      claims := Cascade(claims, events, devices);
      devices := SurvivingDevices(devices, now);
      claims := Cascade(claims, events, devices);
      assert claims == Cascade(old(claims), events, devices);
    }

    /** `claim_event_notifications`. */
    method ClaimNotifications(id: DeviceId, limit: int, now: int, monotonic: int) returns (delivered: seq<nat>)
      modifies this
      ensures var start := if monotonic < old(cleanupAt) then old(Contents()) else Cleanup(old(Contents()), now);
              (Contents(), delivered) == Poll(start, id, limit, now)
    {
      CleanupHistory(now, monotonic, false);
      ghost var start := Contents();
      delivered := [];
      if id !in devices {
        devices := devices[id := Device(Max(events.Keys), now)];
        return;
      }
      var open := set s | s in events && Eligible(events, s, devices[id]) && Claim(s, id) !in claims;
      var candidates := Oldest(open, Limit(limit));
      assert open == Unclaimed(start, id);
      assert candidates == Batch(start, id, limit);
      devices := devices[id := devices[id].(lastSeen := now)];
      for k := 0 to |candidates|
        invariant delivered == candidates[..k]
        invariant claims == start.claims + ClaimsFor(candidates[..k], id)
        invariant events == start.events && lastSequence == start.lastSequence
        invariant devices == start.devices[id := start.devices[id].(lastSeen := now)]
      {
        var claim := Claim(candidates[k], id);
        assert candidates[..k + 1] == candidates[..k] + [candidates[k]];
        assert candidates[k] in open && candidates[k] !in candidates[..k];
        // INSERT ... ON CONFLICT DO NOTHING; only an inserted row is reported.
        if claim !in claims {
          claims := claims + {claim};
          delivered := delivered + [candidates[k]];
        }
      }
      assert candidates[..|candidates|] == candidates;
    }
  }

  // ---------------------------------------------------- histories of events

  datatype Step =
    | InsertStep(event: Event)
    | CleanupStep(now: int)
    | PollStep(id: DeviceId, limit: int, now: int)

  /**
   A log together with everything that ever happened to it: all events ever
   inserted, and what each device id received over all its registrations.
  */
  datatype History = History(log: Log, inserted: map<nat, Event>, received: map<DeviceId, seq<nat>>)

  const BEGINNING := History(EMPTY_LOG, map[], map[])

  function Received(h: History, id: DeviceId): seq<nat> {
    if id in h.received then h.received[id] else []
  }

  function After(h: History, step: Step): History {
    match step
    case InsertStep(e) =>
      var log := InsertEvent(h.log, e);
      History(log, if log == h.log then h.inserted else h.inserted[log.lastSequence := e], h.received)
    case CleanupStep(now) =>
      h.(log := Cleanup(h.log, now))
    case PollStep(id, limit, now) =>
      var (log, delivered) := Poll(h.log, id, limit, now);
      h.(log := log, received := h.received[id := Received(h, id) + delivered])
  }

  function Run(h: History, steps: seq<Step>): History {
    if steps == [] then h else After(Run(h, steps[..|steps| - 1]), steps[|steps| - 1])
  }

  // --------------------------------------------------------- the invariants

  /** Sequences are bounded by the counter, and claims belong to registered devices. */
  ghost predicate Bounded(h: History) {
    && (forall s :: s in h.log.events ==> s <= h.log.lastSequence && s in h.inserted && h.inserted[s] == h.log.events[s])
    && (forall s :: s in h.inserted ==> 1 <= s <= h.log.lastSequence)
    && (forall c :: c in h.log.claims ==> c.device in h.log.devices && c.sequence in h.log.events)
  }

  /** The claimed events of every device form a prefix of its eligible surviving events. */
  ghost predicate ClaimsArePrefixes(log: Log) {
    forall id, s, t :: id in log.devices && Eligible(log.events, s, log.devices[id]) && s < t
      && t in log.events && Claim(t, id) in log.claims
      ==> Claim(s, id) in log.claims
  }

  ghost predicate ReceivedInOrder(h: History) {
    forall id :: Ascending(Received(h, id))
      && forall s :: s in Received(h, id) ==> s in h.inserted && h.inserted[s].notify
  }

  ghost predicate ClaimedIsReceived(h: History) {
    forall id, s :: s in h.log.events && Claim(s, id) in h.log.claims ==> s in Received(h, id)
  }

  /** Whatever a device can still receive is newer than all it ever received. */
  ghost predicate OutstandingIsNewer(h: History) {
    forall id, s, t :: id in h.log.devices && s in Received(h, id) && t in Unclaimed(h.log, id) ==> s < t
  }

  ghost predicate Good(h: History) {
    Bounded(h) && ClaimsArePrefixes(h.log) && ReceivedInOrder(h) && ClaimedIsReceived(h) && OutstandingIsNewer(h)
  }

  lemma InsertKeepsGood(h: History, e: Event)
    requires Good(h)
    ensures Good(After(h, InsertStep(e)))
  {
    var h' := After(h, InsertStep(e));
    assert forall id :: Received(h', id) == Received(h, id);
    if !HasEvent(h.log.events, e.subject, e.revision) {
      forall id, s, t | id in h'.log.devices && s in Received(h', id) && t in Unclaimed(h'.log, id)
        ensures s < t
      {
        if t in h.log.events {
          assert t in Unclaimed(h.log, id);
        } else {
          assert s in Received(h, id) && s in h.inserted;
        }
      }
      forall id, s, t | id in h'.log.devices && Eligible(h'.log.events, s, h'.log.devices[id]) && s < t
        && t in h'.log.events && Claim(t, id) in h'.log.claims
        ensures Claim(s, id) in h'.log.claims
      {
        if t in h.log.events {
          assert Eligible(h.log.events, s, h.log.devices[id]);
        }
      }
    }
  }

  lemma CleanupKeepsGood(h: History, now: int)
    requires Good(h)
    ensures Good(After(h, CleanupStep(now)))
  {
    var h' := After(h, CleanupStep(now));
    assert forall id :: Received(h', id) == Received(h, id);
    forall id, s, t | id in h'.log.devices && s in Received(h', id) && t in Unclaimed(h'.log, id)
      ensures s < t
    {
      assert t in Unclaimed(h.log, id);
    }
    forall id, s, t | id in h'.log.devices && Eligible(h'.log.events, s, h'.log.devices[id]) && s < t
      && t in h'.log.events && Claim(t, id) in h'.log.claims
      ensures Claim(s, id) in h'.log.claims
    {
      assert Eligible(h.log.events, s, h.log.devices[id]);
    }
  }

  /** A device that registers, possibly again, starts after everything that still exists. */
  lemma RegisterKeepsGood(h: History, id: DeviceId, limit: int, now: int)
    requires Good(h) && id !in h.log.devices
    ensures Good(After(h, PollStep(id, limit, now)))
  {
    var h' := After(h, PollStep(id, limit, now));
    assert forall other :: Received(h', other) == Received(h, other);
    assert forall s :: !Eligible(h'.log.events, s, h'.log.devices[id]);
    forall other, s, t | other in h'.log.devices && s in Received(h', other) && t in Unclaimed(h'.log, other)
      ensures s < t
    {
      assert other != id && t in Unclaimed(h.log, other);
    }
    forall other, s, t | other in h'.log.devices && Eligible(h'.log.events, s, h'.log.devices[other]) && s < t
      && t in h'.log.events && Claim(t, other) in h'.log.claims
      ensures Claim(s, other) in h'.log.claims
    {
      assert other != id && Eligible(h.log.events, s, h.log.devices[other]);
    }
  }

  lemma AppendAscending(a: seq<nat>, b: seq<nat>)
    requires Ascending(a) && Ascending(b)
    requires forall x, y :: x in a && y in b ==> x < y
    ensures Ascending(a + b)
  {
    forall i, j | 0 <= i < j < |a + b| ensures (a + b)[i] < (a + b)[j] {
      if i < |a| <= j {
        assert a[i] in a && b[j - |a|] in b;
      }
    }
  }

  lemma ReceivedAfterPoll(h: History, id: DeviceId, limit: int, now: int, other: DeviceId)
    requires id in h.log.devices
    ensures Received(After(h, PollStep(id, limit, now)), other)
         == Received(h, other) + if other == id then Batch(h.log, id, limit) else []
  {
  }

  lemma ClaimKeepsReceivedInOrder(h: History, id: DeviceId, limit: int, now: int)
    requires Bounded(h) && ReceivedInOrder(h) && OutstandingIsNewer(h) && id in h.log.devices
    ensures ReceivedInOrder(After(h, PollStep(id, limit, now)))
  {
    var h' := After(h, PollStep(id, limit, now));
    var batch := Batch(h.log, id, limit);
    AppendAscending(Received(h, id), batch);
    forall other
      ensures Ascending(Received(h', other))
      ensures forall s :: s in Received(h', other) ==> s in h'.inserted && h'.inserted[s].notify
    {
      ReceivedAfterPoll(h, id, limit, now, other);
      assert Ascending(Received(h, other));
    }
  }

  lemma ClaimKeepsClaimedIsReceived(h: History, id: DeviceId, limit: int, now: int)
    requires ClaimedIsReceived(h) && id in h.log.devices
    ensures ClaimedIsReceived(After(h, PollStep(id, limit, now)))
  {
    var h' := After(h, PollStep(id, limit, now));
    forall other, s | s in h'.log.events && Claim(s, other) in h'.log.claims
      ensures s in Received(h', other)
    {
      ReceivedAfterPoll(h, id, limit, now, other);
    }
  }

  lemma ClaimKeepsOutstandingIsNewer(h: History, id: DeviceId, limit: int, now: int)
    requires OutstandingIsNewer(h) && id in h.log.devices
    ensures OutstandingIsNewer(After(h, PollStep(id, limit, now)))
  {
    var h' := After(h, PollStep(id, limit, now));
    forall other, s, t | other in h'.log.devices && s in Received(h', other) && t in Unclaimed(h'.log, other)
      ensures s < t
    {
      ReceivedAfterPoll(h, id, limit, now, other);
      assert t in Unclaimed(h.log, other);
      if other == id {
        UnclaimedAfterPoll(h.log, id, limit, now, t);
      }
    }
  }

  lemma ClaimKeepsPrefixes(log: Log, id: DeviceId, limit: int, now: int)
    requires ClaimsArePrefixes(log) && id in log.devices
    ensures ClaimsArePrefixes(Poll(log, id, limit, now).0)
  {
    var log' := Poll(log, id, limit, now).0;
    var batch := Batch(log, id, limit);
    forall i, s, t | i in log'.devices && Eligible(log'.events, s, log'.devices[i]) && s < t
      && t in log'.events && Claim(t, i) in log'.claims
      ensures Claim(s, i) in log'.claims
    {
      assert Eligible(log.events, s, log.devices[i]);
      if Claim(t, i) !in log.claims && Claim(s, i) !in log.claims {
        assert i == id && t in batch && s in Unclaimed(log, id);
        assert s in batch;
        assert Claim(s, id) in ClaimsFor(batch, id);
      }
    }
  }

  lemma StepKeepsGood(h: History, step: Step)
    requires Good(h)
    ensures Good(After(h, step))
  {
    match step
    case InsertStep(e) => InsertKeepsGood(h, e);
    case CleanupStep(now) => CleanupKeepsGood(h, now);
    case PollStep(id, limit, now) =>
      if id in h.log.devices {
        ClaimKeepsReceivedInOrder(h, id, limit, now);
        ClaimKeepsClaimedIsReceived(h, id, limit, now);
        ClaimKeepsOutstandingIsNewer(h, id, limit, now);
        ClaimKeepsPrefixes(h.log, id, limit, now);
      } else {
        RegisterKeepsGood(h, id, limit, now);
      }
  }

  lemma {:induction false} RunKeepsGood(h: History, steps: seq<Step>)
    requires Good(h)
    ensures Good(Run(h, steps))
  {
    if steps != [] {
      RunKeepsGood(h, steps[..|steps| - 1]);
      StepKeepsGood(Run(h, steps[..|steps| - 1]), steps[|steps| - 1]);
    }
  }

  // ------------------------------------------------------------ the results

  /** Over any history a device receives notify events in strictly increasing sequence, none twice. */
  lemma DeliveryIsOrderedAndUnique(steps: seq<Step>, id: DeviceId, i: nat, j: nat)
    requires i < j < |Received(Run(BEGINNING, steps), id)|
    ensures var h := Run(BEGINNING, steps);
            var got := Received(h, id);
            got[i] < got[j] && got[i] in h.inserted && h.inserted[got[i]].notify
  {
    RunKeepsGood(BEGINNING, steps);
    var got := Received(Run(BEGINNING, steps), id);
    assert Ascending(got) && got[i] in got;
  }

  /**
   Nothing is skipped: an event inserted with notify set after the device's
   current registration has been received, or no longer exists, or is newer
   than everything received so far and therefore still to come.
  */
  lemma DeliverySkipsOnlyPrunedEvents(steps: seq<Step>, id: DeviceId, s: nat)
    requires var h := Run(BEGINNING, steps);
             id in h.log.devices && Eligible(h.inserted, s, h.log.devices[id])
    ensures var h := Run(BEGINNING, steps);
            || s in Received(h, id)
            || s !in h.log.events
            || (s in Unclaimed(h.log, id) && forall r :: r in Received(h, id) ==> r < s)
  {
    RunKeepsGood(BEGINNING, steps);
  }

  /** In every reachable state the claimed events are a prefix of the eligible surviving ones. */
  lemma ClaimedSetIsAPrefix(steps: seq<Step>, id: DeviceId, s: nat, t: nat)
    requires var log := Run(BEGINNING, steps).log;
             && id in log.devices && Eligible(log.events, s, log.devices[id])
             && s < t && Claim(t, id) in log.claims
    ensures Claim(s, id) in Run(BEGINNING, steps).log.claims
  {
    RunKeepsGood(BEGINNING, steps);
  }

  lemma UnclaimedAfterPoll(log: Log, id: DeviceId, limit: int, now: int, s: nat)
    requires id in log.devices
    ensures var (log', got) := Poll(log, id, limit, now);
            s in Unclaimed(log', id) <==> s in Unclaimed(log, id) && s !in got
  {
    var (log', got) := Poll(log, id, limit, now);
    assert Claim(s, id) in ClaimsFor(got, id) <==> s in got;
    assert Eligible(log'.events, s, log'.devices[id]) == Eligible(log.events, s, log.devices[id]);
  }

  /**
   Progress: a poll of a registered device delivers the oldest unclaimed
   eligible events, as many as the limit allows, and afterwards exactly those
   are no longer unclaimed.
  */
  lemma PollDeliversTheOldest(log: Log, id: DeviceId, limit: int, now: int)
    requires id in log.devices
    ensures var (log', got) := Poll(log, id, limit, now);
            && |got| == (if |Unclaimed(log, id)| <= Limit(limit) then |Unclaimed(log, id)| else Limit(limit))
            && (forall s :: s in Unclaimed(log', id) <==> s in Unclaimed(log, id) && s !in got)
            && (forall s, t :: s in got && t in Unclaimed(log', id) ==> s < t)
  {
    var (log', got) := Poll(log, id, limit, now);
    assert got == Oldest(Unclaimed(log, id), Limit(limit));
    forall s ensures s in Unclaimed(log', id) <==> s in Unclaimed(log, id) && s !in got {
      UnclaimedAfterPoll(log, id, limit, now, s);
    }
  }

  // ------------------------------------------------------ deliveries by time

  /** Step `k` is a poll by which the device registers, possibly again. */
  predicate RegistersAt(steps: seq<Step>, k: nat, id: DeviceId) {
    && k < |steps| && steps[k].PollStep? && steps[k].id == id
    && id !in Run(BEGINNING, steps[..k]).log.devices
  }

  predicate StaysRegistered(steps: seq<Step>, k: nat, id: DeviceId) {
    forall n :: k < n <= |steps| ==> id in Run(BEGINNING, steps[..n]).log.devices
  }

  /** Events inserted after the history `base`, and only they, lie beyond the device's start. */
  ghost predicate StartsAfter(base: History, h: History, id: DeviceId)
    requires id in h.log.devices
  {
    var start := h.log.devices[id].startSequence;
    && start <= h.log.lastSequence
    && (forall s :: s in base.inserted ==> s in h.inserted && h.inserted[s] == base.inserted[s])
    && (forall s :: s in base.inserted && s in h.log.events ==> s <= start)
    && (forall s :: s in h.inserted && s !in base.inserted ==> start < s)
  }

  /** What was delivered since `base` was inserted since `base`. */
  ghost predicate ReceivedSince(base: History, h: History, id: DeviceId) {
    && Received(base, id) <= Received(h, id)
    && forall i :: |Received(base, id)| <= i < |Received(h, id)| ==> Received(h, id)[i] !in base.inserted
  }

  lemma RegistrationStarts(base: History, id: DeviceId, limit: int, now: int)
    requires Good(base) && id !in base.log.devices
    ensures var h := After(base, PollStep(id, limit, now));
            id in h.log.devices && StartsAfter(base, h, id) && ReceivedSince(base, h, id)
  {
    assert forall s :: s in base.log.events ==> s <= Max(base.log.events.Keys);
    if base.log.events.Keys != {} {
      assert Max(base.log.events.Keys) in base.log.events;
    }
  }

  lemma StepStartsAfter(base: History, h: History, id: DeviceId, step: Step)
    requires Good(h) && id in h.log.devices && id in After(h, step).log.devices && StartsAfter(base, h, id)
    ensures StartsAfter(base, After(h, step), id)
  {
    assert After(h, step).log.devices[id].startSequence == h.log.devices[id].startSequence;
  }

  lemma StepReceivedSince(base: History, h: History, id: DeviceId, step: Step)
    requires Good(h) && id in h.log.devices && StartsAfter(base, h, id) && ReceivedSince(base, h, id)
    ensures ReceivedSince(base, After(h, step), id)
  {
    if step.PollStep? && step.id == id {
      var batch := Batch(h.log, id, step.limit);
      ReceivedAfterPoll(h, id, step.limit, step.now, id);
      forall s | s in batch ensures s !in base.inserted {
        assert s in Unclaimed(h.log, id);
      }
      forall i | |Received(base, id)| <= i < |Received(h, id) + batch| ensures (Received(h, id) + batch)[i] !in base.inserted {
        if i >= |Received(h, id)| {
          assert batch[i - |Received(h, id)|] in batch;
        }
      }
    } else {
      assert Received(After(h, step), id) == Received(h, id);
    }
  }

  lemma {:induction false} RegisteredSince(steps: seq<Step>, k: nat, id: DeviceId)
    requires RegistersAt(steps, k, id) && StaysRegistered(steps, k, id)
    ensures var base, h := Run(BEGINNING, steps[..k]), Run(BEGINNING, steps);
            && Good(h) && id in h.log.devices && StartsAfter(base, h, id) && ReceivedSince(base, h, id)
    decreases |steps|
  {
    var front, last := steps[..|steps| - 1], steps[|steps| - 1];
    RunKeepsGood(BEGINNING, steps);
    RunKeepsGood(BEGINNING, front);
    assert steps[..|steps|] == steps && id in Run(BEGINNING, steps[..|steps|]).log.devices;
    if k == |steps| - 1 {
      RegistrationStarts(Run(BEGINNING, front), id, last.limit, last.now);
    } else {
      assert front[..k] == steps[..k];
      forall n | k < n <= |front| ensures id in Run(BEGINNING, front[..n]).log.devices {
        assert front[..n] == steps[..n];
      }
      RegisteredSince(front, k, id);
      StepStartsAfter(Run(BEGINNING, steps[..k]), Run(BEGINNING, front), id, last);
      StepReceivedSince(Run(BEGINNING, steps[..k]), Run(BEGINNING, front), id, last);
    }
  }

  /**
   Every notify event inserted after the step by which a device registered has
   been received, or is pruned, or is outstanding and newer than all received.
  */
  lemma LaterEventsAreDelivered(steps: seq<Step>, k: nat, id: DeviceId, s: nat)
    requires RegistersAt(steps, k, id) && StaysRegistered(steps, k, id)
    requires s in Run(BEGINNING, steps).inserted && s !in Run(BEGINNING, steps[..k]).inserted
    requires Run(BEGINNING, steps).inserted[s].notify
    ensures var h := Run(BEGINNING, steps);
            && id in h.log.devices
            && (|| s in Received(h, id)
                || s !in h.log.events
                || (s in Unclaimed(h.log, id) && forall r :: r in Received(h, id) ==> r < s))
  {
    RegisteredSince(steps, k, id);
    DeliverySkipsOnlyPrunedEvents(steps, id, s);
  }

  /** No event inserted before a registration is delivered in it. */
  lemma EarlierEventsAreNotDelivered(steps: seq<Step>, k: nat, id: DeviceId, i: nat)
    requires RegistersAt(steps, k, id) && StaysRegistered(steps, k, id)
    requires |Received(Run(BEGINNING, steps[..k]), id)| <= i < |Received(Run(BEGINNING, steps), id)|
    ensures Received(Run(BEGINNING, steps), id)[i] !in Run(BEGINNING, steps[..k]).inserted
  {
    RegisteredSince(steps, k, id);
  }

  /** A poll delivers at most the asked number of events, of one to fifty; with fewer, nothing is left to deliver. */
  lemma ShortPollMissesNothing(steps: seq<Step>, k: nat, id: DeviceId, limit: int, now: int, s: nat)
    requires RegistersAt(steps, k, id) && StaysRegistered(steps, k, id)
    ensures var h, h' := Run(BEGINNING, steps), Run(BEGINNING, steps + [PollStep(id, limit, now)]);
            var asked := if limit < 1 then 1 else if limit > 50 then 50 else limit;
            var got := |Received(h', id)| - |Received(h, id)|;
            && 0 <= got <= asked
            && (got < asked && s in h.log.events && h.log.events[s].notify && s !in Run(BEGINNING, steps[..k]).inserted
                ==> s in Received(h', id))
  {
    var h := Run(BEGINNING, steps);
    var asked := if limit < 1 then 1 else if limit > 50 then 50 else limit;
    assert (steps + [PollStep(id, limit, now)])[..|steps|] == steps;
    RegisteredSince(steps, k, id);
    ReceivedAfterPoll(h, id, limit, now, id);
    PollDeliversTheOldest(h.log, id, limit, now);
    var batch := Batch(h.log, id, limit);
    assert Limit(limit) == asked;
    if |batch| < asked && s in h.log.events && h.log.events[s].notify && s !in Run(BEGINNING, steps[..k]).inserted {
      assert s in h.inserted && h.inserted[s] == h.log.events[s];
      LaterEventsAreDelivered(steps, k, id, s);
      if s in Unclaimed(h.log, id) && s !in batch {
        UnclaimedAfterPoll(h.log, id, limit, now, s);
        SomeLeftMeansFull(Unclaimed(h.log, id), asked, s);
      }
    }
  }

  function Elements(q: seq<nat>): set<nat> {
    set x | x in q
  }

  lemma SomeLeftMeansFull(open: set<nat>, n: nat, s: nat)
    requires s in open && s !in Oldest(open, n)
    ensures |Oldest(open, n)| == n
  {
    AscendingSize(Oldest(open, n));
    if |open| <= n {
      SubsetOfSameSize(Elements(Oldest(open, n)), open);
    }
  }

  lemma {:induction false} AscendingSize(q: seq<nat>)
    requires Ascending(q)
    ensures |Elements(q)| == |q|
  {
    if q != [] {
      var front, last := q[..|q| - 1], q[|q| - 1];
      AscendingSize(front);
      assert Elements(q) == Elements(front) + {last};
      forall x | x in front ensures x < last {
        var i :| 0 <= i < |front| && front[i] == x;
        assert q[i] < q[|q| - 1];
      }
    }
  }

  lemma SubsetOfSameSize(a: set<nat>, b: set<nat>)
    requires a <= b && |a| == |b|
    ensures a == b
  {
    assert b == a + (b - a);
    assert |b| == |a| + |b - a|;
  }

  lemma {:induction false} RunConcat(h: History, before: seq<Step>, after: seq<Step>)
    ensures Run(h, before + after) == Run(Run(h, before), after)
  {
    if after == [] {
      assert before + after == before;
    } else {
      assert (before + after)[..|before + after| - 1] == before + after[..|after| - 1];
      RunConcat(h, before, after[..|after| - 1]);
    }
  }

  // ------------------------------------------------------------- retention

  /** An event stays in the log exactly until a cleanup more than thirty days after it occurred. */
  lemma {:induction false} EventIsKeptIff(h: History, steps: seq<Step>, s: nat)
    requires Good(h) && s in h.inserted
    ensures s in Run(h, steps).inserted && Run(h, steps).inserted[s] == h.inserted[s]
    ensures s in Run(h, steps).log.events
            <==> s in h.log.events
                 && forall now :: CleanupStep(now) in steps ==> h.inserted[s].occurredAt >= now - 2592000
  {
    if steps != [] {
      var front, last := steps[..|steps| - 1], steps[|steps| - 1];
      EventIsKeptIff(h, front, s);
      RunKeepsGood(h, front);
      assert steps == front + [last];
      forall now ensures CleanupStep(now) in steps <==> CleanupStep(now) in front || CleanupStep(now) == last {
      }
    }
  }

  /** What was inserted stays on record. */
  lemma InsertedForGood(before: seq<Step>, after: seq<Step>, s: nat)
    requires s in Run(BEGINNING, before).inserted
    ensures s in Run(BEGINNING, before + after).inserted
    ensures Run(BEGINNING, before + after).inserted[s] == Run(BEGINNING, before).inserted[s]
  {
    RunKeepsGood(BEGINNING, before);
    RunConcat(BEGINNING, before, after);
    EventIsKeptIff(Run(BEGINNING, before), after, s);
  }

  lemma LogIsInserted(steps: seq<Step>, s: nat)
    ensures var h := Run(BEGINNING, steps);
            && (s in h.log.events ==> s in h.inserted && h.inserted[s] == h.log.events[s])
            && (s in h.inserted ==> s <= h.log.lastSequence)
  {
    RunKeepsGood(BEGINNING, steps);
  }

  /** A device stays registered exactly until a cleanup more than ninety days after its last poll. */
  lemma {:induction false} DeviceStaysRegisteredIff(h: History, id: DeviceId, limit: int, seen: int, steps: seq<Step>)
    requires forall l, t :: PollStep(id, l, t) !in steps
    ensures var g := Run(After(h, PollStep(id, limit, seen)), steps);
            && (id in g.log.devices <==> forall now :: CleanupStep(now) in steps ==> seen >= now - 7776000)
            && (id in g.log.devices ==> g.log.devices[id].lastSeen == seen)
  {
    if steps != [] {
      var front, last := steps[..|steps| - 1], steps[|steps| - 1];
      assert steps == front + [last];
      forall l, t ensures PollStep(id, l, t) !in front && PollStep(id, l, t) != last {
        assert PollStep(id, l, t) in front ==> PollStep(id, l, t) in steps;
      }
      DeviceStaysRegisteredIff(h, id, limit, seen, front);
      forall now ensures CleanupStep(now) in steps <==> CleanupStep(now) in front || CleanupStep(now) == last {
      }
    }
  }

  ghost predicate RecordsNew(h: History, h': History, s: nat, e: Event) {
    && s !in h.inserted && (forall t :: t in h.inserted ==> t < s)
    && h'.inserted == h.inserted[s := e] && h'.log.events == h.log.events[s := e]
  }

  lemma NewEventIsRecorded(h: History, e: Event)
    requires Good(h) && !HasEvent(h.log.events, e.subject, e.revision)
    ensures exists s :: RecordsNew(h, After(h, InsertStep(e)), s, e)
  {
    assert RecordsNew(h, After(h, InsertStep(e)), h.log.lastSequence + 1, e);
  }

  /** An insert is recorded under a sequence above all others, unless its subject and revision are there already. */
  lemma InsertIsRecorded(steps: seq<Step>, e: Event)
    ensures var h, h' := Run(BEGINNING, steps), Run(BEGINNING, steps + [InsertStep(e)]);
            if exists s :: s in h.log.events && h.log.events[s].subject == e.subject && h.log.events[s].revision == e.revision
            then h' == h
            else exists s :: RecordsNew(h, h', s, e)
  {
    var h := Run(BEGINNING, steps);
    var more := steps + [InsertStep(e)];
    assert more[..|more| - 1] == steps;
    assert Run(BEGINNING, more) == After(h, InsertStep(e));
    RunKeepsGood(BEGINNING, steps);
    if !HasEvent(h.log.events, e.subject, e.revision) {
      NewEventIsRecorded(h, e);
    }
  }
}
