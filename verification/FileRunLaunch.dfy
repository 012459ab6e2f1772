/**
 At-most-once launch of a File Run, end to end: Core claims, dispatches and
 retries (`file_runs.py`), the network loses and repeats messages, and the Node
 launches behind its durable request record (`_start_file_run` in `node_agent.py`).
*/
module FileRunLaunch {
  import opened Wrappers
  import opened FileRuns

  /** One start request as the Node receives it. */
  datatype Launch = Launch(ws: WorkspaceId, id: RunId, request: Request)

  /** The metadata directory of one run on the Node. */
  datatype Slot = Slot(ws: WorkspaceId, id: RunId)

  /**
   Where one start attempt on the Node stops. `Interrupted` covers any failure
   or process death after the metadata directory exists and before the respawn,
   with or without a readable request record; from `RespawnFailed` on the pane
   has been respawned.
  */
  datatype Fault =
    | SourceRejected
    | RunnerMismatch
    | DirectoryFailed
    | Interrupted(recorded: bool)
    | RespawnFailed
    | TerminalMissing
    | NoFault

  datatype NodeError =
    | StartStatusUnknown
    | IdempotencyConflict
    | Rejected
    | StartFailed

  datatype LaunchReply = LaunchReply(replayed: bool)

  /** `records[s] == None` is a directory whose request record cannot be read. */
  datatype NodeState = NodeState(records: map<Slot, Option<Request>>, respawned: multiset<Slot>)

  function SlotOf(m: Launch): Slot {
    Slot(m.ws, m.id)
  }

  function Handled(n: NodeState, m: Launch, fault: Fault): NodeState {
    if SlotOf(m) in n.records then n
    else
      match fault
      case SourceRejected => n
      case RunnerMismatch => n
      case DirectoryFailed => n
      case Interrupted(recorded) =>
        n.(records := n.records[SlotOf(m) := if recorded then Some(m.request) else None])
      case _ =>
        NodeState(n.records[SlotOf(m) := Some(m.request)], n.respawned + multiset{SlotOf(m)})
  }

  /** From the respawn on, a fault comes too late to prevent it. */
  function Respawns(fault: Fault): nat {
    match fault
    case RespawnFailed => 1
    case TerminalMissing => 1
    case NoFault => 1
    case _ => 0
  }

  /** `_start_file_run` under the Workspace's launch lock. */
  class NodeFileRuns {
    var records: map<Slot, Option<Request>>
    ghost var respawned: multiset<Slot>

    ghost function State(): NodeState
      reads this
    {
      NodeState(records, respawned)
    }

    constructor ()
      ensures State() == NodeState(map[], multiset{})
    {
      records, respawned := map[], multiset{};
    }

    method StartFileRun(m: Launch, terminalFound: bool, fault: Fault) returns (r: Result<LaunchReply, NodeError>)
      modifies this
      ensures State() == Handled(old(State()), m, fault)
      // A repeated identity never respawns; it replays, conflicts, or cannot tell.
      ensures SlotOf(m) in old(records) ==>
        r == match old(records)[SlotOf(m)]
             case None => Err(StartStatusUnknown)
             case Some(request) =>
               if request != m.request then Err(IdempotencyConflict)
               else if terminalFound then Ok(LaunchReply(true)) else Err(StartStatusUnknown)
      ensures SlotOf(m) !in old(records) ==> (r == Ok(LaunchReply(false)) <==> fault == NoFault)
      // The first time it respawns once, behind a durable record of exactly this request.
      ensures SlotOf(m) in old(records) ==> records == old(records) && respawned == old(respawned)
      ensures SlotOf(m) !in old(records) ==>
        && (forall p :: p != SlotOf(m) ==> (p in records <==> p in old(records)) && respawned[p] == old(respawned)[p])
        && (forall p :: p in old(records) ==> p in records && records[p] == old(records)[p])
        && respawned[SlotOf(m)] == old(respawned)[SlotOf(m)] + Respawns(fault)
        && (Respawns(fault) == 1 ==> SlotOf(m) in records && records[SlotOf(m)] == Some(m.request))
        && (fault in {SourceRejected, RunnerMismatch, DirectoryFailed} ==> SlotOf(m) !in records)
    {
      var slot := SlotOf(m);
      if slot in records {
        match records[slot]
        case None => return Err(StartStatusUnknown);
        case Some(request) =>
          if request != m.request {
            return Err(IdempotencyConflict);
          }
          return if terminalFound then Ok(LaunchReply(true)) else Err(StartStatusUnknown);
      }
      if fault == SourceRejected || fault == RunnerMismatch || fault == DirectoryFailed {
        return Err(Rejected);
      }
      // The directory is created before anything in it is written.
      records := records[slot := None];
      if fault == Interrupted(false) {
        return Err(StartFailed);
      }
      records := records[slot := Some(m.request)];
      if fault == Interrupted(true) {
        return Err(StartFailed);
      }
      respawned := respawned + multiset{slot};
      return if fault == NoFault then Ok(LaunchReply(false)) else Err(StartFailed);
    }
  }

  // --------------------------------------------------------- the whole system

  type ThreadId = nat

  /** A Core thread inside `start`: it owns the run it created until it has dispatched it. */
  datatype Thread = Owns(m: Launch) | Dispatched(m: Launch)

  datatype System = System(
    core: History,
    threads: map<ThreadId, Thread>,
    dispatched: multiset<RunId>,
    wire: set<Launch>,
    node: NodeState)

  const BOOT := System(START, map[], multiset{}, {}, NodeState(map[], multiset{}))

  datatype Action =
    | Begin(t: ThreadId, m: Launch, key: string, now: int)   // start() up to its claim, first try or retry
    | GiveUp(t: ThreadId)                                     // the source changed, or inspection failed
    | Send(t: ThreadId)                                       // the one backend call
    | Return(t: ThreadId)                                     // an answer, an error or a timeout
    | CoreRestart
    | Deliver(m: Launch, fault: Fault)                        // any message ever sent, any number of times
    | OtherTransaction(step: Step)                            // observe, stop, kill, prune, polls, ...

  function Perform(s: System, a: Action): System {
    match a
    case Begin(t, m, key, now) =>
      var step := ClaimStep(m.id, m.ws, key, m.request, now);
      var created := Claimed(s.core.store, m.id, m.ws, key, m.request, now) != s.core.store;
      s.(core := After(s.core, step), threads := if created then s.threads[t := Owns(m)] else s.threads)
    case GiveUp(t) => s.(threads := s.threads - {t})
    case Send(t) =>
      if t in s.threads && s.threads[t].Owns? then
        var m := s.threads[t].m;
        s.(threads := s.threads[t := Dispatched(m)], dispatched := s.dispatched + multiset{m.id}, wire := s.wire + {m})
      else s
    case Return(t) => s.(threads := s.threads - {t})
    case CoreRestart => s.(threads := map[])
    case Deliver(m, fault) => if m in s.wire then s.(node := Handled(s.node, m, fault)) else s
    case OtherTransaction(step) => s.(core := After(s.core, step))
  }

  /** A thread begins only when idle, with a fresh run id; other transactions are lawful and do not claim. */
  predicate Allowed(s: System, a: Action) {
    match a
    case Begin(t, m, key, now) => t !in s.threads && m.id !in s.core.born
    case OtherTransaction(step) => !step.ClaimStep? && Lawful(s.core, step)
    case _ => true
  }

  function Play(actions: seq<Action>): System {
    if actions == [] then BOOT else Perform(Play(actions[..|actions| - 1]), actions[|actions| - 1])
  }

  predicate AllAllowed(actions: seq<Action>) {
    actions == []
    || (AllAllowed(actions[..|actions| - 1]) && Allowed(Play(actions[..|actions| - 1]), actions[|actions| - 1]))
  }

  // ---------------------------------------------------------------- invariant

  /** A run is dispatched at most once, and not at all while a thread still owns it. */
  ghost predicate CoreOwnership(s: System) {
    && (forall id :: s.dispatched[id] <= 1)
    && (forall id :: s.dispatched[id] > 0 ==> id in s.core.born)
    && (forall t :: t in s.threads ==> s.threads[t].m.id in s.core.born)
    && (forall t :: t in s.threads && s.threads[t].Owns? ==> s.dispatched[s.threads[t].m.id] == 0)
    && (forall t, u :: t in s.threads && u in s.threads && t != u && s.threads[t].Owns? && s.threads[u].Owns?
          ==> s.threads[t].m.id != s.threads[u].m.id)
  }

  /** What is on the wire was dispatched. */
  ghost predicate WireIsDispatched(s: System) {
    forall m :: m in s.wire ==> s.dispatched[m.id] > 0
  }

  ghost predicate OneMessagePerRun(wire: set<Launch>) {
    forall m, n :: m in wire && n in wire && m.id == n.id ==> m == n
  }

  /** A respawn leaves a record behind. */
  ghost predicate RespawnsAreRecorded(node: NodeState) {
    && (forall p :: node.respawned[p] <= 1)
    && (forall p :: node.respawned[p] > 0 ==> p in node.records && node.records[p].Some?)
  }

  /** Only a message on the wire causes a record, and the record holds its request. */
  ghost predicate RecordsAreSent(wire: set<Launch>, node: NodeState) {
    && (forall p :: p in node.records ==> exists m :: m in wire && SlotOf(m) == p)
    && (forall p, m :: p in node.records && node.records[p].Some? && m in wire && SlotOf(m) == p
          ==> node.records[p].value == m.request)
  }

  ghost predicate Sound(s: System) {
    && Good(s.core) && CoreOwnership(s) && WireIsDispatched(s)
    && OneMessagePerRun(s.wire) && RespawnsAreRecorded(s.node) && RecordsAreSent(s.wire, s.node)
  }

  lemma BeginKeepsSound(s: System, a: Action)
    requires Sound(s) && Allowed(s, a) && a.Begin?
    ensures Sound(Perform(s, a))
  {
    StepKeepsGood(s.core, ClaimStep(a.m.id, a.m.ws, a.key, a.m.request, a.now));
  }

  lemma NewMessageKeepsRecords(wire: set<Launch>, node: NodeState, m: Launch)
    requires RecordsAreSent(wire, node) && OneMessagePerRun(wire) && forall n :: n in wire ==> n.id != m.id
    ensures RecordsAreSent(wire + {m}, node) && OneMessagePerRun(wire + {m})
  {
    forall p | p in node.records ensures exists n :: n in wire + {m} && SlotOf(n) == p {
      var n :| n in wire && SlotOf(n) == p;
      assert n in wire + {m};
    }
    forall p, n | p in node.records && node.records[p].Some? && n in wire + {m} && SlotOf(n) == p
      ensures node.records[p].value == n.request
    {
      var o :| o in wire && SlotOf(o) == p;
      assert n == o;
    }
  }

  lemma SendKeepsSound(s: System, t: ThreadId)
    requires Sound(s)
    ensures Sound(Perform(s, Send(t)))
  {
    if t in s.threads && s.threads[t].Owns? {
      assert forall n :: n in s.wire ==> n.id != s.threads[t].m.id;
      NewMessageKeepsRecords(s.wire, s.node, s.threads[t].m);
    }
  }

  lemma HandlingKeepsRespawns(node: NodeState, m: Launch, fault: Fault)
    requires RespawnsAreRecorded(node)
    ensures RespawnsAreRecorded(Handled(node, m, fault))
  {
    assert SlotOf(m) !in node.records ==> node.respawned[SlotOf(m)] == 0;
  }

  lemma HandlingKeepsRecords(wire: set<Launch>, node: NodeState, m: Launch, fault: Fault)
    requires RecordsAreSent(wire, node) && OneMessagePerRun(wire) && m in wire
    ensures RecordsAreSent(wire, Handled(node, m, fault))
  {
    var after := Handled(node, m, fault);
    forall p, n | p in after.records && after.records[p].Some? && n in wire && SlotOf(n) == p
      ensures after.records[p].value == n.request
    {
      assert p == SlotOf(m) ==> n == m;
    }
  }

  lemma DeliverKeepsSound(s: System, m: Launch, fault: Fault)
    requires Sound(s)
    ensures Sound(Perform(s, Deliver(m, fault)))
  {
    if m in s.wire {
      HandlingKeepsRespawns(s.node, m, fault);
      HandlingKeepsRecords(s.wire, s.node, m, fault);
    }
  }

  lemma OtherKeepsSound(s: System, a: Action)
    requires Sound(s) && Allowed(s, a) && (a.GiveUp? || a.Return? || a.CoreRestart? || a.OtherTransaction?)
    ensures Sound(Perform(s, a))
  {
    if a.OtherTransaction? {
      StepKeepsGood(s.core, a.step);
    }
  }

  lemma {:induction false} EverySystemIsSound(actions: seq<Action>)
    requires AllAllowed(actions)
    ensures Sound(Play(actions))
  {
    if actions != [] {
      var s := Play(actions[..|actions| - 1]);
      EverySystemIsSound(actions[..|actions| - 1]);
      match actions[|actions| - 1]
      case Begin(_, _, _, _) => BeginKeepsSound(s, actions[|actions| - 1]);
      case Send(t) => SendKeepsSound(s, t);
      case Deliver(m, fault) => DeliverKeepsSound(s, m, fault);
      case _ => OtherKeepsSound(s, actions[|actions| - 1]);
    }
  }

  // -------------------------------------------------------------- the results

  lemma RespawnWasSent(s: System, p: Slot) returns (m: Launch)
    requires RespawnsAreRecorded(s.node) && RecordsAreSent(s.wire, s.node) && WireIsDispatched(s)
    requires s.node.respawned[p] > 0
    ensures m in s.wire && SlotOf(m) == p && s.dispatched[p.id] > 0
  {
    assert p in s.node.records;
    m :| m in s.wire && SlotOf(m) == p;
  }

  /**
   Whatever is retried, lost, repeated or restarted: Core sends at most one
   backend start for a run id, the Node respawns at most one pane for it over
   all Workspaces it could name, and only if Core dispatched it.
  */
  lemma AtMostOneLaunch(actions: seq<Action>, id: RunId, a: WorkspaceId, b: WorkspaceId)
    requires AllAllowed(actions)
    ensures var s := Play(actions);
            && s.dispatched[id] <= 1
            && s.node.respawned[Slot(a, id)] <= s.dispatched[id]
            && (a != b ==> s.node.respawned[Slot(a, id)] + s.node.respawned[Slot(b, id)] <= 1)
  {
    EverySystemIsSound(actions);
    var s := Play(actions);
    if s.node.respawned[Slot(a, id)] > 0 {
      var m := RespawnWasSent(s, Slot(a, id));
      if s.node.respawned[Slot(b, id)] > 0 {
        var n := RespawnWasSent(s, Slot(b, id));
        assert m == n;
      }
    }
  }

  /**
   While the run of an idempotency key is retained, starting again with that key
   neither creates nor owns nor dispatches anything, whatever the request.
  */
  lemma RetryLaunchesNothing(actions: seq<Action>, t: ThreadId, m: Launch, key: string, now: int)
    requires AllAllowed(actions) && KeyTaken(Play(actions).core.store.runs, m.ws, key)
    requires Allowed(Play(actions), Begin(t, m, key, now))
    ensures Perform(Play(actions), Begin(t, m, key, now)) == Play(actions)
  {
    EverySystemIsSound(actions);
    var s := Play(actions);
    assert After(s.core, ClaimStep(m.id, m.ws, key, m.request, now)).born == s.core.born;
  }

  /** Retained runs with the same idempotency key are one run, so at most one start was ever sent for them. */
  lemma OneLaunchPerKey(actions: seq<Action>, a: RunId, b: RunId)
    requires AllAllowed(actions)
    requires var runs := Play(actions).core.store.runs;
             a in runs && b in runs && runs[a].workspace == runs[b].workspace && runs[a].key == runs[b].key
    ensures a == b && Play(actions).dispatched[a] <= 1
  {
    EverySystemIsSound(actions);
  }

  /** Whatever the Node has recorded for a dispatched run is exactly what Core sent. */
  lemma NodeRunsWhatCoreSent(actions: seq<Action>, m: Launch)
    requires AllAllowed(actions) && m in Play(actions).wire
    requires Play(actions).node.respawned[SlotOf(m)] > 0
    ensures var records := Play(actions).node.records;
            SlotOf(m) in records && records[SlotOf(m)] == Some(m.request)
  {
    EverySystemIsSound(actions);
  }

  lemma PlayExtended(actions: seq<Action>, a: Action)
    ensures Play(actions + [a]) == Perform(Play(actions), a)
    ensures AllAllowed(actions) && Allowed(Play(actions), a) ==> AllAllowed(actions + [a])
  {
    assert (actions + [a])[..|actions|] == actions;
  }

  /** A claim under a free key and a free slot of the Workspace stores the run, owned by its thread. */
  lemma FreeClaimIsOwned(actions: seq<Action>, t: ThreadId, m: Launch, key: string, now: int)
    requires AllAllowed(actions) && Allowed(Play(actions), Begin(t, m, key, now))
    requires var runs := Play(actions).core.store.runs;
             forall id :: id in runs && runs[id].workspace == m.ws ==>
               runs[id].key != key && runs[id].life.state !in {Preparing, FileRuns.Running}
    ensures var s := Play(actions + [Begin(t, m, key, now)]);
            && t in s.threads && s.threads[t] == Owns(m)
            && m.id in s.core.store.runs && s.core.store.runs[m.id].key == key
            && s.core.store.runs[m.id].request == m.request && s.core.store.runs[m.id].life.state == Preparing
  {
    EverySystemIsSound(actions);
    PlayExtended(actions, Begin(t, m, key, now));
    var s := Play(actions);
    assert m.id !in s.core.store.runs;
    assert Claimed(s.core.store, m.id, m.ws, key, m.request, now).runs[m.id].workspace == m.ws;
  }

  /**
   The first start succeeds: from any state in which the key and the slot are
   free, claiming, sending once and one undisturbed delivery dispatch the run
   once and respawn its pane once, with the request that was sent on record.
  */
  lemma FirstStartIsLaunched(actions: seq<Action>, t: ThreadId, m: Launch, key: string, now: int)
    requires AllAllowed(actions) && Allowed(Play(actions), Begin(t, m, key, now))
    requires var runs := Play(actions).core.store.runs;
             forall id :: id in runs && runs[id].workspace == m.ws ==>
               runs[id].key != key && runs[id].life.state !in {Preparing, FileRuns.Running}
    ensures var s := Play(actions + [Begin(t, m, key, now)] + [Send(t)] + [Deliver(m, NoFault)]);
            && s.dispatched[m.id] == 1 && s.node.respawned[SlotOf(m)] == 1
            && SlotOf(m) in s.node.records && s.node.records[SlotOf(m)] == Some(m.request)
            && t in s.threads && s.threads[t] == Dispatched(m)
  {
    var claimed := actions + [Begin(t, m, key, now)];
    var sent := claimed + [Send(t)];
    FreeClaimIsOwned(actions, t, m, key, now);
    PlayExtended(actions, Begin(t, m, key, now));
    PlayExtended(claimed, Send(t));
    PlayExtended(sent, Deliver(m, NoFault));
    EverySystemIsSound(claimed);
    NotYetRecorded(claimed, t, m);
  }

  /** While a thread owns a run, the Node has nothing of it. */
  lemma NotYetRecorded(actions: seq<Action>, t: ThreadId, m: Launch)
    requires AllAllowed(actions) && t in Play(actions).threads && Play(actions).threads[t] == Owns(m)
    ensures var s := Play(actions);
            s.dispatched[m.id] == 0 && SlotOf(m) !in s.node.records && s.node.respawned[SlotOf(m)] == 0
  {
    EverySystemIsSound(actions);
    var s := Play(actions);
    assert forall n :: n in s.wire ==> n.id != m.id;
  }

  /** Giving up, an answer, or a restart of Core ends the thread, and nothing of the run is dispatched after that. */
  lemma ThreadsEnd(actions: seq<Action>, t: ThreadId)
    ensures t !in Play(actions + [GiveUp(t)]).threads && t !in Play(actions + [Return(t)]).threads
    ensures t !in Play(actions + [CoreRestart]).threads
    ensures t !in Play(actions).threads ==> Play(actions + [Send(t)]) == Play(actions)
  {
    PlayExtended(actions, GiveUp(t));
    PlayExtended(actions, Return(t));
    PlayExtended(actions, CoreRestart);
    PlayExtended(actions, Send(t));
  }
}
