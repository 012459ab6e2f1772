/**
 Which connection `NodeCore` holds for each Node, under any interleaving of
 socket handlers, replacement, revocation, removal and shutdown.

 A handler authenticates, registers itself under the lock after looking at the
 store again, closes the connection it replaced, serves its socket, and finally
 removes itself if the registry still holds its own connection. Each handler
 owns one connection, so the handler's id stands for the connection.
*/
module NodeRegistry {
  import opened Wrappers

  type NodeId = string
  type HandlerId = nat

  /**
   A handler is `Replacing` while it awaits the closing of its predecessor, before
   the `try` whose `finally` cleans up; cancelled there, it is `CutOff`.
  */
  datatype Phase = Authenticating | Authenticated | Replacing | Serving | CutOff | Ended

  datatype Handler = Handler(node: NodeId, phase: Phase)

  /** `revoked` holds every Node computer of the store; `ever` also those removed, whose ids are never reused. */
  datatype Core = Core(
    revoked: map<NodeId, bool>,
    ever: set<NodeId>,
    handlers: map<HandlerId, Handler>,
    connections: map<NodeId, HandlerId>)

  const START := Core(map[], {}, map[], map[])

  predicate Usable(c: Core, n: NodeId) {
    n in c.revoked && !c.revoked[n]
  }

  predicate InPhase(c: Core, h: HandlerId, phase: Phase) {
    h in c.handlers && c.handlers[h].phase == phase
  }

  function SetPhase(c: Core, h: HandlerId, phase: Phase): Core
    requires h in c.handlers
  {
    c.(handlers := c.handlers[h := c.handlers[h].(phase := phase)])
  }

  function AddComputer(c: Core, n: NodeId): Core {
    if n in c.ever then c else c.(revoked := c.revoked[n := false], ever := c.ever + {n})
  }

  function RemoveComputer(c: Core, n: NodeId): Core {
    c.(revoked := c.revoked - {n})
  }

  /** `StateStore.revoke_node`. */
  function RevokeInStore(c: Core, n: NodeId): Core {
    if Usable(c, n) then c.(revoked := c.revoked[n := true]) else c
  }

  /** `_authenticate` up to the challenge. */
  function Connect(c: Core, h: HandlerId, n: NodeId): Core {
    if h in c.handlers || !Usable(c, n) then c
    else c.(handlers := c.handlers[h := Handler(n, Authenticating)])
  }

  /** The rest of `_authenticate`, which records the connection in the store. */
  function Authenticate(c: Core, h: HandlerId, valid: bool): Core {
    if !InPhase(c, h, Authenticating) then c
    else SetPhase(c, h, if valid && Usable(c, c.handlers[h].node) then Authenticated else Ended)
  }

  /** The first locked section of `handle_socket`. */
  function Register(c: Core, h: HandlerId): Core {
    if !InPhase(c, h, Authenticated) then c
    else
      var n := c.handlers[h].node;
      if !Usable(c, n) then SetPhase(c, h, Ended)
      else SetPhase(c, h, if n in c.connections then Replacing else Serving).(connections := c.connections[n := h])
  }

  /** The predecessor is closed. */
  function Enter(c: Core, h: HandlerId): Core {
    if InPhase(c, h, Replacing) then SetPhase(c, h, Serving) else c
  }

  /** A cancellation outside the `try`: no cleanup runs. */
  function CutShort(c: Core, h: HandlerId): Core {
    if InPhase(c, h, Replacing) then SetPhase(c, h, CutOff)
    else if InPhase(c, h, Authenticating) || InPhase(c, h, Authenticated) then SetPhase(c, h, Ended)
    else c
  }

  /** The second locked section, after the handler's loop ended for any reason. */
  function Unregister(c: Core, h: HandlerId): Core {
    if !InPhase(c, h, Serving) then c
    else
      var n := c.handlers[h].node;
      SetPhase(c, h, Ended).(connections :=
        if n in c.connections && c.connections[n] == h then c.connections - {n} else c.connections)
  }

  /** `NodeCore.revoke`. */
  function RevokeInRegistry(c: Core, n: NodeId): Core {
    c.(connections := c.connections - {n})
  }

  /** `NodeCore.shutdown`. */
  function ShutDown(c: Core): Core {
    c.(connections := map[])
  }

  /** `NodeCore.connection`. */
  function Lookup(c: Core, n: NodeId): (r: Option<HandlerId>) {
    if Usable(c, n) && n in c.connections then Some(c.connections[n]) else None
  }

  // ------------------------------------------------------------------- runs

  datatype Step =
    | AddingComputer(node: NodeId) | RemovingComputer(node: NodeId) | RevokingInStore(node: NodeId)
    | Connecting(handler: HandlerId, node: NodeId)
    | AuthFinishing(handler: HandlerId, valid: bool)
    | Registering(handler: HandlerId) | Entering(handler: HandlerId)
    | CuttingShort(handler: HandlerId) | Unregistering(handler: HandlerId)
    | RevokingInRegistry(node: NodeId) | ShuttingDown

  function Apply(c: Core, step: Step): Core {
    match step
    case AddingComputer(n) => AddComputer(c, n)
    case RemovingComputer(n) => RemoveComputer(c, n)
    case RevokingInStore(n) => RevokeInStore(c, n)
    case Connecting(h, n) => Connect(c, h, n)
    case AuthFinishing(h, valid) => Authenticate(c, h, valid)
    case Registering(h) => Register(c, h)
    case Entering(h) => Enter(c, h)
    case CuttingShort(h) => CutShort(c, h)
    case Unregistering(h) => Unregister(c, h)
    case RevokingInRegistry(n) => RevokeInRegistry(c, n)
    case ShuttingDown => ShutDown(c)
  }

  function PlayFrom(c: Core, steps: seq<Step>): Core {
    if steps == [] then c else Apply(PlayFrom(c, steps[..|steps| - 1]), steps[|steps| - 1])
  }

  /** A handler after its registration and before any cleanup. */
  predicate IsLive(c: Core, h: HandlerId) {
    InPhase(c, h, Replacing) || InPhase(c, h, Serving)
  }

  /** The registry holds, for each Node, a handler of that Node that is live, or was cut off. */
  ghost predicate Good(c: Core) {
    && (forall n :: n in c.connections ==>
          (IsLive(c, c.connections[n]) || InPhase(c, c.connections[n], CutOff)) && c.handlers[c.connections[n]].node == n)
    && c.revoked.Keys <= c.ever
    && (forall h :: h in c.handlers ==> c.handlers[h].node in c.ever)
  }

  lemma SocketStepKeepsGood(c: Core, step: Step)
    requires Good(c) && (step.Connecting? || step.AuthFinishing? || step.Entering? || step.CuttingShort?)
    ensures Good(Apply(c, step))
  {
  }

  lemma RegistrationKeepsGood(c: Core, step: Step)
    requires Good(c) && (step.Registering? || step.Unregistering?)
    ensures Good(Apply(c, step))
  {
  }

  lemma StepKeepsGood(c: Core, step: Step)
    requires Good(c)
    ensures Good(Apply(c, step))
  {
    match step
    case Registering(_) => RegistrationKeepsGood(c, step);
    case Unregistering(_) => RegistrationKeepsGood(c, step);
    case Connecting(_, _) => SocketStepKeepsGood(c, step);
    case AuthFinishing(_, _) => SocketStepKeepsGood(c, step);
    case Entering(_) => SocketStepKeepsGood(c, step);
    case CuttingShort(_) => SocketStepKeepsGood(c, step);
    case _ =>
  }

  lemma {:induction false} EveryCoreIsGood(steps: seq<Step>)
    ensures Good(PlayFrom(START, steps))
  {
    if steps != [] {
      EveryCoreIsGood(steps[..|steps| - 1]);
      StepKeepsGood(PlayFrom(START, steps[..|steps| - 1]), steps[|steps| - 1]);
    }
  }

  lemma {:induction false} PlayConcat(c: Core, before: seq<Step>, after: seq<Step>)
    ensures PlayFrom(c, before + after) == PlayFrom(PlayFrom(c, before), after)
  {
    if after == [] {
      assert before + after == before;
    } else {
      var all := before + after;
      assert all[..|all| - 1] == before + after[..|after| - 1];
      PlayConcat(c, before, after[..|after| - 1]);
    }
  }

  // ------------------------------------------------------------ replacement

  /** The steps that may end the registration of handler `h` of Node `n`. */
  predicate MayReplace(c: Core, step: Step, n: NodeId, h: HandlerId) {
    match step
    case RevokingInRegistry(m) => m == n
    case ShuttingDown => true
    case Unregistering(k) => k == h
    case Registering(k) => k in c.handlers && c.handlers[k].node == n
    case _ => false
  }

  /** No other handler's cleanup, nor any store change, takes a registered connection away. */
  lemma OnlyItsOwnStepsUnregister(c: Core, step: Step, n: NodeId)
    requires n in c.connections && !MayReplace(c, step, n, c.connections[n])
    ensures n in Apply(c, step).connections && Apply(c, step).connections[n] == c.connections[n]
  {
  }

  predicate NothingReplaces(c: Core, steps: seq<Step>, n: NodeId, h: HandlerId) {
    forall i :: 0 <= i < |steps| ==> !MayReplace(PlayFrom(c, steps[..i]), steps[i], n, h)
  }

  /**
   A handler that replaced another stays registered however its predecessors
   clean up afterwards, until its own cleanup, a revoke, a shutdown or a
   successor.
  */
  lemma {:induction false} SuccessorStaysRegistered(c: Core, steps: seq<Step>, n: NodeId, h: HandlerId)
    requires n in c.connections && c.connections[n] == h && NothingReplaces(c, steps, n, h)
    ensures n in PlayFrom(c, steps).connections && PlayFrom(c, steps).connections[n] == h
  {
    if steps != [] {
      var front := steps[..|steps| - 1];
      forall i | 0 <= i < |front| ensures !MayReplace(PlayFrom(c, front[..i]), front[i], n, h) {
        assert front[..i] == steps[..i];
      }
      SuccessorStaysRegistered(c, front, n, h);
      OnlyItsOwnStepsUnregister(PlayFrom(c, front), steps[|steps| - 1], n);
    }
  }

  /** A handler that has ended, by its cleanup or before registering, is registered under no Node. */
  lemma EndedHandlersAreNotRegistered(steps: seq<Step>, n: NodeId, h: HandlerId)
    requires InPhase(PlayFrom(START, steps), h, Ended)
    ensures !(n in PlayFrom(START, steps).connections && PlayFrom(START, steps).connections[n] == h)
  {
    EveryCoreIsGood(steps);
  }

  // ------------------------------------------------------------- revocation

  /** Revoked or removed: a state of the store that no step undoes. */
  predicate Barred(c: Core, n: NodeId) {
    n in c.ever && !Usable(c, n)
  }

  lemma StepKeepsBarred(c: Core, step: Step, n: NodeId)
    requires Barred(c, n)
    ensures Barred(Apply(c, step), n)
    ensures n !in c.connections ==> n !in Apply(c, step).connections
  {
  }

  lemma {:induction false} BarredStaysBarred(c: Core, steps: seq<Step>, n: NodeId)
    requires Barred(c, n)
    ensures Barred(PlayFrom(c, steps), n)
    ensures n !in c.connections ==> n !in PlayFrom(c, steps).connections
  {
    if steps != [] {
      BarredStaysBarred(c, steps[..|steps| - 1], n);
      StepKeepsBarred(PlayFrom(c, steps[..|steps| - 1]), steps[|steps| - 1], n);
    }
  }

  /**
   After the store revoke and then the registry revoke, in any run and with any
   steps in between, the Node is never registered again, even by a handler
   that had authenticated before.
  */
  lemma RevokedIsNeverRegisteredAgain(before: seq<Step>, between: seq<Step>, after: seq<Step>, n: NodeId)
    requires Usable(PlayFrom(START, before), n)
    ensures var steps := before + [RevokingInStore(n)] + between + [RevokingInRegistry(n)] + after;
            n !in PlayFrom(START, steps).connections
  {
    EveryCoreIsGood(before);
    var c0 := PlayFrom(START, before);
    PlayConcat(START, before, [RevokingInStore(n)]);
    var c1 := PlayFrom(START, before + [RevokingInStore(n)]);
    assert [RevokingInStore(n)][..0] == [];
    assert PlayFrom(c0, []) == c0;
    assert Barred(c1, n);
    PlayConcat(START, before + [RevokingInStore(n)], between);
    BarredStaysBarred(c1, between, n);
    var c2 := PlayFrom(c1, between);
    PlayConcat(START, before + [RevokingInStore(n)] + between, [RevokingInRegistry(n)]);
    assert [RevokingInRegistry(n)][..0] == [];
    assert PlayFrom(c2, []) == c2;
    var c3 := RevokeInRegistry(c2, n);
    assert PlayFrom(c2, [RevokingInRegistry(n)]) == c3;
    PlayConcat(START, before + [RevokingInStore(n)] + between + [RevokingInRegistry(n)], after);
    BarredStaysBarred(c3, after, n);
  }

  /** The steps that take a Node with no usable computer out of the registry. */
  predicate Drops(c: Core, step: Step, n: NodeId) {
    match step
    case RevokingInRegistry(m) => m == n
    case ShuttingDown => true
    case Unregistering(h) => n in c.connections && c.connections[n] == h && InPhase(c, h, Serving)
    case _ => false
  }

  predicate NothingDrops(c: Core, steps: seq<Step>, n: NodeId) {
    forall i :: 0 <= i < |steps| ==> !Drops(PlayFrom(c, steps[..i]), steps[i], n)
  }

  lemma BarredStepIff(c: Core, step: Step, n: NodeId)
    requires Good(c) && Barred(c, n)
    ensures n in Apply(c, step).connections <==> n in c.connections && !Drops(c, step, n)
  {
  }

  lemma {:induction false} GoodStaysGood(c: Core, steps: seq<Step>)
    requires Good(c)
    ensures Good(PlayFrom(c, steps))
  {
    if steps != [] {
      GoodStaysGood(c, steps[..|steps| - 1]);
      StepKeepsGood(PlayFrom(c, steps[..|steps| - 1]), steps[|steps| - 1]);
    }
  }

  /**
   Exactly when a Node without a usable computer is registered later: it is
   registered now, and no later step is a registry revoke of it, a shutdown, or
   the cleanup of the handler that is registered.
  */
  lemma {:induction false} BarredIsRegisteredIff(c: Core, steps: seq<Step>, n: NodeId)
    requires Good(c) && Barred(c, n)
    ensures n in PlayFrom(c, steps).connections <==> n in c.connections && NothingDrops(c, steps, n)
  {
    if steps != [] {
      var front, last := steps[..|steps| - 1], steps[|steps| - 1];
      BarredIsRegisteredIff(c, front, n);
      BarredStaysBarred(c, front, n);
      GoodStaysGood(c, front);
      BarredStepIff(PlayFrom(c, front), last, n);
      NothingDropsStep(c, front, last, n);
      assert steps == front + [last];
    }
  }

  lemma NothingDropsStep(c: Core, front: seq<Step>, last: Step, n: NodeId)
    ensures NothingDrops(c, front + [last], n) <==> NothingDrops(c, front, n) && !Drops(PlayFrom(c, front), last, n)
  {
    var steps := front + [last];
    assert steps[..|front|] == front && steps[|front|] == last;
    assert forall i :: 0 <= i < |front| ==> front[..i] == steps[..i] && front[i] == steps[i];
  }

  /** A step that takes the usable computer of a Node away: the store revoke, or its removal. */
  predicate Bars(step: Step, n: NodeId) {
    step == RevokingInStore(n) || step == RemovingComputer(n)
  }

  /**
   Whatever the order: after a revoke or a removal in the store the Node is
   registered exactly if it was registered at that moment and nothing has
   dropped it since. A registry revoke before that moment decides nothing.
  */
  lemma RegisteredAfterBarringIff(before: seq<Step>, bar: Step, after: seq<Step>, n: NodeId)
    requires n in PlayFrom(START, before).ever && Bars(bar, n)
    ensures var c := PlayFrom(START, before);
            n in PlayFrom(START, before + [bar] + after).connections
            <==> n in c.connections && NothingDrops(Apply(c, bar), after, n)
  {
    EveryCoreIsGood(before);
    var c := PlayFrom(START, before);
    assert (before + [bar])[..|before|] == before;
    StepKeepsGood(c, bar);
    PlayConcat(START, before + [bar], after);
    BarredIsRegisteredIff(Apply(c, bar), after, n);
  }

  /** A lookup returns a usable Node's connection, whose handler is live, or was cut off while replacing another. */
  lemma LookupIsLiveAndUsable(steps: seq<Step>, n: NodeId)
    ensures var c := PlayFrom(START, steps);
            Lookup(c, n).Some? ==>
              var h := Lookup(c, n).value;
              Usable(c, n) && h in c.handlers && c.handlers[h].node == n && (IsLive(c, h) <==> !InPhase(c, h, CutOff))
  {
    EveryCoreIsGood(steps);
    var c := PlayFrom(START, steps);
    if n in c.connections && InPhase(c, c.connections[n], Ended) {
      EndedHandlersAreNotRegistered(steps, n, c.connections[n]);
    }
  }

  lemma Extended(c: Core, steps: seq<Step>, step: Step)
    ensures PlayFrom(c, steps + [step]) == Apply(PlayFrom(c, steps), step)
  {
    assert (steps + [step])[..|steps|] == steps;
  }

  /**
   The order matters. With the registry revoked first, a handler that had
   authenticated registers and stays, whether the Node is then revoked in the
   store or its computer removed. The delete route removes in this order, and
   awaits the closing of the connection it found in between.
  */
  lemma OppositeOrderLeavesItRegistered(before: seq<Step>, h: HandlerId, n: NodeId, bar: Step)
    requires InPhase(PlayFrom(START, before), h, Authenticated) && PlayFrom(START, before).handlers[h].node == n
    requires Usable(PlayFrom(START, before), n) && Bars(bar, n)
    ensures var c := PlayFrom(START, before + [RevokingInRegistry(n)] + [Registering(h)] + [bar]);
            Barred(c, n) && n in c.connections && c.connections[n] == h
  {
    EveryCoreIsGood(before);
    Extended(START, before, RevokingInRegistry(n));
    Extended(START, before + [RevokingInRegistry(n)], Registering(h));
    Extended(START, before + [RevokingInRegistry(n)] + [Registering(h)], bar);
  }

  const RECONNECTING: seq<Step> := [
    AddingComputer("n"), Connecting(1, "n"), AuthFinishing(1, true), Registering(1), Connecting(2, "n"),
    AuthFinishing(2, true)]

  /** Such a state: one connection is registered and a second handler has authenticated. */
  lemma ReconnectingIsReachable()
    ensures var c := PlayFrom(START, RECONNECTING);
            Usable(c, "n") && "n" in c.connections && InPhase(c, 2, Authenticated) && c.handlers[2].node == "n"
  {
    var s := RECONNECTING;
    var c4 := Register(Authenticate(Connect(AddComputer(START, "n"), 1, "n"), 1, true), 1);
    assert PlayFrom(START, s[..4]) == c4 by {
      assert s[..1] == [] + [s[0]] && s[..2] == s[..1] + [s[1]] && s[..3] == s[..2] + [s[2]] && s[..4] == s[..3] + [s[3]];
      Extended(START, [], s[0]);
      Extended(START, s[..1], s[1]);
      Extended(START, s[..2], s[2]);
      Extended(START, s[..3], s[3]);
    }
    assert s[..5] == s[..4] + [s[4]] && s == s[..5] + [s[5]];
    Extended(START, s[..4], s[4]);
    Extended(START, s[..5], s[5]);
  }

  /** The cut-off handler of the lookup exists: its replacing was cut short, and the Node's lookup returns it. */
  lemma CutOffIsLookedUp()
    ensures var c := PlayFrom(START, RECONNECTING + [Registering(2)] + [CuttingShort(2)]);
            InPhase(c, 2, CutOff) && !IsLive(c, 2) && Lookup(c, "n") == Some(2)
  {
    ReconnectingIsReachable();
    Extended(START, RECONNECTING, Registering(2));
    Extended(START, RECONNECTING + [Registering(2)], CuttingShort(2));
  }

  /** The steps that give the registration of a Node up: a registry revoke, a shutdown, or a successful registration. */
  predicate Displaces(c: Core, step: Step, n: NodeId) {
    match step
    case RevokingInRegistry(m) => m == n
    case ShuttingDown => true
    case Registering(k) => InPhase(c, k, Authenticated) && c.handlers[k].node == n && Usable(c, n)
    case _ => false
  }

  predicate NothingDisplaces(c: Core, steps: seq<Step>, n: NodeId) {
    forall i :: 0 <= i < |steps| ==> !Displaces(PlayFrom(c, steps[..i]), steps[i], n)
  }

  predicate IsRegistered(c: Core, n: NodeId, h: HandlerId) {
    n in c.connections && c.connections[n] == h
  }

  lemma CutOffStepIff(c: Core, step: Step, n: NodeId, h: HandlerId)
    requires Good(c) && InPhase(c, h, CutOff)
    ensures InPhase(Apply(c, step), h, CutOff)
    ensures IsRegistered(Apply(c, step), n, h) <==> IsRegistered(c, n, h) && !Displaces(c, step, n)
  {
  }

  lemma NothingDisplacesStep(c: Core, front: seq<Step>, last: Step, n: NodeId)
    ensures NothingDisplaces(c, front + [last], n)
            <==> NothingDisplaces(c, front, n) && !Displaces(PlayFrom(c, front), last, n)
  {
    var steps := front + [last];
    assert steps[..|front|] == front && steps[|front|] == last;
    assert forall i :: 0 <= i < |front| ==> front[..i] == steps[..i] && front[i] == steps[i];
  }

  lemma {:induction false} CutOffIsRegisteredIff(c: Core, steps: seq<Step>, n: NodeId, h: HandlerId)
    requires Good(c) && InPhase(c, h, CutOff)
    ensures InPhase(PlayFrom(c, steps), h, CutOff)
    ensures IsRegistered(PlayFrom(c, steps), n, h) <==> IsRegistered(c, n, h) && NothingDisplaces(c, steps, n)
  {
    if steps != [] {
      var front, last := steps[..|steps| - 1], steps[|steps| - 1];
      CutOffIsRegisteredIff(c, front, n, h);
      GoodStaysGood(c, front);
      CutOffStepIff(PlayFrom(c, front), last, n, h);
      NothingDisplacesStep(c, front, last, n);
      assert steps == front + [last];
    }
  }

  /**
   A handler cut off while it replaced another is never unregistered by itself:
   it stays registered exactly as long as no later step gives the registration
   of its Node up.
  */
  lemma CutOffStaysRegistered(before: seq<Step>, h: HandlerId, n: NodeId, after: seq<Step>)
    requires InPhase(PlayFrom(START, before), h, Replacing)
    ensures IsRegistered(PlayFrom(START, before + [CuttingShort(h)] + after), n, h)
            <==> IsRegistered(PlayFrom(START, before), n, h)
                 && NothingDisplaces(CutShort(PlayFrom(START, before), h), after, n)
  {
    EveryCoreIsGood(before + [CuttingShort(h)]);
    Extended(START, before, CuttingShort(h));
    PlayConcat(START, before + [CuttingShort(h)], after);
    CutOffIsRegisteredIff(CutShort(PlayFrom(START, before), h), after, n, h);
  }

  // ---------------------------------------------------- a Node that connects

  /** The steps that may end what a lookup of the Node returns: its handler's end, a successor, a revoke, a removal, a shutdown. */
  predicate Interrupts(c: Core, step: Step, n: NodeId, h: HandlerId) {
    match step
    case RevokingInRegistry(m) => m == n
    case RevokingInStore(m) => m == n
    case RemovingComputer(m) => m == n
    case ShuttingDown => true
    case Unregistering(k) => k == h
    case Registering(k) => k != h && k in c.handlers && c.handlers[k].node == n
    case _ => false
  }

  /** Registered, and looked up. */
  predicate IsServed(c: Core, n: NodeId, h: HandlerId) {
    && n in c.revoked && !c.revoked[n]
    && n in c.connections && c.connections[n] == h
    && h in c.handlers && c.handlers[h].node == n && c.handlers[h].phase in {Replacing, Serving, CutOff}
  }

  lemma ServedStep(c: Core, step: Step, n: NodeId, h: HandlerId)
    requires IsServed(c, n, h) && !Interrupts(c, step, n, h)
    ensures IsServed(Apply(c, step), n, h)
  {
  }

  /** A handler that has authenticated registers if its Node's computer still exists and is not revoked. */
  lemma AuthenticatedHandlersRegister(steps: seq<Step>, n: NodeId, h: HandlerId)
    requires var c := PlayFrom(START, steps);
             h in c.handlers && c.handlers[h] == Handler(n, Authenticated)
    ensures var c, d := PlayFrom(START, steps), PlayFrom(START, steps + [Registering(h)]);
            if n in c.revoked && !c.revoked[n]
            then IsServed(d, n, h) && d.connections - {n} == c.connections - {n}
            else d.connections == c.connections && h in d.handlers && d.handlers[h] == Handler(n, Ended)
  {
    Extended(START, steps, Registering(h));
  }

  /** Authentication needs a usable computer when it begins and when it ends, and a valid answer. */
  lemma AuthenticationDecides(steps: seq<Step>, n: NodeId, h: HandlerId, valid: bool)
    ensures var c, d := PlayFrom(START, steps), PlayFrom(START, steps + [Connecting(h, n)]);
            h !in c.handlers ==> (h in d.handlers <==> n in c.revoked && !c.revoked[n])
                                 && (h in d.handlers ==> d.handlers[h] == Handler(n, Authenticating))
    ensures var c, d := PlayFrom(START, steps), PlayFrom(START, steps + [AuthFinishing(h, valid)]);
            (h in c.handlers && c.handlers[h] == Handler(n, Authenticating)) ==>
              && h in d.handlers
              && d.handlers[h] == Handler(n, if valid && n in c.revoked && !c.revoked[n] then Authenticated else Ended)
  {
    Extended(START, steps, Connecting(h, n));
    Extended(START, steps, AuthFinishing(h, valid));
  }

  /** A handler cancelled before it registers ends, and leaves the registry alone. */
  lemma EarlyCancellationEnds(steps: seq<Step>, n: NodeId, h: HandlerId)
    requires var c := PlayFrom(START, steps);
             h in c.handlers && (c.handlers[h] == Handler(n, Authenticating) || c.handlers[h] == Handler(n, Authenticated))
    ensures var c, d := PlayFrom(START, steps), PlayFrom(START, steps + [CuttingShort(h)]);
            h in d.handlers && d.handlers[h] == Handler(n, Ended) && d.connections == c.connections
  {
    Extended(START, steps, CuttingShort(h));
  }

  /** Cleaning up takes a handler's own registration away, and ends it. */
  lemma CleanupUnregisters(steps: seq<Step>, n: NodeId, h: HandlerId)
    requires var c := PlayFrom(START, steps);
             h in c.handlers && c.handlers[h] == Handler(n, Serving) && n in c.connections
    ensures var c, d := PlayFrom(START, steps), PlayFrom(START, steps + [Unregistering(h)]);
            && h in d.handlers && d.handlers[h] == Handler(n, Ended)
            && (n in d.connections <==> c.connections[n] != h)
  {
    Extended(START, steps, Unregistering(h));
  }

  /** A handler that replaced another serves once its predecessor is closed. */
  lemma SuccessorsServe(steps: seq<Step>, n: NodeId, h: HandlerId)
    requires var c := PlayFrom(START, steps); h in c.handlers && c.handlers[h] == Handler(n, Replacing)
    ensures var d := PlayFrom(START, steps + [Entering(h)]); h in d.handlers && d.handlers[h] == Handler(n, Serving)
  {
    Extended(START, steps, Entering(h));
  }

  /** A computer once added is usable until it is revoked or removed, and its id is never given to another. */
  lemma ComputersAreUsable(steps: seq<Step>, n: NodeId)
    ensures var c, d := PlayFrom(START, steps), PlayFrom(START, steps + [AddingComputer(n)]);
            if n in c.ever then d == c else n in d.revoked && !d.revoked[n] && n in d.ever
    ensures n !in PlayFrom(START, steps + [RemovingComputer(n)]).revoked
    ensures var c, d := PlayFrom(START, steps), PlayFrom(START, steps + [RevokingInStore(n)]);
            (n in d.revoked <==> n in c.revoked) && (n in d.revoked ==> d.revoked[n])
  {
    Extended(START, steps, AddingComputer(n));
    Extended(START, steps, RemovingComputer(n));
    Extended(START, steps, RevokingInStore(n));
  }

  /**
   A Node that connects is reachable. In every reachable state with a usable
   computer, a fresh handler that connects, authenticates and registers is what
   a lookup returns, until it ends, is succeeded, revoked, removed or shut down.
  */
  lemma {:induction false} ConnectedNodeIsLookedUp(before: seq<Step>, n: NodeId, h: HandlerId, after: seq<Step>)
    requires var c := PlayFrom(START, before); n in c.revoked && !c.revoked[n] && h !in c.handlers
    requires var c := PlayFrom(START, before + [Connecting(h, n)] + [AuthFinishing(h, true)] + [Registering(h)]);
             forall i :: 0 <= i < |after| ==> !Interrupts(PlayFrom(c, after[..i]), after[i], n, h)
    ensures var connected := before + [Connecting(h, n)] + [AuthFinishing(h, true)] + [Registering(h)];
            var c := PlayFrom(START, connected + after);
            IsServed(c, n, h) && Lookup(c, n) == Some(h)
  {
    var authenticated := before + [Connecting(h, n)] + [AuthFinishing(h, true)];
    Extended(START, before, Connecting(h, n));
    Extended(START, before + [Connecting(h, n)], AuthFinishing(h, true));
    Extended(START, authenticated, Registering(h));
    var connected := authenticated + [Registering(h)];
    PlayConcat(START, connected, after);
    ServedRun(PlayFrom(START, connected), n, h, after);
  }

  lemma {:induction false} ServedRun(c: Core, n: NodeId, h: HandlerId, steps: seq<Step>)
    requires IsServed(c, n, h)
    requires forall i :: 0 <= i < |steps| ==> !Interrupts(PlayFrom(c, steps[..i]), steps[i], n, h)
    ensures IsServed(PlayFrom(c, steps), n, h)
  {
    if steps != [] {
      var front := steps[..|steps| - 1];
      forall i | 0 <= i < |front| ensures !Interrupts(PlayFrom(c, front[..i]), front[i], n, h) {
        assert front[..i] == steps[..i];
      }
      ServedRun(c, n, h, front);
      ServedStep(PlayFrom(c, front), steps[|steps| - 1], n, h);
    }
  }

  // ----------------------------------------------------------- mutable form

  class NodeCore {
    var revoked: map<NodeId, bool>
    ghost var ever: set<NodeId>
    var handlers: map<HandlerId, Handler>
    var connections: map<NodeId, HandlerId>

    ghost function View(): Core
      reads this
    {
      Core(revoked, ever, handlers, connections)
    }

    constructor ()
      ensures View() == START
    {
      revoked, ever, handlers, connections := map[], {}, map[], map[];
    }

    /** The registering section of `handle_socket`: whom to close, if anyone. */
    method RegisterHandler(h: HandlerId) returns (accepted: bool, previous: Option<HandlerId>)
      requires Good(View()) && InPhase(View(), h, Authenticated)
      modifies this`handlers, this`connections
      ensures Good(View()) && View() == Register(old(View()), h)
      ensures accepted <==> Usable(old(View()), handlers[h].node)
      ensures accepted ==> Lookup(View(), handlers[h].node) == Some(h) && IsLive(View(), h)
      ensures connections == if accepted then old(connections)[handlers[h].node := h] else old(connections)
      ensures previous.Some? ==> previous.value != h && InPhase(View(), h, Replacing)
                                 && previous.value in handlers && handlers[previous.value].node == handlers[h].node
    {
      var n := handlers[h].node;
      accepted, previous := n in revoked && !revoked[n], None;
      if accepted {
        if n in connections {
          previous := Some(connections[n]);
        }
        connections := connections[n := h];
      }
      handlers := handlers[h := Handler(n, if previous.Some? then Replacing else if accepted then Serving else Ended)];
    }

    /** The `finally` of `handle_socket`. */
    method UnregisterHandler(h: HandlerId)
      requires Good(View()) && InPhase(View(), h, Serving)
      modifies this`handlers, this`connections
      ensures Good(View()) && View() == Unregister(old(View()), h)
      ensures var n := old(handlers)[h].node;
              && handlers == old(handlers)[h := Handler(n, Ended)]
              && connections == if n in old(connections) && old(connections)[n] == h then old(connections) - {n} else old(connections)
      ensures forall n :: n in old(connections) && old(connections)[n] != h ==> n in connections
    {
      var n := handlers[h].node;
      if n in connections && connections[n] == h {
        connections := connections - {n};
      }
      handlers := handlers[h := Handler(n, Ended)];
    }

    method Revoke(n: NodeId) returns (closing: Option<HandlerId>)
      requires Good(View())
      modifies this`connections
      ensures Good(View()) && View() == RevokeInRegistry(old(View()), n) && connections == old(connections) - {n}
      ensures closing == if n in old(connections) then Some(old(connections)[n]) else None
    {
      closing := if n in connections then Some(connections[n]) else None;
      connections := connections - {n};
    }
  }
}
