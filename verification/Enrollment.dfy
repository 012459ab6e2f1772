/**
 Pairing codes, Node enrollments and the computers they become.

 The row id and the hash of a pairing code are both unique, so the hash is the
 key of the table here; an unusable name is given as None.
*/
module Enrollments {
  import opened Wrappers

  type CodeHash = string
  type EnrollmentId = string
  type ComputerId = string
  type PublicKey = string

  datatype Code = Code(expiresAt: int, consumed: bool)

  datatype Status = Pending | Approved | Rejected

  datatype Enrollment = Enrollment(code: CodeHash, name: string, key: PublicKey, status: Status, computer: Option<ComputerId>)

  /** A computer reached over SSH has no Node key. */
  datatype Computer = Computer(name: string, key: Option<PublicKey>)

  datatype Db = Db(codes: map<CodeHash, Code>, enrollments: map<EnrollmentId, Enrollment>,
                   computers: map<ComputerId, Computer>)

  datatype StoreError = Duplicate | InvalidName | Unknown | NoLongerPending | AlreadyRegistered

  function Empty(): Db {
    Db(map[], map[], map[])
  }

  predicate KeyTaken(computers: map<ComputerId, Computer>, key: PublicKey) {
    exists c :: c in computers && computers[c].key == Some(key)
  }

  // ------------------------------------------------------------- operations

  /** The unconsumed codes that expired are deleted first, and with them any enrollment that refers to one. */
  function Unexpired(codes: map<CodeHash, Code>, now: int): map<CodeHash, Code> {
    map h | h in codes && (codes[h].consumed || codes[h].expiresAt >= now) :: codes[h]
  }

  function Cascaded(enrollments: map<EnrollmentId, Enrollment>, codes: map<CodeHash, Code>): map<EnrollmentId, Enrollment> {
    map e | e in enrollments && enrollments[e].code in codes :: enrollments[e]
  }

  function CreateCode(db: Db, hash: CodeHash, expiresAt: int, now: int): (Db, Result<(), StoreError>) {
    var codes := Unexpired(db.codes, now);
    if hash in codes then (db, Err(Duplicate))
    else (db.(codes := codes[hash := Code(expiresAt, false)], enrollments := Cascaded(db.enrollments, codes)), Ok(()))
  }

  predicate Redeemable(db: Db, hash: CodeHash, now: int) {
    hash in db.codes && !db.codes[hash].consumed && db.codes[hash].expiresAt >= now
  }

  /** `submit_node_enrollment`; no enrollment means the code or the key was not accepted. */
  function Submit(db: Db, id: EnrollmentId, hash: CodeHash, name: Option<string>, key: PublicKey, now: int)
    : (Db, Result<Option<EnrollmentId>, StoreError>)
  {
    if !Redeemable(db, hash, now) || KeyTaken(db.computers, key) then (db, Ok(None))
    else if name.None? then (db, Err(InvalidName))
    else if id in db.enrollments || (exists e :: e in db.enrollments && db.enrollments[e].code == hash)
    then (db, Err(Duplicate))
    else (db.(codes := db.codes[hash := db.codes[hash].(consumed := true)],
              enrollments := db.enrollments[id := Enrollment(hash, name.value, key, Pending, None)]),
          Ok(Some(id)))
  }

  /** `approve_node_enrollment`; `newId` is the id a new computer would get. */
  function Approve(db: Db, id: EnrollmentId, newId: ComputerId): (Db, Result<ComputerId, StoreError>) {
    if id !in db.enrollments then (db, Err(Unknown))
    else
      var e := db.enrollments[id];
      if e.status != Pending then
        (db, if e.status == Approved && e.computer.Some? && e.computer.value in db.computers
             then Ok(e.computer.value) else Err(NoLongerPending))
      else if KeyTaken(db.computers, e.key) then (db, Err(AlreadyRegistered))
      else if newId in db.computers then (db, Err(Duplicate))
      else (db.(computers := db.computers[newId := Computer(e.name, Some(e.key))],
                enrollments := db.enrollments[id := e.(status := Approved, computer := Some(newId))]),
            Ok(newId))
  }

  function Reject(db: Db, id: EnrollmentId): (Db, Result<(), StoreError>) {
    if id !in db.enrollments || db.enrollments[id].status != Pending then (db, Err(NoLongerPending))
    else (db.(enrollments := db.enrollments[id := db.enrollments[id].(status := Rejected)]), Ok(()))
  }

  /** Deleting a computer sets the enrollments that became it to none. */
  function Detached(enrollments: map<EnrollmentId, Enrollment>, c: ComputerId): map<EnrollmentId, Enrollment> {
    map e | e in enrollments ::
      if enrollments[e].computer == Some(c) then enrollments[e].(computer := None) else enrollments[e]
  }

  function Remove(db: Db, c: ComputerId): Db {
    db.(computers := db.computers - {c}, enrollments := Detached(db.enrollments, c))
  }

  /** `update_computer_name`, for a computer of either kind. */
  function Rename(db: Db, c: ComputerId, name: Option<string>): (Db, Result<(), StoreError>) {
    if name.None? then (db, Err(InvalidName))
    else if c !in db.computers then (db, Err(Unknown))
    else (db.(computers := db.computers[c := db.computers[c].(name := name.value)]), Ok(()))
  }

  function AddSsh(db: Db, c: ComputerId, name: string): Db {
    if c in db.computers then db else db.(computers := db.computers[c := Computer(name, None)])
  }

  // -------------------------------------------------------------- invariant

  /** A code is consumed exactly when it has an enrollment, and it has at most one. */
  ghost predicate CodesOk(db: Db) {
    && (forall h :: h in db.codes ==> (db.codes[h].consumed <==> HasEnrollment(db, h)))
    && (forall e :: e in db.enrollments ==> db.enrollments[e].code in db.codes)
    && (forall e, f :: e in db.enrollments && f in db.enrollments && e != f
                       ==> db.enrollments[e].code != db.enrollments[f].code)
  }

  predicate HasEnrollment(db: Db, h: CodeHash) {
    exists e :: e in db.enrollments && db.enrollments[e].code == h
  }

  ghost predicate KeysUnique(computers: map<ComputerId, Computer>) {
    forall c, d :: c in computers && d in computers && c != d && computers[c].key.Some?
                   ==> computers[c].key != computers[d].key
  }

  /**
   A decided enrollment points to the computer it became, its own alone and with
   its key, while that computer exists. The computer may have been renamed.
  */
  ghost predicate LinksOk(db: Db) {
    && (forall e :: e in db.enrollments && db.enrollments[e].computer.Some? ==>
          && db.enrollments[e].status == Approved && db.enrollments[e].computer.value in db.computers
          && db.computers[db.enrollments[e].computer.value].key == Some(db.enrollments[e].key))
    && (forall e, f :: e in db.enrollments && f in db.enrollments && e != f && db.enrollments[e].computer.Some?
                       ==> db.enrollments[e].computer != db.enrollments[f].computer)
  }

  ghost predicate Good(db: Db) {
    CodesOk(db) && KeysUnique(db.computers) && LinksOk(db)
  }

  datatype Step =
    | Creating(hash: CodeHash, expiresAt: int, now: int)
    | Submitting(id: EnrollmentId, hash: CodeHash, name: Option<string>, key: PublicKey, now: int)
    | Approving(id: EnrollmentId, newId: ComputerId)
    | Rejecting(id: EnrollmentId)
    | Removing(computer: ComputerId)
    | AddingSsh(computer: ComputerId, display: string)
    | Renaming(computer: ComputerId, title: Option<string>)

  function Apply(db: Db, step: Step): Db {
    match step
    case Creating(hash, expiresAt, now) => CreateCode(db, hash, expiresAt, now).0
    case Submitting(id, hash, name, key, now) => Submit(db, id, hash, name, key, now).0
    case Approving(id, newId) => Approve(db, id, newId).0
    case Rejecting(id) => Reject(db, id).0
    case Removing(c) => Remove(db, c)
    case AddingSsh(c, name) => AddSsh(db, c, name)
    case Renaming(c, name) => Rename(db, c, name).0
  }

  function PlayFrom(db: Db, steps: seq<Step>): Db {
    if steps == [] then db else Apply(PlayFrom(db, steps[..|steps| - 1]), steps[|steps| - 1])
  }

  lemma NothingCascades(db: Db, now: int)
    requires CodesOk(db)
    ensures Cascaded(db.enrollments, Unexpired(db.codes, now)) == db.enrollments
  {
    forall e | e in db.enrollments ensures db.enrollments[e].code in Unexpired(db.codes, now) {
      assert HasEnrollment(db, db.enrollments[e].code);
    }
  }

  lemma CreateKeepsGood(db: Db, hash: CodeHash, expiresAt: int, now: int)
    requires Good(db)
    ensures Good(CreateCode(db, hash, expiresAt, now).0)
  {
    NothingCascades(db, now);
    var q := CreateCode(db, hash, expiresAt, now).0;
    assert q.enrollments == db.enrollments;
    assert forall h :: HasEnrollment(q, h) <==> HasEnrollment(db, h);
    if q != db {
      assert forall e :: e in db.enrollments ==> db.enrollments[e].code in Unexpired(db.codes, now);
    }
  }

  lemma SubmitKeepsGood(db: Db, id: EnrollmentId, hash: CodeHash, name: Option<string>, key: PublicKey, now: int)
    requires Good(db)
    ensures Good(Submit(db, id, hash, name, key, now).0)
  {
    var q := Submit(db, id, hash, name, key, now).0;
    if q != db {
      assert q.enrollments[id].code == hash;
      forall h ensures HasEnrollment(q, h) <==> HasEnrollment(db, h) || h == hash {
        if HasEnrollment(db, h) {
          var e :| e in db.enrollments && db.enrollments[e].code == h;
          assert q.enrollments[e].code == h;
        }
        if HasEnrollment(q, h) && h != hash {
          var e :| e in q.enrollments && q.enrollments[e].code == h;
          assert e in db.enrollments;
        }
      }
    }
  }

  /** Steps that keep every enrollment's code keep what is known of the codes. */
  lemma SameCodes(db: Db, q: Db)
    requires CodesOk(db) && q.codes == db.codes && q.enrollments.Keys == db.enrollments.Keys
    requires forall e :: e in db.enrollments ==> q.enrollments[e].code == db.enrollments[e].code
    ensures CodesOk(q)
  {
    forall h ensures HasEnrollment(q, h) <==> HasEnrollment(db, h) {
      if HasEnrollment(db, h) {
        var e :| e in db.enrollments && db.enrollments[e].code == h;
        assert q.enrollments[e].code == h;
      }
      if HasEnrollment(q, h) {
        var e :| e in q.enrollments && q.enrollments[e].code == h;
        assert db.enrollments[e].code == h;
      }
    }
  }

  lemma NewKeyIsUnique(computers: map<ComputerId, Computer>, newId: ComputerId, c: Computer)
    requires KeysUnique(computers) && newId !in computers && (c.key.Some? ==> !KeyTaken(computers, c.key.value))
    ensures KeysUnique(computers[newId := c])
  {
  }

  lemma NewLinkIsUnique(db: Db, id: EnrollmentId, newId: ComputerId)
    requires LinksOk(db) && id in db.enrollments && newId !in db.computers
    requires db.enrollments[id].status == Pending
    ensures var e := db.enrollments[id];
            LinksOk(db.(computers := db.computers[newId := Computer(e.name, Some(e.key))],
                        enrollments := db.enrollments[id := e.(status := Approved, computer := Some(newId))]))
  {
  }

  lemma ApproveKeepsGood(db: Db, id: EnrollmentId, newId: ComputerId)
    requires Good(db)
    ensures Good(Approve(db, id, newId).0)
  {
    var q := Approve(db, id, newId).0;
    if q != db {
      var e := db.enrollments[id];
      SameCodes(db, q);
      NewKeyIsUnique(db.computers, newId, Computer(e.name, Some(e.key)));
      NewLinkIsUnique(db, id, newId);
    }
  }

  lemma RejectKeepsGood(db: Db, id: EnrollmentId)
    requires Good(db)
    ensures Good(Reject(db, id).0)
  {
    SameCodes(db, Reject(db, id).0);
  }

  lemma DetachedLinks(db: Db, c: ComputerId)
    requires LinksOk(db)
    ensures LinksOk(Remove(db, c))
  {
  }

  lemma ComputerStepKeepsGood(db: Db, step: Step)
    requires Good(db) && (step.Removing? || step.AddingSsh? || step.Renaming?)
    ensures Good(Apply(db, step))
  {
    if step.Removing? {
      SameCodes(db, Remove(db, step.computer));
      DetachedLinks(db, step.computer);
    } else if step.Renaming? {
      SameCodes(db, Rename(db, step.computer, step.title).0);
    } else {
      SameCodes(db, AddSsh(db, step.computer, step.display));
      if step.computer !in db.computers {
        NewKeyIsUnique(db.computers, step.computer, Computer(step.display, None));
      }
    }
  }

  lemma {:induction false} EveryDbIsGood(steps: seq<Step>)
    ensures Good(PlayFrom(Empty(), steps))
  {
    if steps != [] {
      var db, step := PlayFrom(Empty(), steps[..|steps| - 1]), steps[|steps| - 1];
      EveryDbIsGood(steps[..|steps| - 1]);
      match step
      case Creating(hash, expiresAt, now) => CreateKeepsGood(db, hash, expiresAt, now);
      case Submitting(id, hash, name, key, now) => SubmitKeepsGood(db, id, hash, name, key, now);
      case Approving(id, newId) => ApproveKeepsGood(db, id, newId);
      case Rejecting(id) => RejectKeepsGood(db, id);
      case _ => ComputerStepKeepsGood(db, step);
    }
  }

  // ---------------------------------------------------------------- results

  /** A code gives at most one enrollment, and is consumed exactly when it has given one. */
  lemma CodeGivesOneEnrollment(steps: seq<Step>, h: CodeHash, e: EnrollmentId, f: EnrollmentId)
    requires var db := PlayFrom(Empty(), steps); h in db.codes && e in db.enrollments && f in db.enrollments
    ensures var db := PlayFrom(Empty(), steps);
            && (db.enrollments[e].code == h ==> db.codes[h].consumed)
            && (db.codes[h].consumed ==> HasEnrollment(db, h))
            && (db.enrollments[e].code == h && db.enrollments[f].code == h ==> e == f)
  {
    EveryDbIsGood(steps);
    var db := PlayFrom(Empty(), steps);
    assert db.enrollments[e].code == h ==> HasEnrollment(db, h);
  }

  /** No two registered Nodes share a public key. */
  lemma {:induction false} NodesHaveDistinctKeys(steps: seq<Step>, c: ComputerId, d: ComputerId)
    requires var db := PlayFrom(Empty(), steps); c in db.computers && d in db.computers && c != d
    ensures var db := PlayFrom(Empty(), steps);
            db.computers[c].key.Some? ==> db.computers[c].key != db.computers[d].key
  {
    EveryDbIsGood(steps);
  }

  /** What may change in an enrollment: its one decision, and the loss of its computer. */
  predicate EnrollmentStep(before: Enrollment, after: Enrollment) {
    && after.code == before.code && after.name == before.name && after.key == before.key
    && (before.status != Pending ==> after.status == before.status
                                     && (after.computer == before.computer || after.computer == None))
  }

  lemma StepDecidesOnce(db: Db, step: Step, id: EnrollmentId)
    requires Good(db) && id in db.enrollments
    ensures id in Apply(db, step).enrollments
    ensures EnrollmentStep(db.enrollments[id], Apply(db, step).enrollments[id])
  {
    if step.Creating? {
      NothingCascades(db, step.now);
    }
  }

  /** Decisions are final, and no later computer replaces the one an enrollment became. */
  lemma {:induction false} DecisionsAreFinal(steps: seq<Step>, more: seq<Step>, id: EnrollmentId)
    requires id in PlayFrom(Empty(), steps).enrollments
    ensures id in PlayFrom(Empty(), steps + more).enrollments
    ensures EnrollmentStep(PlayFrom(Empty(), steps).enrollments[id], PlayFrom(Empty(), steps + more).enrollments[id])
  {
    var all := steps + more;
    if more == [] {
      assert all == steps;
    } else {
      assert all[..|all| - 1] == steps + more[..|more| - 1];
      DecisionsAreFinal(steps, more[..|more| - 1], id);
      EveryDbIsGood(all[..|all| - 1]);
      StepDecidesOnce(PlayFrom(Empty(), all[..|all| - 1]), all[|all| - 1], id);
    }
  }

  lemma LinkSurvives(db: Db, step: Step, id: EnrollmentId, c: ComputerId)
    requires Good(db) && id in db.enrollments && db.enrollments[id].computer == Some(c)
    requires step != Removing(c)
    ensures id in Apply(db, step).enrollments && Apply(db, step).enrollments[id].computer == Some(c)
  {
    if step.Creating? {
      NothingCascades(db, step.now);
    }
  }

  lemma {:induction false} LinkSurvivesRun(steps: seq<Step>, more: seq<Step>, id: EnrollmentId, c: ComputerId)
    requires id in PlayFrom(Empty(), steps).enrollments
    requires PlayFrom(Empty(), steps).enrollments[id].computer == Some(c)
    requires Removing(c) !in more
    ensures var db := PlayFrom(Empty(), steps + more); id in db.enrollments && db.enrollments[id].computer == Some(c)
  {
    var all := steps + more;
    if more == [] {
      assert all == steps;
    } else {
      var front, last := steps + more[..|more| - 1], more[|more| - 1];
      assert all == front + [last] && all[..|all| - 1] == front;
      LinkSurvivesRun(steps, more[..|more| - 1], id, c);
      EveryDbIsGood(front);
      assert last in more;
      LinkSurvives(PlayFrom(Empty(), front), last, id, c);
    }
  }

  /** Approving again returns the same computer, and changes nothing, until that computer is removed. */
  lemma ApprovingAgainReturnsTheSame(steps: seq<Step>, id: EnrollmentId, c: ComputerId, newId: ComputerId,
                                     more: seq<Step>, again: ComputerId)
    requires Approve(PlayFrom(Empty(), steps), id, newId).1 == Ok(c) && Removing(c) !in more
    ensures var db := PlayFrom(Empty(), steps + [Approving(id, newId)] + more);
            Approve(db, id, again) == (db, Ok(c))
  {
    var first := steps + [Approving(id, newId)];
    assert first[..|first| - 1] == steps;
    EveryDbIsGood(steps);
    LinkSurvivesRun(first, more, id, c);
    EveryDbIsGood(first + more);
  }

  /** After its computer is removed, an enrollment is never approved again. */
  lemma RemovedComputerEndsTheEnrollment(steps: seq<Step>, id: EnrollmentId, c: ComputerId, more: seq<Step>,
                                         newId: ComputerId)
    requires id in PlayFrom(Empty(), steps).enrollments
    requires PlayFrom(Empty(), steps).enrollments[id].computer == Some(c)
    ensures Approve(PlayFrom(Empty(), steps + [Removing(c)] + more), id, newId).1 == Err(NoLongerPending)
  {
    EveryDbIsGood(steps);
    var removed := steps + [Removing(c)];
    assert removed[..|removed| - 1] == steps;
    assert PlayFrom(Empty(), removed) == Remove(PlayFrom(Empty(), steps), c);
    DecisionsAreFinal(removed, more, id);
  }

  // -------------------------------------------------------- a whole pairing

  lemma Extended(steps: seq<Step>, step: Step)
    ensures PlayFrom(Empty(), steps + [step]) == Apply(PlayFrom(Empty(), steps), step)
  {
    assert (steps + [step])[..|steps|] == steps;
  }

  /** The steps that may use up or drop an unused code: an enrollment with it, and a new code made after its expiry. */
  predicate TouchesCode(step: Step, hash: CodeHash, expiresAt: int) {
    (step.Submitting? && step.hash == hash) || (step.Creating? && step.now > expiresAt)
  }

  lemma CodeStays(db: Db, step: Step, hash: CodeHash, expiresAt: int)
    requires hash in db.codes && db.codes[hash] == Code(expiresAt, false) && !TouchesCode(step, hash, expiresAt)
    ensures hash in Apply(db, step).codes && Apply(db, step).codes[hash] == Code(expiresAt, false)
  {
  }

  /** A code that was made is there, unused, until it is used or a later code is made after its expiry. */
  lemma {:induction false} CodeWaits(before: seq<Step>, hash: CodeHash, expiresAt: int, now: int, more: seq<Step>)
    requires var codes := PlayFrom(Empty(), before).codes;
             hash in codes ==> !codes[hash].consumed && codes[hash].expiresAt < now
    requires forall i :: 0 <= i < |more| ==> !TouchesCode(more[i], hash, expiresAt)
    ensures var db := PlayFrom(Empty(), before + [Creating(hash, expiresAt, now)] + more);
            hash in db.codes && db.codes[hash] == Code(expiresAt, false)
  {
    var made := before + [Creating(hash, expiresAt, now)];
    Extended(before, Creating(hash, expiresAt, now));
    if more == [] {
      assert made + more == made;
    } else {
      var front, last := made + more[..|more| - 1], more[|more| - 1];
      assert made + more == front + [last];
      CodeWaits(before, hash, expiresAt, now, more[..|more| - 1]);
      Extended(front, last);
      CodeStays(PlayFrom(Empty(), front), last, hash, expiresAt);
    }
  }

  predicate Decides(step: Step, id: EnrollmentId) {
    (step.Approving? || step.Rejecting?) && step.id == id
  }

  lemma StaysPending(db: Db, step: Step, id: EnrollmentId)
    requires Good(db) && id in db.enrollments && db.enrollments[id].status == Pending && !Decides(step, id)
    ensures id in Apply(db, step).enrollments && Apply(db, step).enrollments[id] == db.enrollments[id]
  {
    if step.Creating? {
      NothingCascades(db, step.now);
    }
  }

  /** An enrollment waits, as it was submitted, until it is decided. */
  lemma {:induction false} EnrollmentWaits(steps: seq<Step>, more: seq<Step>, id: EnrollmentId)
    requires var es := PlayFrom(Empty(), steps).enrollments; id in es && es[id].status == Pending
    requires forall i :: 0 <= i < |more| ==> !Decides(more[i], id)
    ensures var es := PlayFrom(Empty(), steps + more).enrollments;
            id in es && es[id] == PlayFrom(Empty(), steps).enrollments[id]
  {
    if more == [] {
      assert steps + more == steps;
    } else {
      var front, last := steps + more[..|more| - 1], more[|more| - 1];
      assert steps + more == front + [last];
      EnrollmentWaits(steps, more[..|more| - 1], id);
      EveryDbIsGood(front);
      Extended(front, last);
      StaysPending(PlayFrom(Empty(), front), last, id);
    }
  }

  lemma UnusedCodeHasNoEnrollment(steps: seq<Step>, hash: CodeHash)
    requires var db := PlayFrom(Empty(), steps); hash in db.codes && !db.codes[hash].consumed
    ensures !HasEnrollment(PlayFrom(Empty(), steps), hash)
  {
    EveryDbIsGood(steps);
  }

  /** A submission with a waiting code, in time, with a name and a key that no computer has, is recorded as submitted. */
  lemma SubmissionIsRecorded(steps: seq<Step>, id: EnrollmentId, hash: CodeHash, name: string, key: PublicKey, at: int)
    requires var db := PlayFrom(Empty(), steps);
             && hash in db.codes && !db.codes[hash].consumed && at <= db.codes[hash].expiresAt && id !in db.enrollments
             && forall c :: c in db.computers ==> db.computers[c].key != Some(key)
    ensures var db := PlayFrom(Empty(), steps + [Submitting(id, hash, Some(name), key, at)]);
            && id in db.enrollments && db.enrollments[id] == Enrollment(hash, name, key, Pending, None)
            && hash in db.codes && db.codes[hash].consumed
  {
    Extended(steps, Submitting(id, hash, Some(name), key, at));
    UnusedCodeHasNoEnrollment(steps, hash);
  }

  /** Approving a waiting enrollment makes the computer it asked for. */
  lemma ApprovalMakesTheComputer(steps: seq<Step>, id: EnrollmentId, newId: ComputerId)
    requires var db := PlayFrom(Empty(), steps);
             && id in db.enrollments && db.enrollments[id].status == Pending && newId !in db.computers
             && forall c :: c in db.computers ==> db.computers[c].key != Some(db.enrollments[id].key)
    ensures var e, db := PlayFrom(Empty(), steps).enrollments[id], PlayFrom(Empty(), steps + [Approving(id, newId)]);
            && newId in db.computers && db.computers[newId] == Computer(e.name, Some(e.key))
            && id in db.enrollments && db.enrollments[id] == e.(status := Approved, computer := Some(newId))
  {
    Extended(steps, Approving(id, newId));
  }

  /**
   A pairing, from the code to the computer: whatever happens in between, the
   code can be redeemed until it expires, and the approved enrollment becomes a
   computer with the submitted name and key.
  */
  lemma PairingSucceeds(before: seq<Step>, hash: CodeHash, expiresAt: int, now: int, wait: seq<Step>, id: EnrollmentId,
                        name: string, key: PublicKey, at: int, decide: seq<Step>, newId: ComputerId,
                        waiting: seq<Step>, submitted: seq<Step>)
    requires waiting == before + [Creating(hash, expiresAt, now)] + wait
    requires submitted == waiting + [Submitting(id, hash, Some(name), key, at)]
    requires var codes := PlayFrom(Empty(), before).codes;
             hash in codes ==> !codes[hash].consumed && codes[hash].expiresAt < now
    requires forall i :: 0 <= i < |wait| ==> !TouchesCode(wait[i], hash, expiresAt)
    requires var db := PlayFrom(Empty(), waiting);
             && at <= expiresAt && id !in db.enrollments && forall c :: c in db.computers ==> db.computers[c].key != Some(key)
    requires forall i :: 0 <= i < |decide| ==> !Decides(decide[i], id)
    requires var db := PlayFrom(Empty(), submitted + decide);
             newId !in db.computers && forall c :: c in db.computers ==> db.computers[c].key != Some(key)
    ensures var db := PlayFrom(Empty(), submitted + decide + [Approving(id, newId)]);
            && newId in db.computers && db.computers[newId] == Computer(name, Some(key))
            && id in db.enrollments && db.enrollments[id].status == Approved && db.enrollments[id].computer == Some(newId)
  {
    CodeWaits(before, hash, expiresAt, now, wait);
    SubmissionIsRecorded(waiting, id, hash, name, key, at);
    EnrollmentWaits(submitted, decide, id);
    ApprovalMakesTheComputer(submitted + decide, id, newId);
  }

  /** A code that was used, or has expired, enrolls nobody. */
  lemma SpentCodesEnrollNobody(steps: seq<Step>, id: EnrollmentId, hash: CodeHash, name: Option<string>, key: PublicKey,
                               at: int)
    requires var codes := PlayFrom(Empty(), steps).codes;
             hash !in codes || codes[hash].consumed || codes[hash].expiresAt < at
    ensures PlayFrom(Empty(), steps + [Submitting(id, hash, name, key, at)]) == PlayFrom(Empty(), steps)
  {
    Extended(steps, Submitting(id, hash, name, key, at));
  }

  /** An unused code goes when a code is made after its expiry; a used one and one still valid stay. */
  lemma MakingACodeDropsExpiredOnes(steps: seq<Step>, hash: CodeHash, expiresAt: int, now: int, other: CodeHash)
    requires var codes := PlayFrom(Empty(), steps).codes; hash !in codes && other in codes
    ensures var codes, codes' := PlayFrom(Empty(), steps).codes,
                                 PlayFrom(Empty(), steps + [Creating(hash, expiresAt, now)]).codes;
            && (other in codes' <==> codes[other].consumed || codes[other].expiresAt >= now)
            && (other in codes' ==> codes'[other] == codes[other])
  {
    Extended(steps, Creating(hash, expiresAt, now));
  }

  /** Removing a computer takes it, and only it, out of the table. */
  lemma RemovingTakesOne(steps: seq<Step>, c: ComputerId)
    ensures PlayFrom(Empty(), steps + [Removing(c)]).computers == PlayFrom(Empty(), steps).computers - {c}
  {
    Extended(steps, Removing(c));
  }

  /** A computer added over SSH has no key. */
  lemma AddingSshAddsOne(steps: seq<Step>, c: ComputerId, name: string)
    requires c !in PlayFrom(Empty(), steps).computers
    ensures PlayFrom(Empty(), steps + [AddingSsh(c, name)]).computers
            == PlayFrom(Empty(), steps).computers[c := Computer(name, None)]
  {
    Extended(steps, AddingSsh(c, name));
  }

  // ----------------------------------------------------------- mutable form

  class EnrollmentStore {
    var codes: map<CodeHash, Code>
    var enrollments: map<EnrollmentId, Enrollment>
    var computers: map<ComputerId, Computer>

    ghost function View(): Db
      reads this
    {
      Db(codes, enrollments, computers)
    }

    constructor ()
      ensures View() == Empty()
    {
      codes, enrollments, computers := map[], map[], map[];
    }

    /** `submit_node_enrollment`, with its rollback when the name is refused. */
    method SubmitEnrollment(id: EnrollmentId, hash: CodeHash, name: Option<string>, key: PublicKey, now: int)
      returns (r: Result<Option<EnrollmentId>, StoreError>)
      requires Good(View()) && id !in enrollments
      modifies this`codes, this`enrollments
      ensures Good(View()) && (View(), r) == Submit(old(View()), id, hash, name, key, now)
      ensures var accepted := (hash in old(codes) && !old(codes)[hash].consumed && old(codes)[hash].expiresAt >= now
                               && forall c :: c in computers ==> computers[c].key != Some(key));
              r == if !accepted then Ok(None) else if name.None? then Err(InvalidName) else Ok(Some(id))
      ensures if r == Ok(Some(id))
              then hash in old(codes) && name.Some?
                   && codes == old(codes)[hash := Code(old(codes)[hash].expiresAt, true)]
                   && enrollments == old(enrollments)[id := Enrollment(hash, name.value, key, Pending, None)]
              else codes == old(codes) && enrollments == old(enrollments)
    {
      SubmitKeepsGood(View(), id, hash, name, key, now);
      if hash !in codes || codes[hash].consumed || codes[hash].expiresAt < now || KeyTaken(computers, key) {
        r := Ok(None);
      } else {
        assert !HasEnrollment(View(), hash);
        var before := codes;
        codes := codes[hash := codes[hash].(consumed := true)];
        if name.None? {
          codes := before;
          r := Err(InvalidName);
        } else {
          enrollments := enrollments[id := Enrollment(hash, name.value, key, Pending, None)];
          r := Ok(Some(id));
        }
      }
    }

    /** `approve_node_enrollment`: the computer is inserted, then the enrollment points to it. */
    method ApproveEnrollment(id: EnrollmentId, newId: ComputerId) returns (r: Result<ComputerId, StoreError>)
      requires Good(View()) && newId !in computers
      modifies this`enrollments, this`computers
      ensures Good(View()) && (View(), r) == Approve(old(View()), id, newId)
      ensures r == Err(Unknown) <==> id !in old(enrollments)
      ensures (r == Err(AlreadyRegistered) <==>
                 && id in old(enrollments) && old(enrollments)[id].status == Pending
                 && exists c :: c in old(computers) && old(computers)[c].key == Some(old(enrollments)[id].key))
      ensures r.Ok? && old(enrollments)[id].status == Pending ==>
        && r.value == newId
        && computers == old(computers)[newId := Computer(old(enrollments)[id].name, Some(old(enrollments)[id].key))]
        && enrollments == old(enrollments)[id := old(enrollments)[id].(status := Approved, computer := Some(newId))]
      ensures r.Err? || old(enrollments)[id].status != Pending ==> computers == old(computers) && enrollments == old(enrollments)
      ensures (r == Err(NoLongerPending) <==>
                 && id in old(enrollments) && old(enrollments)[id].status != Pending
                 && !(old(enrollments)[id].status == Approved && old(enrollments)[id].computer.Some?))
      ensures r.Ok? ==> r.value in computers && id in enrollments && enrollments[id].computer == Some(r.value)
    {
      ApproveKeepsGood(View(), id, newId);
      if id !in enrollments {
        r := Err(Unknown);
      } else {
        var e := enrollments[id];
        if e.status != Pending {
          r := if e.status == Approved && e.computer.Some? && e.computer.value in computers
               then Ok(e.computer.value) else Err(NoLongerPending);
        } else if KeyTaken(computers, e.key) {
          r := Err(AlreadyRegistered);
        } else {
          computers := computers[newId := Computer(e.name, Some(e.key))];
          enrollments := enrollments[id := e.(status := Approved, computer := Some(newId))];
          r := Ok(newId);
        }
      }
    }

    method RenameComputer(c: ComputerId, name: Option<string>) returns (r: Result<(), StoreError>)
      requires Good(View())
      modifies this`computers
      ensures Good(View()) && (View(), r) == Rename(old(View()), c, name)
      ensures r == if name.None? then Err(InvalidName) else if c in old(computers) then Ok(()) else Err(Unknown)
      ensures computers == if r.Ok? then old(computers)[c := old(computers)[c].(name := name.value)] else old(computers)
      ensures computers.Keys == old(computers).Keys
      ensures forall d :: d in computers ==> computers[d].key == old(computers)[d].key
    {
      ComputerStepKeepsGood(View(), Renaming(c, name));
      if name.None? {
        r := Err(InvalidName);
      } else if c !in computers {
        r := Err(Unknown);
      } else {
        computers := computers[c := computers[c].(name := name.value)];
        r := Ok(());
      }
    }

    method RejectEnrollment(id: EnrollmentId) returns (r: Result<(), StoreError>)
      requires Good(View())
      modifies this`enrollments
      ensures Good(View()) && (View(), r) == Reject(old(View()), id)
      ensures r == if id in old(enrollments) && old(enrollments)[id].status == Pending then Ok(()) else Err(NoLongerPending)
      ensures enrollments == if r.Ok? then old(enrollments)[id := old(enrollments)[id].(status := Rejected)] else old(enrollments)
    {
      RejectKeepsGood(View(), id);
      if id in enrollments && enrollments[id].status == Pending {
        enrollments := enrollments[id := enrollments[id].(status := Rejected)];
        r := Ok(());
      } else {
        r := Err(NoLongerPending);
      }
    }
  }
}
