/**
 Sending a Workspace manifest as frames under a window of credits: the number
 of frames is declared before the frames are produced, the stream may be closed
 between any two awaits, and a frame is sent only against a claimed credit.
*/
module SourceFraming {
  import opened Wrappers

  type Bytes = seq<bv8>

  const CHUNK: nat := 65536

  const WINDOW: nat := 8

  // ----------------------------------------------------------------- frames

  /** The frames of one encoded manifest entry. */
  function Frames(line: Bytes): seq<Bytes> {
    if line == [] then []
    else if |line| <= CHUNK then [line]
    else [line[..CHUNK]] + Frames(line[CHUNK..])
  }

  function AllFrames(lines: seq<Bytes>): seq<Bytes> {
    if lines == [] then [] else AllFrames(lines[..|lines| - 1]) + Frames(lines[|lines| - 1])
  }

  function Join(parts: seq<Bytes>): Bytes {
    if parts == [] then [] else Join(parts[..|parts| - 1]) + parts[|parts| - 1]
  }

  lemma {:induction false} JoinConcat(a: seq<Bytes>, b: seq<Bytes>)
    ensures Join(a + b) == Join(a) + Join(b)
  {
    if b == [] {
      assert a + b == a;
    } else {
      assert (a + b)[..|a + b| - 1] == a + b[..|b| - 1];
      JoinConcat(a, b[..|b| - 1]);
    }
  }

  lemma JoinOne(part: Bytes)
    ensures Join([part]) == part
  {
    assert [part][..0] == [];
  }

  /** Frames are never empty, fit in a message, and carry the entry unchanged. */
  lemma {:induction false} FramesCarryTheLine(line: Bytes)
    ensures Join(Frames(line)) == line
    ensures forall f :: f in Frames(line) ==> 0 < |f| <= 65536
    ensures |Frames(line)| == (|line| + 65535) / 65536
  {
    if line == [] {
    } else if |line| <= CHUNK {
      JoinOne(line);
    } else {
      FramesCarryTheLine(line[CHUNK..]);
      JoinOne(line[..CHUNK]);
      JoinConcat([line[..CHUNK]], Frames(line[CHUNK..]));
      assert line == line[..CHUNK] + line[CHUNK..];
    }
  }

  /** The concatenated frames are the concatenated entries. */
  lemma {:induction false} AllFramesCarryTheLines(lines: seq<Bytes>)
    ensures Join(AllFrames(lines)) == Join(lines)
    ensures forall f :: f in AllFrames(lines) ==> 0 < |f| <= 65536
  {
    if lines != [] {
      var front, last := lines[..|lines| - 1], lines[|lines| - 1];
      AllFramesCarryTheLines(front);
      FramesCarryTheLine(last);
      JoinConcat(AllFrames(front), Frames(last));
    }
  }

  /** The frame count of `_remote_run_source_manifest_open`. */
  method CountFrames(lines: seq<Bytes>) returns (count: nat)
    ensures count == |AllFrames(lines)|
  {
    count := 0;
    for i := 0 to |lines|
      invariant count == |AllFrames(lines[..i])|
    {
      FramesCarryTheLine(lines[i]);
      assert lines[..i + 1][..i] == lines[..i];
      count := count + (|lines[i]| + CHUNK - 1) / CHUNK;
    }
    assert lines[..|lines|] == lines;
  }

  lemma FramesStep(line: Bytes, offset: nat)
    requires offset < |line|
    ensures var end := if offset + CHUNK < |line| then offset + CHUNK else |line|;
            Frames(line[offset..]) == [line[offset..end]] + Frames(line[end..])
  {
    if offset + CHUNK < |line| {
      assert line[offset..][..CHUNK] == line[offset..offset + CHUNK];
      assert line[offset..][CHUNK..] == line[offset + CHUNK..];
    } else {
      assert line[offset..|line|] == line[offset..];
      assert line[|line|..] == [];
    }
  }

  /** One entry's turn of the generator `chunks`. */
  method YieldLine(line: Bytes) returns (frames: seq<Bytes>)
    ensures frames == Frames(line)
  {
    frames := [];
    var offset := 0;
    assert line[0..] == line;
    while offset < |line|
      invariant offset <= |line| && frames + Frames(line[offset..]) == Frames(line)
    {
      FramesStep(line, offset);
      var end := if offset + CHUNK < |line| then offset + CHUNK else |line|;
      frames := frames + [line[offset..end]];
      offset := end;
    }
  }

  /** Everything the generator yields when it is run to its end. */
  method YieldAll(lines: seq<Bytes>) returns (frames: seq<Bytes>)
    ensures frames == AllFrames(lines)
  {
    frames := [];
    for i := 0 to |lines|
      invariant frames == AllFrames(lines[..i])
    {
      var more := YieldLine(lines[i]);
      assert lines[..i + 1][..i] == lines[..i];
      frames := frames + more;
    }
    assert lines[..|lines|] == lines;
  }

  // ---------------------------------------------------------------- credits

  /** The flow control, with the sum of the accepted grants and the number of successful claims. */
  datatype Flow = Flow(credits: nat, closed: bool, granted: nat, claims: nat)

  function FullFlow(): Flow {
    Flow(0, false, 0, 0)
  }

  datatype Verdict = Accepted | IgnoredClosed | Refused

  function Claim(f: Flow): Flow {
    if f.closed || f.credits == 0 then f else f.(credits := f.credits - 1, claims := f.claims + 1)
  }

  function Grant(f: Flow, isCredit: bool, count: int): (Flow, Verdict) {
    if !isCredit || !(1 <= count <= WINDOW) then (f, Refused)
    else if f.closed then (f, IgnoredClosed)
    else if f.credits != 0 then (f, Refused)
    else (f.(credits := count, granted := f.granted + count), Accepted)
  }

  function CloseFlow(f: Flow): Flow {
    f.(closed := true)
  }

  /** Claims and remaining credits are what was granted. */
  predicate Conserved(f: Flow) {
    f.claims + f.credits == f.granted && f.credits <= WINDOW
  }

  class FlowControl {
    var credits: nat
    var closed: bool
    ghost var granted: nat
    ghost var claims: nat

    ghost function View(): Flow
      reads this
    {
      Flow(credits, closed, granted, claims)
    }

    constructor ()
      ensures View() == FullFlow()
    {
      credits, closed, granted, claims := 0, false, 0, 0;
    }

    /** `claim` once its wait is over; None while it would go on waiting. */
    method ClaimCredit() returns (r: Option<bool>)
      requires Conserved(View())
      modifies this
      ensures Conserved(View()) && View() == Claim(old(View()))
      ensures r == Some(true) <==> claims == old(claims) + 1
      ensures r == Some(false) <==> old(closed)
      ensures r == None <==> !old(closed) && old(credits) == 0
      ensures credits == (if r == Some(true) then old(credits) - 1 else old(credits)) && closed == old(closed)
    {
      if closed {
        r := Some(false);
      } else if credits > 0 {
        credits := credits - 1;
        claims := claims + 1;
        r := Some(true);
      } else {
        r := None;
      }
    }

    /** `grant`; a refusal is raised as an error. */
    method GrantCredit(isCredit: bool, count: int) returns (verdict: Verdict)
      requires Conserved(View())
      modifies this
      ensures Conserved(View()) && (View(), verdict) == Grant(old(View()), isCredit, count)
      ensures verdict == Accepted <==> isCredit && 1 <= count <= 8 && !closed && old(credits) == 0
      ensures verdict == IgnoredClosed <==> isCredit && 1 <= count <= 8 && closed
      ensures credits == (if verdict == Accepted then count else old(credits)) && closed == old(closed)
    {
      if !isCredit || count < 1 || count > WINDOW {
        verdict := Refused;
      } else if closed {
        verdict := IgnoredClosed;
      } else if credits != 0 {
        verdict := Refused;
      } else {
        credits := count;
        granted := granted + count;
        verdict := Accepted;
      }
    }

    method Close()
      requires Conserved(View())
      modifies this`closed
      ensures Conserved(View()) && View() == CloseFlow(old(View()))
    {
      closed := true;
    }
  }

  // ------------------------------------------------------------------- runs

  datatype Outcome = Running | Abandoned | Completed | EndedEarly | Exceeded | SendFailed

  /**
   `WorkspaceManifestAgentStream` between two awaits. `lines` is the manifest
   field, which `close` empties; `left` is the generator once it has started,
   with the frames it still holds; `claiming` says that the loop has passed its
   look at `closed`; `sent` are the frames handed to the connection.
  */
  datatype Sender = Sender(
    lines: seq<Bytes>,
    count: nat,
    closed: bool,
    flow: Flow,
    left: Option<seq<Bytes>>,
    claiming: bool,
    sent: seq<Bytes>,
    outcome: Outcome)

  function Open(lines: seq<Bytes>): Sender {
    Sender(lines, |AllFrames(lines)|, false, FullFlow(), None, false, [], Running)
  }

  /** The frames the generator will yield; it reads the manifest only when it starts. */
  function Upcoming(s: Sender): seq<Bytes> {
    if s.left.Some? then s.left.value else AllFrames(s.lines)
  }

  /** The loop's look at `closed` before each claim. */
  function Look(s: Sender): Sender {
    if s.outcome != Running || s.claiming || |s.sent| == s.count then s
    else if s.closed then s.(outcome := Abandoned)
    else s.(claiming := true)
  }

  /** A claim that returns, and with a credit the next frame. */
  function TakeFrame(s: Sender): Sender {
    if s.outcome != Running || !s.claiming then s
    else if s.flow.closed then s.(outcome := Abandoned, claiming := false)
    else if s.flow.credits == 0 then s
    else
      var claimed := s.(flow := Claim(s.flow), claiming := false);
      if Upcoming(s) == [] then claimed.(left := Some([]), outcome := EndedEarly)
      else claimed.(left := Some(Upcoming(s)[1..]), sent := s.sent + [Upcoming(s)[0]])
  }

  /** After the last declared frame. */
  function FinishFrames(s: Sender): Sender {
    if s.outcome != Running || s.claiming || |s.sent| != s.count then s
    else if Upcoming(s) != [] then s.(outcome := Exceeded)
    else s.(left := Some([]), outcome := if s.closed then Abandoned else Completed)
  }

  function FailSend(s: Sender): Sender {
    if s.outcome != Running || s.claiming then s else s.(outcome := SendFailed)
  }

  datatype Step =
    | Looking | Taking | Finishing | Failing
    | Granting(isCredit: bool, count: int)
    | MarkingClosed | ClosingFlow | DroppingManifest

  function Apply(s: Sender, step: Step): Sender {
    match step
    case Looking => Look(s)
    case Taking => TakeFrame(s)
    case Finishing => FinishFrames(s)
    case Failing => FailSend(s)
    case Granting(isCredit, count) => s.(flow := Grant(s.flow, isCredit, count).0)
    case MarkingClosed => s.(closed := true)
    case ClosingFlow => if s.closed then s.(flow := CloseFlow(s.flow)) else s
    case DroppingManifest => if s.flow.closed then s.(lines := []) else s
  }

  function Play(lines: seq<Bytes>, steps: seq<Step>): Sender {
    if steps == [] then Open(lines) else Apply(Play(lines, steps[..|steps| - 1]), steps[|steps| - 1])
  }

  predicate Good(s: Sender, lines: seq<Bytes>) {
    && s.count == |AllFrames(lines)|
    && Conserved(s.flow) && s.flow.claims == |s.sent|
    && (s.flow.closed ==> s.closed)
    && (s.lines == lines || (s.flow.closed && s.lines == []))
    && (s.left.None? ==> s.sent == [])
    && (s.left.Some? ==> s.sent + s.left.value == AllFrames(lines))
    && (s.claiming ==> |s.sent| < s.count)
    && s.outcome != EndedEarly && s.outcome != Exceeded
    && (s.outcome == Completed ==> s.sent == AllFrames(lines))
  }

  lemma TakeKeepsGood(s: Sender, lines: seq<Bytes>)
    requires Good(s, lines)
    ensures Good(TakeFrame(s), lines)
  {
    if s.outcome == Running && s.claiming && !s.flow.closed && s.flow.credits > 0 {
      assert s.sent + Upcoming(s) == AllFrames(lines);
      assert s.sent + [Upcoming(s)[0]] + Upcoming(s)[1..] == s.sent + Upcoming(s);
    }
  }

  lemma FinishKeepsGood(s: Sender, lines: seq<Bytes>)
    requires Good(s, lines)
    ensures Good(FinishFrames(s), lines)
  {
    if s.outcome == Running && !s.claiming && |s.sent| == s.count {
      assert Upcoming(s) == [] by {
        if s.left.Some? {
          assert |s.sent + s.left.value| == s.count;
        }
      }
      assert s.sent == AllFrames(lines);
    }
  }

  /**
   Whatever the closing, granting and sending in between: both mismatch errors
   are unreachable, every claim sent one frame, claims plus credits are the
   grants, and what was sent is a prefix of the manifest's frames.
  */
  lemma {:induction false} EverySenderIsGood(lines: seq<Bytes>, steps: seq<Step>)
    ensures Good(Play(lines, steps), lines)
  {
    if steps != [] {
      var s, step := Play(lines, steps[..|steps| - 1]), steps[|steps| - 1];
      EverySenderIsGood(lines, steps[..|steps| - 1]);
      match step
      case Taking => TakeKeepsGood(s, lines);
      case Finishing => FinishKeepsGood(s, lines);
      case _ =>
    }
  }

  lemma SentIsAPrefix(lines: seq<Bytes>, steps: seq<Step>)
    ensures Play(lines, steps).sent <= AllFrames(lines)
    ensures forall f :: f in Play(lines, steps).sent ==> 0 < |f| <= 65536
    ensures |Play(lines, steps).sent| + Play(lines, steps).flow.credits == Play(lines, steps).flow.granted
  {
    var s := Play(lines, steps);
    EverySenderIsGood(lines, steps);
    AllFramesCarryTheLines(lines);
    if s.left.Some? {
      assert s.sent <= s.sent + s.left.value;
    }
  }

  /** A stream that ends normally has delivered the whole manifest. */
  lemma CompletedStreamsAreWhole(lines: seq<Bytes>, steps: seq<Step>)
    requires Play(lines, steps).outcome == Completed
    ensures Play(lines, steps).sent == AllFrames(lines) && Join(Play(lines, steps).sent) == Join(lines)
  {
    EverySenderIsGood(lines, steps);
    AllFramesCarryTheLines(lines);
  }

  /** No claim succeeds, and so no frame leaves, once the flow is closed. */
  lemma {:induction false} NothingIsClaimedAfterClose(lines: seq<Bytes>, steps: seq<Step>, more: seq<Step>)
    requires Play(lines, steps).flow.closed
    ensures Play(lines, steps + more).flow == Play(lines, steps).flow
    ensures Play(lines, steps + more).sent == Play(lines, steps).sent
  {
    var all := steps + more;
    if more == [] {
      assert all == steps;
    } else {
      assert all[..|all| - 1] == steps + more[..|more| - 1];
      NothingIsClaimedAfterClose(lines, steps, more[..|more| - 1]);
    }
  }

  /** A stream that has ended sends nothing more, and its end stands. */
  lemma {:induction false} EndedStreamsStayEnded(lines: seq<Bytes>, steps: seq<Step>, more: seq<Step>)
    requires Play(lines, steps).outcome != Running
    ensures Play(lines, steps + more).outcome == Play(lines, steps).outcome
    ensures Play(lines, steps + more).sent == Play(lines, steps).sent
  {
    var all := steps + more;
    if more == [] {
      assert all == steps;
    } else {
      assert all[..|all| - 1] == steps + more[..|more| - 1];
      EndedStreamsStayEnded(lines, steps, more[..|more| - 1]);
    }
  }

  /**
   A stream marked closed never completes any more, and sends one more frame at
   most: the one whose credit it was already waiting for.
  */
  lemma {:induction false} ClosedStreamsStop(lines: seq<Bytes>, steps: seq<Step>, more: seq<Step>)
    requires Play(lines, steps).closed && Play(lines, steps).outcome == Running
    ensures var s, t := Play(lines, steps), Play(lines, steps + more);
            && t.closed && t.outcome != Completed
            && (t.claiming ==> s.claiming && t.sent == s.sent)
            && |t.sent| <= |s.sent| + (if s.claiming then 1 else 0)
  {
    var all := steps + more;
    if more == [] {
      assert all == steps;
    } else {
      assert all[..|all| - 1] == steps + more[..|more| - 1];
      ClosedStreamsStop(lines, steps, more[..|more| - 1]);
    }
  }

  /** Once its flow is closed too, the loop ends at the next thing it does, wherever it is. */
  lemma ClosedStreamsAreAbandoned(lines: seq<Bytes>, steps: seq<Step>)
    requires Play(lines, steps).flow.closed && Play(lines, steps).outcome == Running
    ensures var s := Play(lines, steps);
            var next := if s.claiming then Taking else if |s.sent| < s.count then Looking else Finishing;
            Play(lines, steps + [next]).outcome == Abandoned
  {
    var s := Play(lines, steps);
    EverySenderIsGood(lines, steps);
    FinishKeepsGood(s, lines);
    PlayStep(lines, steps, if s.claiming then Taking else if |s.sent| < s.count then Looking else Finishing);
  }

  /** A failing send ends the stream, unless it had ended or is waiting for a credit and so sends nothing. */
  lemma FailingSendsEndTheStream(lines: seq<Bytes>, steps: seq<Step>, more: seq<Step>)
    ensures var s, t := Play(lines, steps), Play(lines, steps + [Failing]);
            && (s.outcome == Running && !s.claiming ==>
                  t.outcome == SendFailed && Play(lines, steps + [Failing] + more).sent == s.sent)
            && (s.outcome != Running || s.claiming ==> t == s)
  {
    PlayStep(lines, steps, Failing);
    if Play(lines, steps + [Failing]).outcome != Running {
      EndedStreamsStayEnded(lines, steps + [Failing], more);
    }
  }

  /** An uninterrupted sender with enough credit can always go on: the frames it declared are there. */
  lemma OpenSenderProgresses(lines: seq<Bytes>, steps: seq<Step>)
    requires var s := Play(lines, steps); s.outcome == Running && !s.closed && s.flow.credits > 0
    ensures var s := Play(lines, steps);
            if |s.sent| < s.count then |TakeFrame(Look(s)).sent| == |s.sent| + 1
            else FinishFrames(s).outcome == Completed
  {
    var s := Play(lines, steps);
    EverySenderIsGood(lines, steps);
    TakeKeepsGood(Look(s), lines);
    FinishKeepsGood(s, lines);
  }

  /** One frame's worth of an undisturbed transfer: a credit is granted, the sender looks, and takes it. */
  const ROUND: seq<Step> := [Granting(true, 1), Looking, Taking]

  function Rounds(n: nat): seq<Step> {
    if n == 0 then [] else Rounds(n - 1) + ROUND
  }

  /** The sender between two rounds. */
  predicate HasSent(s: Sender, lines: seq<Bytes>, n: nat)
    requires n <= |AllFrames(lines)|
  {
    && s.sent == AllFrames(lines)[..n] && Upcoming(s) == AllFrames(lines)[n..] && s.count == |AllFrames(lines)|
    && s.flow.credits == 0 && !s.flow.closed && !s.closed && !s.claiming && s.outcome == Running
  }

  lemma RoundSends(s: Sender, lines: seq<Bytes>, n: nat)
    requires n < |AllFrames(lines)| && HasSent(s, lines, n)
    ensures HasSent(Apply(Apply(Apply(s, Granting(true, 1)), Looking), Taking), lines, n + 1)
  {
    var granted := Apply(s, Granting(true, 1));
    assert Upcoming(granted) == Upcoming(s) && granted.flow.credits == 1;
    assert AllFrames(lines)[n..][0] == AllFrames(lines)[n];
    assert AllFrames(lines)[n..][1..] == AllFrames(lines)[n + 1..];
    assert AllFrames(lines)[..n] + [AllFrames(lines)[n]] == AllFrames(lines)[..n + 1];
  }

  lemma PlayStep(lines: seq<Bytes>, steps: seq<Step>, step: Step)
    ensures Play(lines, steps + [step]) == Apply(Play(lines, steps), step)
  {
    assert (steps + [step])[..|steps|] == steps;
  }

  lemma PlayRound(lines: seq<Bytes>, steps: seq<Step>)
    ensures Play(lines, steps + ROUND) == Apply(Apply(Apply(Play(lines, steps), Granting(true, 1)), Looking), Taking)
  {
    PlayStep(lines, steps, Granting(true, 1));
    PlayStep(lines, steps + [Granting(true, 1)], Looking);
    PlayStep(lines, steps + [Granting(true, 1)] + [Looking], Taking);
    assert steps + ROUND == steps + [Granting(true, 1)] + [Looking] + [Taking];
  }

  lemma {:induction false} RoundsSend(lines: seq<Bytes>, n: nat)
    requires n <= |AllFrames(lines)|
    ensures HasSent(Play(lines, Rounds(n)), lines, n)
  {
    if n > 0 {
      RoundsSend(lines, n - 1);
      PlayRound(lines, Rounds(n - 1));
      RoundSends(Play(lines, Rounds(n - 1)), lines, n - 1);
    }
  }

  /** A transfer that nobody disturbs completes: with one credit after another, every manifest is sent whole. */
  lemma UndisturbedTransferCompletes(lines: seq<Bytes>)
    ensures var s := Play(lines, Rounds(|AllFrames(lines)|) + [Finishing]);
            s.outcome == Completed && s.sent == AllFrames(lines) && Join(s.sent) == Join(lines)
  {
    var n := |AllFrames(lines)|;
    RoundsSend(lines, n);
    PlayStep(lines, Rounds(n), Finishing);
    assert AllFrames(lines)[..n] == AllFrames(lines);
    AllFramesCarryTheLines(lines);
  }
}
