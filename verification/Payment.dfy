/** The payment worker: for each OrderPlaced message it claims the message,
    publishes an outcome, and gives the claim back when publishing failed.

    Any number of handler runs interleave, redelivery included.  Redis commands
    take effect before their call returns or never; the topic accepts an event,
    or not, independently of what the publisher is told. */
module Payment {
  import opened Events
  import opened Counting
  import opened Dedup
  import opened Wrappers

  /** Where an accepted event came from.  `reported` is false when the publisher
      was told of a failure although the topic had accepted the event. */
  datatype Cause = FromRelay(rel: nat) | FromPayment(run: nat, reported: bool)

  /** An accepted event; its position in the topic is also the id of the message
      it becomes in each subscribed queue. */
  datatype Post = Post(event: Event, at: nat, cause: Cause)

  datatype Phase = Started | Claimed | Paid | Unpaid | Skipped | Failed | Crashed

  /** One run of the handler; `post` is the event it got accepted, if any. */
  datatype Run = Run(msg: nat, phase: Phase, post: Option<nat>)

  datatype State = State(topic: seq<Post>, claims: map<nat, Claim>, runs: map<nat, Run>,
                         deleted: set<nat>, now: nat, punctual: bool)

  const EMPTY := State([], map[], map[], {}, 0, true)

  datatype Step =
    | Arrive(event: Event, rel: nat)
    | Wait(ms: nat)
    | Receive(run: nat, msg: nat)
    | Check(run: nat)                        // SETNX, and its answer came back
    | CheckLost(run: nat)                    // SETNX took effect, its answer was lost
    | CheckFailed(run: nat)                  // SETNX never took effect
    | Pay(run: nat, kind: Kind, accepted: bool, reported: bool)
    | Unclaim(run: nat, done: bool)
    | Crash(run: nat)
    | Delete(run: nat)

  predicate ClaimLive(s: State, msg: nat) {
    Live(s.claims, msg, s.now)
  }

  predicate Retained(s: State, msg: nat) {
    msg < |s.topic| && s.now < s.topic[msg].at + RETENTION_MS
  }

  predicate InPhase(s: State, run: nat, phase: Phase) {
    run in s.runs && s.runs[run].phase == phase
  }

  predicate Active(r: Run) {
    r.phase == Started || r.phase == Claimed || r.phase == Unpaid
  }

  predicate Enabled(s: State, step: Step) {
    match step
    case Arrive(event, _) => event.kind == OrderPlaced
    case Wait(_) => true
    case Receive(run, msg) =>
      run !in s.runs && Retained(s, msg) && Subscribed(PaymentWorker, s.topic[msg].event.kind)
    case Check(run) => InPhase(s, run, Started)
    case CheckLost(run) => InPhase(s, run, Started)
    case CheckFailed(run) => InPhase(s, run, Started)
    case Pay(run, kind, accepted, reported) =>
      InPhase(s, run, Claimed) && IsOutcome(kind) && (reported ==> accepted)
    case Unclaim(run, _) => InPhase(s, run, Unpaid)
    case Crash(run) => run in s.runs && Active(s.runs[run])
    case Delete(run) => InPhase(s, run, Paid) || InPhase(s, run, Skipped)
  }

  function Moved(s: State, run: nat, phase: Phase): State
    requires run in s.runs
  {
    s.(runs := s.runs[run := s.runs[run].(phase := phase)])
  }

  /** The dedup check's effect, and whether it came in time. */
  function Claiming(s: State, run: nat): State
    requires run in s.runs
  {
    var msg := s.runs[run].msg;
    s.(claims := SetNx(s.claims, msg, run, s.now),
       punctual := s.punctual && Retained(s, msg))
  }

  function Outcome(s: State, run: nat, kind: Kind): Event
    requires run in s.runs
  {
    var msg := s.runs[run].msg;
    if msg < |s.topic| then Event(kind, s.topic[msg].event.user, s.topic[msg].event.order) else Event(kind, "", "")
  }

  function Apply(s: State, step: Step): State
    requires Enabled(s, step)
  {
    match step
    case Arrive(event, rel) => s.(topic := s.topic + [Post(event, s.now, FromRelay(rel))])
    case Wait(ms) => s.(now := s.now + ms)
    case Receive(run, msg) => s.(runs := s.runs[run := Run(msg, Started, None)])
    case Check(run) =>
      Moved(Claiming(s, run), run, if ClaimLive(s, s.runs[run].msg) then Skipped else Claimed)
    case CheckLost(run) => Moved(Claiming(s, run), run, Failed)
    case CheckFailed(run) => Moved(s, run, Failed)
    case Pay(run, kind, accepted, reported) =>
      var next := s.runs[run].(phase := if reported then Paid else Unpaid);
      if accepted then
        s.(topic := s.topic + [Post(Outcome(s, run, kind), s.now, FromPayment(run, reported))],
           runs := s.runs[run := next.(post := Some(|s.topic|))])
      else
        s.(runs := s.runs[run := next])
    case Unclaim(run, done) =>
      Moved(if done then s.(claims := s.claims - {s.runs[run].msg}) else s, run, Failed)
    case Crash(run) => Moved(s, run, Crashed)
    case Delete(run) => s.(deleted := s.deleted + {s.runs[run].msg})
  }

  predicate IsRun(s: State, steps: seq<Step>)
    decreases |steps|
  {
    steps == [] || (Enabled(s, steps[0]) && IsRun(Apply(s, steps[0]), steps[1..]))
  }

  function After(s: State, steps: seq<Step>): State
    requires IsRun(s, steps)
    decreases |steps|
  {
    if steps == [] then s else After(Apply(s, steps[0]), steps[1..])
  }

  // ----- the invariant -----

  ghost predicate RunAgrees(s: State, run: nat) {
    run in s.runs ==>
      var r := s.runs[run];
      && r.msg < |s.topic|
      && s.topic[r.msg].event.kind == OrderPlaced
      && (r.phase == Started || r.phase == Claimed || r.phase == Skipped ==> r.post == None)
      && (r.post.Some? ==> r.post.value < |s.topic| && s.topic[r.post.value].cause.FromPayment?
                           && s.topic[r.post.value].cause.run == run)
      && (r.phase == Paid ==> r.post.Some? && s.topic[r.post.value].cause.reported)
  }

  /** The run has the claim on its message, and nobody else does. */
  ghost predicate OwnsClaim(s: State, run: nat) {
    run in s.runs && s.runs[run].msg in s.claims && s.claims[s.runs[run].msg].owner == run
  }

  /** A run that claimed, and has not given the claim back, still owns it. */
  ghost predicate OwnershipAgrees(s: State, run: nat) {
    run in s.runs && (s.runs[run].phase == Claimed || s.runs[run].phase == Unpaid || s.runs[run].phase == Paid) ==>
      OwnsClaim(s, run)
  }

  /** A claim lives at least as long as its message is retained. */
  ghost predicate ClaimCovers(s: State, msg: nat) {
    msg in s.claims ==> msg < |s.topic| && s.topic[msg].at + RETENTION_MS <= s.claims[msg].expires
  }

  ghost predicate PostAgrees(s: State, i: nat) {
    i < |s.topic| ==>
      var p := s.topic[i];
      && p.at <= s.now
      && (p.cause.FromRelay? <==> p.event.kind == OrderPlaced)
      && (p.cause.FromPayment? ==>
            && IsOutcome(p.event.kind)
            && p.cause.run in s.runs
            && s.runs[p.cause.run].post == Some(i)
            && s.runs[p.cause.run].msg < i
            && p.event.order == s.topic[s.runs[p.cause.run].msg].event.order
            && p.event.user == s.topic[s.runs[p.cause.run].msg].event.user
            && (p.cause.reported ==> s.runs[p.cause.run].phase == Paid))
  }

  ghost predicate Inv(s: State) {
    && (forall run :: RunAgrees(s, run))
    && (forall i :: PostAgrees(s, i))
    && (forall msg :: s.punctual ==> ClaimCovers(s, msg))
    && (forall run :: s.punctual ==> OwnershipAgrees(s, run))
  }

  lemma StepKeepsRuns(s: State, step: Step)
    requires Inv(s) && Enabled(s, step)
    ensures forall run: nat :: RunAgrees(Apply(s, step), run)
  {
    forall run: nat ensures RunAgrees(Apply(s, step), run) {
      assert RunAgrees(s, run);
    }
  }

  lemma StepKeepsPosts(s: State, step: Step)
    requires Inv(s) && Enabled(s, step)
    ensures forall i: nat :: PostAgrees(Apply(s, step), i)
  {
    forall i: nat ensures PostAgrees(Apply(s, step), i) {
      assert PostAgrees(s, i);
      if step.Pay? {
        assert RunAgrees(s, step.run);
      }
      if i < |s.topic| && s.topic[i].cause.FromPayment? {
        assert RunAgrees(s, s.topic[i].cause.run);
      }
    }
  }

  lemma StepKeepsClaims(s: State, step: Step, msg: nat)
    requires Inv(s) && Enabled(s, step) && Apply(s, step).punctual
    ensures ClaimCovers(Apply(s, step), msg)
  {
    assert ClaimCovers(s, msg) && PostAgrees(s, msg);
    if step.Check? || step.CheckLost? {
      assert RunAgrees(s, step.run);
    }
  }

  lemma StepKeepsOwnership(s: State, step: Step, run: nat)
    requires Inv(s) && Enabled(s, step) && Apply(s, step).punctual
    ensures OwnershipAgrees(Apply(s, step), run)
  {
    assert OwnershipAgrees(s, run) && RunAgrees(s, run);
    if run in s.runs {
      assert ClaimCovers(s, s.runs[run].msg);
    }
    if step.Unclaim? {
      assert OwnershipAgrees(s, step.run);
    }
  }

  lemma {:induction false} InvHolds(s: State, steps: seq<Step>)
    requires Inv(s) && IsRun(s, steps)
    ensures Inv(After(s, steps))
    decreases |steps|
  {
    if steps != [] {
      StepKeepsInv(s, steps[0]);
      InvHolds(Apply(s, steps[0]), steps[1..]);
    }
  }

  lemma StepKeepsInv(s: State, step: Step)
    requires Inv(s) && Enabled(s, step)
    ensures Inv(Apply(s, step))
  {
    var after := Apply(s, step);
    StepKeepsRuns(s, step);
    StepKeepsPosts(s, step);
    forall msg | after.punctual ensures ClaimCovers(after, msg) { StepKeepsClaims(s, step, msg); }
    forall run | after.punctual ensures OwnershipAgrees(after, run) { StepKeepsOwnership(s, step, run); }
  }

  // ----- how many outcomes an order gets -----

  ghost function PlacedFor(s: State, order: string): set<nat> {
    set i: nat | i < |s.topic| && s.topic[i].event.order == order && s.topic[i].event.kind == OrderPlaced
  }

  ghost function OutcomesFor(s: State, order: string): set<nat> {
    set i: nat | i < |s.topic| && s.topic[i].event.order == order && IsOutcome(s.topic[i].event.kind)
  }

  predicate Reported(p: Post) {
    p.cause.FromPayment? && p.cause.reported
  }

  /** Outcomes accepted by the topic but reported to the worker as errors. */
  ghost function AmbiguousFor(s: State, order: string): set<nat> {
    set i: nat | i in OutcomesFor(s, order) && !Reported(s.topic[i])
  }

  ghost function CertainFor(s: State, order: string): set<nat> {
    set i: nat | i in OutcomesFor(s, order) && Reported(s.topic[i])
  }

  /** For each outcome, the message it answers. */
  ghost function Answered(s: State, order: string): map<nat, nat>
    requires Inv(s)
  {
    map i: nat | i in OutcomesFor(s, order) :: Answers(s, i)
  }

  ghost function Answers(s: State, i: nat): nat {
    if i < |s.topic| && s.topic[i].cause.FromPayment? && s.topic[i].cause.run in s.runs
    then s.runs[s.topic[i].cause.run].msg else 0
  }

  lemma CertainAnswersDiffer(s: State, order: string, i: nat, j: nat)
    requires Inv(s) && s.punctual && i in CertainFor(s, order) && j in CertainFor(s, order) && i != j
    ensures Answers(s, i) != Answers(s, j)
  {
    assert PostAgrees(s, i) && PostAgrees(s, j);
    assert OwnershipAgrees(s, s.topic[i].cause.run) && OwnershipAgrees(s, s.topic[j].cause.run);
  }

  lemma AnswerIsPlaced(s: State, order: string, i: nat)
    requires Inv(s) && i in OutcomesFor(s, order)
    ensures Answers(s, i) in PlacedFor(s, order)
  {
    assert PostAgrees(s, i);
    assert RunAgrees(s, s.topic[i].cause.run);
  }

  /** At most one outcome for each accepted OrderPlaced event, and one more for each
      outcome that was accepted but reported as an error. */
  ghost predicate FewOutcomes(s: State, order: string) {
    |OutcomesFor(s, order)| <= |PlacedFor(s, order)| + |AmbiguousFor(s, order)|
  }

  lemma OutcomesBoundedIn(s: State, order: string)
    requires Inv(s) && s.punctual
    ensures FewOutcomes(s, order)
  {
    var certain := CertainFor(s, order);
    forall i | i in certain ensures Answers(s, i) in PlacedFor(s, order) {
      AnswerIsPlaced(s, order, i);
    }
    forall i, j | i in certain && j in certain && i != j ensures Answers(s, i) != Answers(s, j) {
      CertainAnswersDiffer(s, order, i, j);
    }
    InjectionIsSmaller(certain, PlacedFor(s, order), Answered(s, order));
    assert OutcomesFor(s, order) == certain + AmbiguousFor(s, order);
  }

  /** In every run whose dedup checks are made while the message is retained,
      an order has at most one outcome for each accepted OrderPlaced event, plus
      one for each outcome that was accepted but reported as an error. */
  lemma OutcomesBounded(steps: seq<Step>, order: string)
    requires IsRun(EMPTY, steps) && After(EMPTY, steps).punctual
    ensures FewOutcomes(After(EMPTY, steps), order)
  {
    InvHolds(EMPTY, steps);
    OutcomesBoundedIn(After(EMPTY, steps), order);
  }

  lemma NeverBothIn(s: State, order: string, i: nat, j: nat)
    requires Inv(s) && s.punctual && |PlacedFor(s, order)| <= 1 && AmbiguousFor(s, order) == {}
    requires i in OutcomesFor(s, order) && j in OutcomesFor(s, order)
    ensures i == j
  {
    if i != j {
      assert |{i, j}| == 2;
      SubsetIsSmaller({i, j}, OutcomesFor(s, order));
      OutcomesBoundedIn(s, order);
    }
  }

  lemma {:induction false} RunSnoc(s: State, steps: seq<Step>, step: Step)
    requires IsRun(s, steps) && Enabled(After(s, steps), step)
    ensures IsRun(s, steps + [step])
    ensures After(s, steps + [step]) == Apply(After(s, steps), step)
    decreases |steps|
  {
    if steps != [] {
      RunSnoc(Apply(s, steps[0]), steps[1..], step);
      assert (steps + [step])[1..] == steps[1..] + [step];
    }
  }

  // ----- no payment is lost -----

  /** No other run of the handler is under way for the message. */
  predicate Quiet(s: State, msg: nat) {
    forall run :: run in s.runs && s.runs[run].msg == msg ==> !Active(s.runs[run])
  }

  /** What can go wrong for a handler between its claim and its answer: a crash,
      a lost answer from Redis to the claim, a claim that could not be given
      back, and a redelivery while it still runs. */
  datatype Mishap = HandlerCrash | ClaimAnswerLost | UnclaimFails | Overlap

  predicate Calm(s: State, step: Step, allowed: set<Mishap>) {
    match step
    case Crash(_) => HandlerCrash in allowed
    case CheckLost(_) => ClaimAnswerLost in allowed
    case Unclaim(_, done) => done || UnclaimFails in allowed
    case Receive(_, msg) => Quiet(s, msg) || Overlap in allowed
    case _ => true
  }

  predicate CalmRun(s: State, steps: seq<Step>, allowed: set<Mishap>)
    requires IsRun(s, steps)
    decreases |steps|
  {
    steps == [] || (Calm(s, steps[0], allowed) && CalmRun(Apply(s, steps[0]), steps[1..], allowed))
  }

  /** An outcome for the message was published and acknowledged. */
  ghost predicate Settled(s: State, msg: nat) {
    exists run :: run in s.runs && s.runs[run].msg == msg && s.runs[run].phase == Paid
  }

  /** At most one run at a time works on a message. */
  ghost predicate OneActive(s: State, run: nat, other: nat) {
    run in s.runs && other in s.runs && run != other && Active(s.runs[run]) && Active(s.runs[other]) ==>
      s.runs[run].msg != s.runs[other].msg
  }

  /** A claim that no running handler owns stands for an acknowledged outcome. */
  ghost predicate ClaimExplained(s: State, msg: nat) {
    msg in s.claims ==>
      && s.claims[msg].owner in s.runs && s.runs[s.claims[msg].owner].msg == msg
      && (s.runs[s.claims[msg].owner].phase == Claimed || s.runs[s.claims[msg].owner].phase == Unpaid
          || Settled(s, msg))
  }

  ghost predicate SkipExplained(s: State, run: nat) {
    InPhase(s, run, Skipped) ==> Settled(s, s.runs[run].msg)
  }

  ghost predicate DeleteExplained(s: State, msg: nat) {
    msg in s.deleted ==> Settled(s, msg)
  }

  ghost predicate CalmInv(s: State) {
    && (forall run, other :: OneActive(s, run, other))
    && (forall msg :: ClaimExplained(s, msg))
    && (forall run :: SkipExplained(s, run))
    && (forall msg :: DeleteExplained(s, msg))
  }

  lemma SettledStays(s: State, step: Step, msg: nat)
    requires Enabled(s, step) && Settled(s, msg)
    ensures Settled(Apply(s, step), msg)
  {
    var run :| run in s.runs && s.runs[run].msg == msg && s.runs[run].phase == Paid;
    var after := Apply(s, step);
    assert run in after.runs && after.runs[run].msg == msg && after.runs[run].phase == Paid;
  }

  lemma CalmKeepsOneActive(s: State, step: Step, run: nat, other: nat)
    requires CalmInv(s) && Enabled(s, step) && Calm(s, step, {})
    ensures OneActive(Apply(s, step), run, other)
  {
    assert OneActive(s, run, other);
  }

  lemma CalmKeepsClaims(s: State, step: Step)
    requires CalmInv(s) && Enabled(s, step) && Calm(s, step, {})
    ensures forall msg: nat :: ClaimExplained(Apply(s, step), msg)
  {
    forall msg: nat ensures ClaimExplained(Apply(s, step), msg) {
      assert ClaimExplained(s, msg);
      if Settled(s, msg) {
        SettledStays(s, step, msg);
      }
      if step.Unclaim? {
        assert msg in s.claims && s.claims[msg].owner in s.runs ==> OneActive(s, step.run, s.claims[msg].owner);
      }
      if step.Pay? && step.reported && s.runs[step.run].msg == msg {
        assert InPhase(Apply(s, step), step.run, Paid);
        assert Settled(Apply(s, step), msg);
      }
    }
  }

  /** A run about to check its message finds no other run at work on it. */
  lemma OnlyActive(s: State, run: nat, msg: nat)
    requires CalmInv(s) && InPhase(s, run, Started) && s.runs[run].msg == msg && msg in s.claims
    ensures Settled(s, msg)
  {
    assert ClaimExplained(s, msg);
    var owner := s.claims[msg].owner;
    assert OneActive(s, run, owner);
  }

  lemma CalmKeepsSkips(s: State, step: Step, run: nat)
    requires CalmInv(s) && Enabled(s, step) && Calm(s, step, {})
    ensures SkipExplained(Apply(s, step), run)
  {
    assert SkipExplained(s, run);
    if run in s.runs {
      var msg := s.runs[run].msg;
      if Settled(s, msg) {
        SettledStays(s, step, msg);
      } else if step == Check(run) && ClaimLive(s, msg) {
        assert ClaimExplained(s, msg);
        OnlyActive(s, run, msg);
      }
    }
  }

  lemma CalmKeepsDeletes(s: State, step: Step, msg: nat)
    requires CalmInv(s) && Enabled(s, step) && Calm(s, step, {})
    ensures DeleteExplained(Apply(s, step), msg)
  {
    assert DeleteExplained(s, msg);
    if step.Delete? {
      assert SkipExplained(s, step.run);
    }
    if Settled(s, msg) {
      SettledStays(s, step, msg);
    }
  }

  lemma {:induction false} CalmInvHolds(s: State, steps: seq<Step>)
    requires CalmInv(s) && IsRun(s, steps) && CalmRun(s, steps, {})
    ensures CalmInv(After(s, steps))
    decreases |steps|
  {
    if steps != [] {
      var after := Apply(s, steps[0]);
      forall run, other ensures OneActive(after, run, other) { CalmKeepsOneActive(s, steps[0], run, other); }
      CalmKeepsClaims(s, steps[0]);
      forall run ensures SkipExplained(after, run) { CalmKeepsSkips(s, steps[0], run); }
      forall msg ensures DeleteExplained(after, msg) { CalmKeepsDeletes(s, steps[0], msg); }
      CalmInvHolds(after, steps[1..]);
    }
  }

  /** Event i is an acknowledged outcome for the message. */
  ghost predicate Answer(s: State, i: nat, msg: nat) {
    && i < |s.topic| && IsOutcome(s.topic[i].event.kind) && Reported(s.topic[i]) && Answers(s, i) == msg
    && msg < |s.topic| && s.topic[i].event.order == s.topic[msg].event.order
  }

  /** In a calm run, every message removed from the queue has an outcome for its
      order that the topic acknowledged. */
  lemma NoPaymentLost(steps: seq<Step>, msg: nat)
    requires IsRun(EMPTY, steps) && CalmRun(EMPTY, steps, {})
    requires msg in After(EMPTY, steps).deleted
    ensures exists i: nat :: Answer(After(EMPTY, steps), i, msg)
  {
    CalmInvHolds(EMPTY, steps);
    InvHolds(EMPTY, steps);
    var s := After(EMPTY, steps);
    assert DeleteExplained(s, msg);
    var run :| run in s.runs && s.runs[run].msg == msg && s.runs[run].phase == Paid;
    assert RunAgrees(s, run) && PostAgrees(s, s.runs[run].post.value);
    assert Answer(s, s.runs[run].post.value, msg);
  }

  lemma {:induction false} CalmSnoc(s: State, steps: seq<Step>, step: Step, allowed: set<Mishap>)
    requires IsRun(s, steps) && Enabled(After(s, steps), step) && IsRun(s, steps + [step])
    requires CalmRun(s, steps, allowed) && Calm(After(s, steps), step, allowed)
    ensures CalmRun(s, steps + [step], allowed)
    decreases |steps|
  {
    if steps != [] {
      assert (steps + [step])[1..] == steps[1..] + [step];
      CalmSnoc(Apply(s, steps[0]), steps[1..], step, allowed);
    }
  }

  // ----- what loses a payment -----

  /** One OrderPlaced event was accepted, and nothing else has happened. */
  const PLACED := State([Post(Event(OrderPlaced, "u", "o"), 0, FromRelay(0))], map[], map[], {}, 0, true)

  predicate NoArrivals(steps: seq<Step>) {
    forall k :: 0 <= k < |steps| ==> !steps[k].Arrive?
  }

  /** The state that steps of the worker alone lead to from there, if they make a
      run with no more than the allowed mishaps. */
  ghost function Final(steps: seq<Step>, allowed: set<Mishap>): Option<State> {
    if IsRun(PLACED, steps) && CalmRun(PLACED, steps, allowed) && NoArrivals(steps) then Some(After(PLACED, steps))
    else None
  }

  lemma Extend(steps: seq<Step>, step: Step, allowed: set<Mishap>) returns (longer: seq<Step>)
    requires Final(steps, allowed).Some? && !step.Arrive?
    requires Enabled(Final(steps, allowed).value, step) && Calm(Final(steps, allowed).value, step, allowed)
    ensures Final(longer, allowed) == Some(Apply(Final(steps, allowed).value, step))
  {
    longer := steps + [step];
    RunSnoc(PLACED, steps, step);
    CalmSnoc(PLACED, steps, step, allowed);
  }

  /** Where steps from the empty system lead, if they make such a run. */
  ghost function Reached(steps: seq<Step>, allowed: set<Mishap>): Option<State> {
    if IsRun(EMPTY, steps) && CalmRun(EMPTY, steps, allowed) then Some(After(EMPTY, steps)) else None
  }

  /** The same run from the empty system. */
  lemma FromTheStart(rest: seq<Step>, allowed: set<Mishap>) returns (steps: seq<Step>)
    requires Final(rest, allowed).Some?
    ensures Reached(steps, allowed) == Final(rest, allowed)
  {
    steps := [Arrive(Event(OrderPlaced, "u", "o"), 0)] + rest;
    assert steps[1..] == rest && [] + PLACED.topic == PLACED.topic;
    assert Apply(EMPTY, steps[0]) == PLACED;
  }

  /** Run 0 has the message and is in a phase; the key is claimed or not. */
  function OneRun(phase: Phase, claimed: bool): State {
    PLACED.(claims := if claimed then map[0 := Claim(0, CLAIM_MS)] else map[], runs := map[0 := Run(0, phase, None)])
  }

  lemma OneReceived(allowed: set<Mishap>) returns (steps: seq<Step>)
    ensures Final(steps, allowed) == Some(OneRun(Started, false))
  {
    steps := Extend([], Receive(0, 0), allowed);
    assert Final(steps, allowed).value == OneRun(Started, false);
  }

  lemma OneClaimed(allowed: set<Mishap>) returns (steps: seq<Step>)
    ensures Final(steps, allowed) == Some(OneRun(Claimed, true))
  {
    steps := OneReceived(allowed);
    steps := Extend(steps, Check(0), allowed);
    assert Final(steps, allowed).value == OneRun(Claimed, true);
  }

  /** How the first run is left by a mishap. */
  function StuckPhase(mishap: Mishap): Phase {
    if mishap == Overlap then Claimed else if mishap == HandlerCrash then Crashed else Failed
  }

  /** Each mishap leaves the key claimed with nobody to act on it; an overlap
      leaves it so for the moment. */
  lemma KeyIsStuck(mishap: Mishap) returns (steps: seq<Step>)
    ensures Final(steps, {mishap}) == Some(OneRun(StuckPhase(mishap), true))
  {
    match mishap {
      case HandlerCrash =>
        steps := OneClaimed({mishap});
        steps := Extend(steps, Crash(0), {mishap});
      case ClaimAnswerLost =>
        steps := OneReceived({mishap});
        steps := Extend(steps, CheckLost(0), {mishap});
      case UnclaimFails =>
        steps := OneClaimed({mishap});
        steps := Extend(steps, Pay(0, OrderConfirmed, false, false), {mishap});
        steps := Extend(steps, Unclaim(0, false), {mishap});
      case Overlap =>
        steps := OneClaimed({mishap});
    }
    assert Final(steps, {mishap}).value == OneRun(StuckPhase(mishap), true);
  }

  /** A later delivery to run 1 then finds the claim, and the message is removed. */
  lemma SecondDeliverySkips(before: seq<Step>, phase: Phase, allowed: set<Mishap>) returns (steps: seq<Step>)
    requires Final(before, allowed) == Some(OneRun(phase, true))
    requires !Active(Run(0, phase, None)) || Overlap in allowed
    ensures Final(steps, allowed) ==
      Some(OneRun(phase, true).(runs := OneRun(phase, true).runs[1 := Run(0, Skipped, None)], deleted := {0}))
  {
    steps := Extend(before, Receive(1, 0), allowed);
    steps := Extend(steps, Check(1), allowed);
    steps := Extend(steps, Delete(1), allowed);
    assert Final(steps, allowed).value ==
      OneRun(phase, true).(runs := OneRun(phase, true).runs[1 := Run(0, Skipped, None)], deleted := {0});
  }

  /** The message is gone, no outcome was ever accepted, and no run is under way. */
  ghost predicate PaymentLost(s: State) {
    && 0 in s.deleted && PlacedFor(s, "o") == {0} && OutcomesFor(s, "o") == {}
    && forall run :: run in s.runs ==> !Active(s.runs[run])
  }

  /** A crash, a lost answer to the claim, a failed unclaim, and a redelivery while
      the first handler runs: each alone loses a payment. */
  lemma LosesAPayment(mishap: Mishap) returns (steps: seq<Step>)
    ensures exists s :: Reached(steps, {mishap}) == Some(s) && PaymentLost(s)
  {
    var rest := KeyIsStuck(mishap);
    rest := SecondDeliverySkips(rest, StuckPhase(mishap), {mishap});
    if mishap == Overlap {
      rest := Extend(rest, Pay(0, OrderConfirmed, false, false), {mishap});
      rest := Extend(rest, Unclaim(0, true), {mishap});
    }
    steps := FromTheStart(rest, {mishap});
  }

  /** Which mishaps a payment survives: exactly none.  Runs that allow a set of
      mishaps keep every payment if and only if the set is empty. */
  lemma PaymentsSafeOnlyWhenCalm(allowed: set<Mishap>)
    ensures allowed == {} <==>
      forall steps, msg ::
        IsRun(EMPTY, steps) && CalmRun(EMPTY, steps, allowed) && msg in After(EMPTY, steps).deleted ==>
          exists i: nat :: Answer(After(EMPTY, steps), i, msg)
  {
    if allowed == {} {
      forall steps, msg | IsRun(EMPTY, steps) && CalmRun(EMPTY, steps, allowed) && msg in After(EMPTY, steps).deleted
        ensures exists i: nat :: Answer(After(EMPTY, steps), i, msg)
      {
        NoPaymentLost(steps, msg);
      }
    } else {
      var mishap :| mishap in allowed;
      var steps := LosesAPayment(mishap);
      AllowMore(EMPTY, steps, {mishap}, allowed);
      NoAnswer(After(EMPTY, steps));
      assert 0 in After(EMPTY, steps).deleted;
      assert !exists i: nat :: Answer(After(EMPTY, steps), i, 0);
    }
  }

  lemma NoAnswer(s: State)
    requires PaymentLost(s)
    ensures forall i: nat :: !Answer(s, i, 0)
  {
    forall i: nat ensures !Answer(s, i, 0) {
      assert i in PlacedFor(s, "o") ==> i == 0;
      assert i !in OutcomesFor(s, "o");
    }
  }

  lemma {:induction false} AllowMore(s: State, steps: seq<Step>, some: set<Mishap>, more: set<Mishap>)
    requires IsRun(s, steps) && CalmRun(s, steps, some) && some <= more
    ensures CalmRun(s, steps, more)
    decreases |steps|
  {
    if steps != [] {
      AllowMore(Apply(s, steps[0]), steps[1..], some, more);
    }
  }

  // ----- checks that come too late -----

  /** Run 0 pays at once, and its message is not deleted. */
  const PAID_ONCE := PLACED.(topic := PLACED.topic + [Post(Event(OrderConfirmed, "u", "o"), 0, FromPayment(0, true))],
                             claims := map[0 := Claim(0, CLAIM_MS)], runs := map[0 := Run(0, Paid, Some(1))])

  const PAID_TWICE := PAID_ONCE.topic + [Post(Event(PaymentFailed, "u", "o"), RETENTION_MS, FromPayment(1, true))]

  lemma PaidOnce() returns (steps: seq<Step>)
    ensures Final(steps, {}) == Some(PAID_ONCE)
  {
    steps := OneClaimed({});
    steps := Extend(steps, Pay(0, OrderConfirmed, true, true), {});
    assert Final(steps, {}).value == PAID_ONCE;
  }

  /** The run's steps lead to that topic. */
  ghost predicate LeadsTo(steps: seq<Step>, topic: seq<Post>) {
    exists s :: Final(steps, {}) == Some(s) && s.topic == topic
  }

  /** Run 1 receives it in the last millisecond of its retention, and checks in
      the next one, when the claim has just expired. */
  lemma LateChecks() returns (steps: seq<Step>)
    ensures LeadsTo(steps, PAID_TWICE)
  {
    steps := PaidOnce();
    steps := Extend(steps, Wait(RETENTION_MS - 1), {});
    steps := Extend(steps, Receive(1, 0), {});
    steps := Extend(steps, Wait(1), {});
    assert Final(steps, {}).value.runs[1] == Run(0, Started, None);
    steps := Extend(steps, Check(1), {});
    assert Final(steps, {}).value.runs[1] == Run(0, Claimed, None);
    steps := Extend(steps, Pay(1, PaymentFailed, true, true), {});
  }

  /** Order "o" was placed once, and confirmed and failed, without an ambiguous answer. */
  ghost predicate TwoOutcomes(s: State) {
    && PlacedFor(s, "o") == {0} && AmbiguousFor(s, "o") == {} && OutcomesFor(s, "o") == {1, 2}
    && s.topic[1].event.kind == OrderConfirmed && s.topic[2].event.kind == PaymentFailed
  }

  lemma PaidTwice(s: State)
    requires s.topic == PAID_TWICE
    ensures TwoOutcomes(s)
  {
  }

  /** A dedup check made one millisecond after the message's retention gives one
      order a confirmation and a failure, though no operation fails and no two
      handlers overlap. */
  lemma LateCheckPaysTwice() returns (steps: seq<Step>)
    ensures exists s :: Reached(steps, {}) == Some(s) && TwoOutcomes(s)
  {
    var rest := LateChecks();
    steps := FromTheStart(rest, {});
    PaidTwice(After(EMPTY, steps));
  }

  /** Exactly when the outcomes of every order are bounded in all runs: when the
      dedup checks that are allowed are those made while the message is retained. */
  lemma OutcomesBoundedExactly(late: bool)
    ensures !late <==>
      forall steps, order :: IsRun(EMPTY, steps) && (late || After(EMPTY, steps).punctual) ==>
        FewOutcomes(After(EMPTY, steps), order)
  {
    if late {
      var steps := LateCheckPaysTwice();
      assert |OutcomesFor(After(EMPTY, steps), "o")| == 2;
      assert !FewOutcomes(After(EMPTY, steps), "o");
    } else {
      forall steps, order | IsRun(EMPTY, steps) && After(EMPTY, steps).punctual
        ensures FewOutcomes(After(EMPTY, steps), order)
      {
        OutcomesBounded(steps, order);
      }
    }
  }
}
