/** The cascade in time: how often fraud-detector's claim on a message can be won
    follows from how long a claim and a message last, and from how long after the
    message's retention a handler may still check. */
module CascadeTime {
  import opened Events
  import opened Wrappers
  import C = Cascade

  /** For each message when it was sent, and until when its claim key lives. */
  datatype State = State(base: C.State, sent: seq<nat>, until: seq<nat>, now: nat)

  const EMPTY := State(C.EMPTY, [], [], 0)

  datatype Step = Wait(ms: nat) | Do(step: C.Step)

  predicate Shaped(s: State) {
    |s.sent| == |s.base.msgs| == |s.until|
  }

  /** A handler runs at most `late` after its message's retention.  SETNX takes the
      key only when it is not live; deliveries are the only other limit. */
  predicate Enabled(s: State, step: Step, late: nat) {
    && Shaped(s)
    && match step
       case Wait(_) => true
       case Do(Place) => true
       case Do(Run(i, claims, _)) =>
         && C.Enabled(s.base, step.step, MAX_RECEIVES)
         && s.now < s.sent[i] + RETENTION_MS + late
         && (claims ==> s.until[i] <= s.now)
  }

  function Extended(times: seq<nat>, n: nat, time: nat): seq<nat> {
    times + seq(if n < |times| then 0 else n - |times|, _ => time)
  }

  /** New messages are sent now, and unclaimed; a claim lives for its time. */
  function Apply(s: State, step: Step): State
    requires Shaped(s) && (step.Do? && step.step.Run? ==> step.step.i < |s.base.msgs|)
  {
    match step
    case Wait(ms) => s.(now := s.now + ms)
    case Do(st) =>
      var base := C.Apply(s.base, st);
      var until := if st.Run? && st.claims then s.until[st.i := s.now + CLAIM_MS] else s.until;
      State(base, Extended(s.sent, |base.msgs|, s.now), Extended(until, |base.msgs|, 0), s.now)
  }

  predicate IsRun(s: State, steps: seq<Step>, late: nat)
    decreases |steps|
  {
    steps == [] || (Enabled(s, steps[0], late) && IsRun(Apply(s, steps[0]), steps[1..], late))
  }

  function After(s: State, steps: seq<Step>, late: nat): State
    requires IsRun(s, steps, late)
    decreases |steps|
  {
    if steps == [] then s else After(Apply(s, steps[0]), steps[1..], late)
  }

  /** Where the steps lead, if they are a run. */
  function Final(s: State, steps: seq<Step>, late: nat): Option<State> {
    if IsRun(s, steps, late) then Some(After(s, steps, late)) else None
  }

  // ----- how often a claim can be won -----

  /** Once while the message is retained, and once more for each further retention,
      begun or full, in which it may be checked; never more often than delivered. */
  function Limit(late: nat): nat {
    C.Min(MAX_RECEIVES, 1 + (late + RETENTION_MS - 1) / RETENTION_MS)
  }

  /** In retention once; twice if a check may be late at all, by a day at most. */
  lemma LimitInNumbers(late: nat)
    ensures Limit(late) == 1 <==> late == 0
    ensures Limit(late) == 2 <==> 0 < late <= RETENTION_MS
    ensures 1 <= Limit(late) <= MAX_RECEIVES
    ensures (Limit(late) - 1) * RETENTION_MS < RETENTION_MS + late
  {
  }

  /** Each win lies a claim's lifetime after the one before. */
  ghost predicate WinsApart(s: State, i: nat) {
    i < |s.base.msgs| && i < |s.sent| && i < |s.until| ==>
      && s.sent[i] <= s.now
      && s.base.msgs[i].won <= s.base.msgs[i].receives
      && (s.base.msgs[i].won > 0 ==> s.sent[i] + s.base.msgs[i].won * RETENTION_MS <= s.until[i])
  }

  ghost predicate Inv(s: State) {
    Shaped(s) && forall i :: WinsApart(s, i)
  }

  /** So that a step keeps to the limit. */
  lemma StepIsLimited(s: State, step: Step, late: nat)
    requires Inv(s) && Enabled(s, step, late) && step.Do?
    ensures C.Enabled(s.base, step.step, Limit(late))
  {
    if step.step.Run? {
      assert WinsApart(s, step.step.i);
      FewWins(s.base.msgs[step.step.i].won, late);
    }
  }

  lemma FewWins(won: nat, late: nat)
    requires won < MAX_RECEIVES
    ensures won == 0 || won * RETENTION_MS < RETENTION_MS + late ==> won < Limit(late)
  {
  }

  lemma StepKeepsInv(s: State, step: Step, late: nat)
    requires Inv(s) && Enabled(s, step, late)
    ensures Inv(Apply(s, step))
  {
    forall i ensures WinsApart(Apply(s, step), i) {
      assert WinsApart(s, i);
    }
  }

  lemma StepKeepsPaid(s: State, step: Step, late: nat)
    requires Inv(s) && Enabled(s, step, late) && C.Paid(s.base, C.Price(Limit(late)), Limit(late))
    ensures C.Paid(Apply(s, step).base, C.Price(Limit(late)), Limit(late))
  {
    if step.Do? {
      StepIsLimited(s, step, late);
      C.CostOfPlaced(Limit(late));
      if step.step.Place? {
        C.PlaceKeepsPaid(s.base, C.Price(Limit(late)), Limit(late));
      } else {
        C.RunKeepsPaid(s.base, step.step, C.Price(Limit(late)), Limit(late));
      }
    }
  }

  lemma {:induction false} PaidHolds(s: State, steps: seq<Step>, late: nat)
    requires Inv(s) && IsRun(s, steps, late) && C.Paid(s.base, C.Price(Limit(late)), Limit(late))
    ensures C.Paid(After(s, steps, late).base, C.Price(Limit(late)), Limit(late))
    decreases |steps|
  {
    if steps != [] {
      StepKeepsPaid(s, steps[0], late);
      StepKeepsInv(s, steps[0], late);
      PaidHolds(Apply(s, steps[0]), steps[1..], late);
    }
  }

  // ----- the bound is met in time -----

  /** Phase j, at the end of j - 1 claim lifetimes: the claimable messages have been
      won j - 1 times, and each is free to be won once more.  Until the last phase
      they are delivered for that alone; the payments are all made in the first. */
  ghost predicate InPhase(s: State, i: nat, j: nat, n: nat) {
    i < |s.base.msgs| && i < |s.until| ==>
      var m := s.base.msgs[i];
      && (C.Claimable(m) ==>
            && j - 1 <= m.won <= j
            && s.until[i] <= s.now + (if m.won < j then 0 else RETENTION_MS)
            && (j < n ==> m.won == m.receives))
      && (j > 1 && m.queue == PaymentWorker && m.kind == OrderPlaced ==> C.Left(m) == 0)
  }

  ghost predicate Phase(s: State, j: nat, n: nat) {
    && Shaped(s) && 1 <= j <= n
    && s.now == (j - 1) * RETENTION_MS
    && forall i :: InPhase(s, i, j, n)
  }

  /** Delivered in phase j: what has a cost, but claimable messages only to be won,
      until the last phase. */
  predicate Due(m: C.Msg, j: nat, n: nat) {
    C.Cost(m, n) > 0 && (C.Claimable(m) ==> m.won < j || j == n)
  }

  lemma DueStep(s: State, i: nat, j: nat, late: nat)
    requires Phase(s, j, Limit(late)) && i < |s.base.msgs| && Due(s.base.msgs[i], j, Limit(late))
    ensures Enabled(s, Do(C.Worst(s.base.msgs[i], i, Limit(late))), late)
  {
    assert InPhase(s, i, j, Limit(late));
    LimitInNumbers(late);
    C.WorstStep(s.base, i, Limit(late));
  }

  lemma DueStepKeepsPhase(s: State, i: nat, j: nat, n: nat)
    requires Phase(s, j, n) && i < |s.base.msgs| && Due(s.base.msgs[i], j, n) && n <= MAX_RECEIVES
    ensures Phase(Apply(s, Do(C.Worst(s.base.msgs[i], i, n))), j, n)
  {
    var after := Apply(s, Do(C.Worst(s.base.msgs[i], i, n)));
    assert InPhase(s, i, j, n);
    forall k ensures InPhase(after, k, j, n) {
      assert InPhase(s, k, j, n);
    }
  }

  /** A phase, to its end. */
  lemma {:induction false} RunPhase(s: State, j: nat, late: nat) returns (steps: seq<Step>)
    requires Phase(s, j, Limit(late))
    ensures exists t :: Final(s, steps, late) == Some(t) && EndsPhase(s, t, j, Limit(late))
    decreases C.TotalCost(s.base.msgs, Limit(late))
  {
    var n := Limit(late);
    if i: nat :| i < |s.base.msgs| && Due(s.base.msgs[i], j, n) {
      var step := Do(C.Worst(s.base.msgs[i], i, n));
      LimitInNumbers(late);
      DueStep(s, i, j, late);
      DueStepKeepsPhase(s, i, j, n);
      C.WorstStep(s.base, i, n);
      var rest := RunPhase(Apply(s, step), j, late);
      steps := [step] + rest;
      assert steps[1..] == rest;
      assert EndsPhase(s, After(s, steps, late), j, n);
    } else {
      steps := [];
      assert EndsPhase(s, s, j, n);
    }
  }

  /** Nothing is due any more, and every run took just one off the measure. */
  ghost predicate EndsPhase(s: State, t: State, j: nat, n: nat) {
    && Phase(t, j, n)
    && (forall i :: 0 <= i < |t.base.msgs| ==> !Due(t.base.msgs[i], j, n))
    && t.base.runs + C.TotalCost(t.base.msgs, n) == s.base.runs + C.TotalCost(s.base.msgs, n)
    && t.base.placed == s.base.placed
  }

  /** When the claims have run out the next phase begins. */
  lemma NextPhase(s: State, j: nat, n: nat)
    requires Phase(s, j, n) && j < n <= MAX_RECEIVES
    requires forall i :: 0 <= i < |s.base.msgs| ==> !Due(s.base.msgs[i], j, n)
    ensures Phase(Apply(s, Wait(RETENTION_MS)), j + 1, n)
  {
    var after, next := Apply(s, Wait(RETENTION_MS)), j + 1;
    forall i: nat ensures InPhase(after, i, next, n) {
      assert InPhase(s, i, j, n);
      if i < |s.base.msgs| {
        assert !Due(s.base.msgs[i], j, n);
        C.CostInNumbers(s.base.msgs[i], n);
      }
    }
  }

  lemma {:induction false} NothingLeft(msgs: seq<C.Msg>, n: nat)
    requires forall i :: 0 <= i < |msgs| ==> C.Cost(msgs[i], n) == 0
    ensures C.TotalCost(msgs, n) == 0
  {
    if msgs != [] {
      NothingLeft(msgs[..|msgs| - 1], n);
    }
  }

  lemma {:induction false} RunConcat(s: State, first: seq<Step>, rest: seq<Step>, late: nat)
    requires IsRun(s, first, late) && IsRun(After(s, first, late), rest, late)
    ensures IsRun(s, first + rest, late)
    ensures After(s, first + rest, late) == After(After(s, first, late), rest, late)
    decreases |first|
  {
    if first == [] {
      assert first + rest == rest;
    } else {
      assert (first + rest)[1..] == first[1..] + rest;
      RunConcat(Apply(s, first[0]), first[1..], rest, late);
    }
  }

  /** The run uses up the whole measure. */
  ghost predicate UsesAll(s: State, t: State, n: nat) {
    t.base.runs == s.base.runs + C.TotalCost(s.base.msgs, n) && t.base.placed == s.base.placed
  }

  lemma {:induction false} RunPhases(s: State, j: nat, late: nat) returns (steps: seq<Step>)
    requires Phase(s, j, Limit(late))
    ensures exists t :: Final(s, steps, late) == Some(t) && UsesAll(s, t, Limit(late))
    decreases Limit(late) - j
  {
    var n := Limit(late);
    steps := RunPhase(s, j, late);
    var t := After(s, steps, late);
    if j == n {
      NothingLeft(t.base.msgs, n);
    } else {
      LimitInNumbers(late);
      NextPhase(t, j, n);
      var rest := RunPhases(Apply(t, Wait(RETENTION_MS)), j + 1, late);
      var tail := [Wait(RETENTION_MS)] + rest;
      assert tail[1..] == rest;
      RunConcat(s, steps, tail, late);
      steps := steps + tail;
    }
  }

  /** After a publication the first phase begins. */
  lemma FirstPhase(n: nat)
    requires n >= 1
    ensures Phase(Apply(EMPTY, Do(C.Place)), 1, n)
  {
    var s := Apply(EMPTY, Do(C.Place));
    var msgs := C.FanOut(OrderPlaced);
    assert [] + msgs == msgs;
    assert msgs == [C.Msg(PaymentWorker, OrderPlaced, 0, 0), C.Msg(FraudDetector, OrderPlaced, 0, 0)];
    forall i: nat ensures InPhase(s, i, 1, n) {
      assert i < |msgs| ==> s.base.msgs[i] == msgs[i] && s.until[i] == 0;
    }
  }

  lemma FinalCons(s: State, step: Step, rest: seq<Step>, late: nat)
    requires Enabled(s, step, late)
    ensures Final(s, [step] + rest, late) == Final(Apply(s, step), rest, late)
  {
    assert ([step] + rest)[1..] == rest;
  }

  lemma AfterPlace(n: nat)
    ensures var s := Apply(EMPTY, Do(C.Place));
      s.base.runs == 0 && s.base.placed == 1 && C.TotalCost(s.base.msgs, n) == C.Price(n)
  {
    C.PlacedCost(n);
  }

  /** One publication causes as many runs as its price. */
  lemma PriceIsMet(late: nat) returns (steps: seq<Step>)
    ensures exists t :: Final(EMPTY, steps, late) == Some(t) &&
                        t.base.placed == 1 && t.base.runs == C.Price(Limit(late))
  {
    AfterPlace(Limit(late));
    LimitInNumbers(late);
    FirstPhase(Limit(late));
    var rest := RunPhases(Apply(EMPTY, Do(C.Place)), 1, late);
    FinalCons(EMPTY, Do(C.Place), rest, late);
    steps := [Do(C.Place)] + rest;
  }

  /** No more than `bound` runs for each publication. */
  ghost predicate Within(s: State, bound: nat) {
    s.base.runs <= s.base.placed * bound
  }

  lemma WiderBound(placed: nat, price: nat, bound: nat)
    requires price <= bound
    ensures placed * price <= placed * bound
  {
  }

  /** Exactly which bounds every cascade keeps to, when handlers may check their
      messages up to `late` after the retention: those of 85 runs and 60 for each
      time a claim can be won, or more. */
  lemma CascadeExactly(late: nat, bound: nat)
    ensures C.Price(Limit(late)) <= bound <==>
            forall steps :: IsRun(EMPTY, steps, late) ==> Within(After(EMPTY, steps, late), bound)
  {
    if C.Price(Limit(late)) <= bound {
      forall steps | IsRun(EMPTY, steps, late) ensures Within(After(EMPTY, steps, late), bound) {
        PaidHolds(EMPTY, steps, late);
        WiderBound(After(EMPTY, steps, late).base.placed, C.Price(Limit(late)), bound);
      }
    } else {
      var steps := PriceIsMet(late);
      assert !Within(After(EMPTY, steps, late), bound);
    }
  }

  /** So 145 runs for each publication is the bound exactly when no check comes
      after its message's retention, and 205 is when one may, by a day at most. */
  lemma BoundsInTime(late: nat)
    ensures late == 0 <==>
            forall steps :: IsRun(EMPTY, steps, late) ==> Within(After(EMPTY, steps, late), 145)
    ensures late <= RETENTION_MS <==>
            forall steps :: IsRun(EMPTY, steps, late) ==> Within(After(EMPTY, steps, late), 205)
  {
    LimitInNumbers(late);
    CascadeExactly(late, 145);
    CascadeExactly(late, 205);
  }
}
