/** How many handler runs one OrderPlaced publication can cause, through
    redelivery and the events the handlers publish in turn. */
module Cascade {
  import opened Events
  import opened Wrappers

  /** A message in one queue; `won` says in how many of its deliveries
      fraud-detector took the dedup key. */
  datatype Msg = Msg(queue: Queue, kind: Kind, receives: nat, won: nat)

  datatype State = State(msgs: seq<Msg>, runs: nat, placed: nat)

  const EMPTY := State([], 0, 0)

  datatype Choice = Silent | Publishes(kind: Kind)

  /** `Place` is an accepted OrderPlaced publication; `Run` is one delivery of a
      message, in which fraud-detector may take its claim, and the handler may
      publish. */
  datatype Step = Place | Run(i: nat, claims: bool, choice: Choice)

  /** What the handler of a queue publishes for an event, if anything. */
  predicate MayPublish(queue: Queue, kind: Kind, published: Kind) {
    match queue
    case PaymentWorker => kind == OrderPlaced && IsOutcome(published)
    case FraudDetector => kind != FraudFlagged && published == FraudFlagged
    case NotificationWorker => false
    case OrderService => false
  }

  /** The messages fraud-detector claims. */
  predicate Claimable(m: Msg) {
    m.queue == FraudDetector && m.kind != FraudFlagged
  }

  /** Fraud-detector publishes only in a run that claims, and a message's claim is
      won at most `limit` times. */
  predicate Enabled(s: State, step: Step, limit: nat) {
    match step
    case Place => true
    case Run(i, claims, choice) =>
      && i < |s.msgs| && s.msgs[i].receives < MAX_RECEIVES
      && (choice.Publishes? ==> MayPublish(s.msgs[i].queue, s.msgs[i].kind, choice.kind))
      && (claims ==> Claimable(s.msgs[i]) && s.msgs[i].won < limit)
      && (Claimable(s.msgs[i]) && choice.Publishes? ==> claims)
  }

  function Delivered(queue: Queue, kind: Kind): seq<Msg> {
    if Subscribed(queue, kind) then [Msg(queue, kind, 0, 0)] else []
  }

  /** One new message in each subscribed queue. */
  function FanOut(kind: Kind): seq<Msg> {
    Delivered(PaymentWorker, kind) + Delivered(FraudDetector, kind) +
    Delivered(NotificationWorker, kind) + Delivered(OrderService, kind)
  }

  function Received(m: Msg, claims: bool): Msg {
    m.(receives := m.receives + 1, won := m.won + if claims then 1 else 0)
  }

  function Apply(s: State, step: Step): State
    requires step.Run? ==> step.i < |s.msgs|
  {
    match step
    case Place => State(s.msgs + FanOut(OrderPlaced), s.runs, s.placed + 1)
    case Run(i, claims, choice) =>
      var msgs := s.msgs[i := Received(s.msgs[i], claims)];
      State(if choice.Publishes? then msgs + FanOut(choice.kind) else msgs, s.runs + 1, s.placed)
  }

  predicate IsRun(s: State, steps: seq<Step>, limit: nat)
    decreases |steps|
  {
    steps == [] || (Enabled(s, steps[0], limit) && IsRun(Apply(s, steps[0]), steps[1..], limit))
  }

  function After(s: State, steps: seq<Step>, limit: nat): State
    requires IsRun(s, steps, limit)
    decreases |steps|
  {
    if steps == [] then s else After(Apply(s, steps[0]), steps[1..], limit)
  }

  // ----- the measure -----

  /** Events only cause events of a lower rank. */
  function Rank(kind: Kind): nat {
    match kind
    case OrderPlaced => 2
    case OrderConfirmed => 1
    case PaymentFailed => 1
    case FraudFlagged => 0
  }

  /** Deliveries a message has still to come. */
  function Left(m: Msg): nat {
    if m.receives < MAX_RECEIVES then MAX_RECEIVES - m.receives else 0
  }

  function Min(a: nat, b: nat): nat {
    if a < b then a else b
  }

  /** Deliveries in which its claim can still be won. */
  function Winnable(m: Msg, limit: nat): nat {
    if m.won < limit then Min(Left(m), limit - m.won) else 0
  }

  /** Handler runs a message can still cause, its own deliveries included. */
  function Cost(m: Msg, limit: nat): nat
    decreases Rank(m.kind), 0
  {
    if Left(m) == 0 then 0
    else if m.queue == PaymentWorker && m.kind == OrderPlaced then Left(m) * (1 + FanOutCost(OrderConfirmed, limit))
    else if Claimable(m) then Left(m) + Winnable(m, limit) * FanOutCost(FraudFlagged, limit)
    else Left(m)
  }

  function DeliveryCost(queue: Queue, kind: Kind, limit: nat): nat
    decreases Rank(kind), 1
  {
    if Subscribed(queue, kind) then Cost(Msg(queue, kind, 0, 0), limit) else 0
  }

  /** Handler runs a publication of the event can cause. */
  function FanOutCost(kind: Kind, limit: nat): nat
    decreases Rank(kind), 2
  {
    DeliveryCost(PaymentWorker, kind, limit) + DeliveryCost(FraudDetector, kind, limit) +
    DeliveryCost(NotificationWorker, kind, limit) + DeliveryCost(OrderService, kind, limit)
  }

  function TotalCost(msgs: seq<Msg>, limit: nat): nat {
    if msgs == [] then 0 else TotalCost(msgs[..|msgs| - 1], limit) + Cost(msgs[|msgs| - 1], limit)
  }

  lemma CostOfFlag(limit: nat)
    ensures FanOutCost(FraudFlagged, limit) == 10
  {
  }

  lemma CostOfOutcome(kind: Kind, limit: nat)
    requires IsOutcome(kind)
    ensures FanOutCost(kind, limit) == 15 + 10 * Min(MAX_RECEIVES, limit)
  {
    CostOfFlag(limit);
    assert Winnable(Msg(FraudDetector, kind, 0, 0), limit) == Min(MAX_RECEIVES, limit);
  }

  /** 145 runs at most if a claim is won once, 60 more for each further time. */
  lemma CostOfPlaced(limit: nat)
    ensures FanOutCost(OrderPlaced, limit) == 85 + 60 * Min(MAX_RECEIVES, limit)
  {
    CostOfFlag(limit);
    CostOfOutcome(OrderConfirmed, limit);
    assert Winnable(Msg(FraudDetector, OrderPlaced, 0, 0), limit) == Min(MAX_RECEIVES, limit);
  }

  /** The measure in numbers. */
  lemma CostInNumbers(m: Msg, limit: nat)
    ensures Cost(m, limit) ==
      if m.queue == PaymentWorker && m.kind == OrderPlaced then Left(m) * (16 + 10 * Min(MAX_RECEIVES, limit))
      else if Claimable(m) then Left(m) + 10 * Winnable(m, limit)
      else Left(m)
  {
    CostOfFlag(limit);
    CostOfOutcome(OrderConfirmed, limit);
  }

  lemma {:induction false} CostOfConcat(a: seq<Msg>, b: seq<Msg>, limit: nat)
    ensures TotalCost(a + b, limit) == TotalCost(a, limit) + TotalCost(b, limit)
    decreases |b|
  {
    if b == [] {
      assert a + b == a;
    } else {
      CostOfConcat(a, b[..|b| - 1], limit);
      assert (a + b)[..|a + b| - 1] == a + b[..|b| - 1];
    }
  }

  lemma {:induction false} CostOfUpdate(msgs: seq<Msg>, i: nat, m: Msg, limit: nat)
    requires i < |msgs|
    ensures TotalCost(msgs[i := m], limit) == TotalCost(msgs, limit) - Cost(msgs[i], limit) + Cost(m, limit)
  {
    var after := msgs[i := m];
    if i == |msgs| - 1 {
      assert after[..|after| - 1] == msgs[..|msgs| - 1];
    } else {
      CostOfUpdate(msgs[..|msgs| - 1], i, m, limit);
      assert after[..|after| - 1] == msgs[..|msgs| - 1][i := m];
    }
  }

  lemma CostOfDelivered(queue: Queue, kind: Kind, limit: nat)
    ensures TotalCost(Delivered(queue, kind), limit) == DeliveryCost(queue, kind, limit)
  {
    if Subscribed(queue, kind) {
      assert Delivered(queue, kind)[..0] == [];
    }
  }

  lemma CostOfFanOut(kind: Kind, limit: nat)
    ensures TotalCost(FanOut(kind), limit) == FanOutCost(kind, limit)
  {
    var a, b := Delivered(PaymentWorker, kind), Delivered(FraudDetector, kind);
    var c, d := Delivered(NotificationWorker, kind), Delivered(OrderService, kind);
    CostOfConcat(a + b + c, d, limit);
    CostOfConcat(a + b, c, limit);
    CostOfConcat(a, b, limit);
    CostOfDelivered(PaymentWorker, kind, limit);
    CostOfDelivered(FraudDetector, kind, limit);
    CostOfDelivered(NotificationWorker, kind, limit);
    CostOfDelivered(OrderService, kind, limit);
  }

  /** What a delivery takes off its own message: at least itself, and what its
      handler may publish. */
  lemma DeliveryTakes(m: Msg, claims: bool, limit: nat)
    requires m.receives < MAX_RECEIVES && (claims ==> Claimable(m) && m.won < limit)
    ensures Cost(m, limit) >= 1 + Cost(Received(m, claims), limit) +
      if m.queue == PaymentWorker && m.kind == OrderPlaced then 15 + 10 * Min(MAX_RECEIVES, limit)
      else if claims then 10
      else 0
    ensures claims == (Claimable(m) && m.won < limit) ==>
      Cost(m, limit) == 1 + Cost(Received(m, claims), limit) +
        if m.queue == PaymentWorker && m.kind == OrderPlaced then 15 + 10 * Min(MAX_RECEIVES, limit)
        else if claims then 10
        else 0
  {
    CostInNumbers(m, limit);
    CostInNumbers(Received(m, claims), limit);
    var per := 16 + 10 * Min(MAX_RECEIVES, limit);
    assert Left(m) == Left(Received(m, claims)) + 1;
    OneMore(Left(Received(m, claims)), per);
  }

  lemma OneMore(placed: nat, price: nat)
    ensures (placed + 1) * price == placed * price + price
  {
  }

  /** What one delivery costs is covered by what it takes off its message. */
  lemma DeliveryIsPaid(m: Msg, claims: bool, choice: Choice, limit: nat)
    requires m.receives < MAX_RECEIVES
    requires choice.Publishes? ==> MayPublish(m.queue, m.kind, choice.kind)
    requires claims ==> Claimable(m) && m.won < limit
    requires Claimable(m) && choice.Publishes? ==> claims
    ensures Cost(m, limit) >= 1 + Cost(Received(m, claims), limit) +
              (if choice.Publishes? then FanOutCost(choice.kind, limit) else 0)
  {
    DeliveryTakes(m, claims, limit);
    if choice.Publishes? {
      CostOfPublished(m, choice.kind, limit);
    }
  }

  lemma CostOfPublished(m: Msg, kind: Kind, limit: nat)
    requires MayPublish(m.queue, m.kind, kind)
    ensures FanOutCost(kind, limit) == if kind == FraudFlagged then 10 else 15 + 10 * Min(MAX_RECEIVES, limit)
  {
    if kind == FraudFlagged {
      CostOfFlag(limit);
    } else {
      CostOfOutcome(kind, limit);
    }
  }

  lemma RunStepIsPaid(s: State, step: Step, limit: nat)
    requires Enabled(s, step, limit) && step.Run?
    ensures TotalCost(Apply(s, step).msgs, limit) + 1 <= TotalCost(s.msgs, limit)
  {
    var m := Received(s.msgs[step.i], step.claims);
    DeliveryIsPaid(s.msgs[step.i], step.claims, step.choice, limit);
    CostOfUpdate(s.msgs, step.i, m, limit);
    if step.choice.Publishes? {
      CostOfConcat(s.msgs[step.i := m], FanOut(step.choice.kind), limit);
      CostOfFanOut(step.choice.kind, limit);
    }
  }

  lemma PlaceIsPaid(s: State, limit: nat)
    ensures TotalCost(Apply(s, Place).msgs, limit) == TotalCost(s.msgs, limit) + FanOutCost(OrderPlaced, limit)
  {
    CostOfConcat(s.msgs, FanOut(OrderPlaced), limit);
    CostOfFanOut(OrderPlaced, limit);
  }

  /** Handler runs, and those still to come, are paid for by the publications. */
  ghost predicate Paid(s: State, price: nat, limit: nat) {
    s.runs + TotalCost(s.msgs, limit) <= s.placed * price
  }

  lemma PlaceKeepsPaid(s: State, price: nat, limit: nat)
    requires Paid(s, price, limit) && price == FanOutCost(OrderPlaced, limit)
    ensures Paid(Apply(s, Place), price, limit)
  {
    PlaceIsPaid(s, limit);
    OneMore(s.placed, price);
  }

  lemma RunKeepsPaid(s: State, step: Step, price: nat, limit: nat)
    requires Enabled(s, step, limit) && step.Run? && Paid(s, price, limit)
    ensures Paid(Apply(s, step), price, limit)
  {
    RunStepIsPaid(s, step, limit);
  }

  lemma {:induction false} PaidHolds(s: State, steps: seq<Step>, price: nat, limit: nat)
    requires IsRun(s, steps, limit) && Paid(s, price, limit) && price == FanOutCost(OrderPlaced, limit)
    ensures Paid(After(s, steps, limit), price, limit)
    decreases |steps|
  {
    if steps != [] {
      if steps[0].Place? {
        PlaceKeepsPaid(s, price, limit);
      } else {
        RunKeepsPaid(s, steps[0], price, limit);
      }
      PaidHolds(Apply(s, steps[0]), steps[1..], price, limit);
    }
  }

  /** Every delivery lowers the measure, whatever its handler publishes, so that
      a cascade without new orders comes to an end. */
  lemma {:induction false} CascadeTerminates(s: State, steps: seq<Step>, limit: nat)
    requires IsRun(s, steps, limit) && forall k :: 0 <= k < |steps| ==> steps[k].Run?
    ensures |steps| + TotalCost(After(s, steps, limit).msgs, limit) <= TotalCost(s.msgs, limit)
    decreases |steps|
  {
    if steps != [] {
      RunStepIsPaid(s, steps[0], limit);
      CascadeTerminates(Apply(s, steps[0]), steps[1..], limit);
    }
  }

  /** Handler runs for each OrderPlaced publication. */
  function Price(limit: nat): nat {
    85 + 60 * Min(MAX_RECEIVES, limit)
  }

  /** However messages are redelivered and handlers publish: at most 145 handler
      runs for each OrderPlaced publication if no message's claim is won twice,
      205 if none is won three times, and never more than 385. */
  lemma CascadeIsBounded(steps: seq<Step>, limit: nat)
    requires IsRun(EMPTY, steps, limit)
    ensures After(EMPTY, steps, limit).runs <= After(EMPTY, steps, limit).placed * Price(limit)
  {
    CostOfPlaced(limit);
    PaidHolds(EMPTY, steps, Price(limit), limit);
  }

  // ----- the bound is met -----

  /** Where the steps lead, if they are a run. */
  function Final(s: State, steps: seq<Step>, limit: nat): Option<State> {
    if IsRun(s, steps, limit) then Some(After(s, steps, limit)) else None
  }

  /** The costliest delivery of a message claims if it can, and publishes whatever
      its handler may. */
  function Worst(m: Msg, i: nat, limit: nat): Step {
    var claims := Claimable(m) && m.won < limit;
    Run(i, claims,
        if m.queue == PaymentWorker && m.kind == OrderPlaced then Publishes(OrderConfirmed)
        else if claims then Publishes(FraudFlagged)
        else Silent)
  }

  lemma WorstDeliveryCost(m: Msg, i: nat, limit: nat)
    requires m.receives < MAX_RECEIVES
    ensures var worst := Worst(m, i, limit);
      Cost(m, limit) == 1 + Cost(Received(m, worst.claims), limit) +
                        if worst.choice.Publishes? then FanOutCost(worst.choice.kind, limit) else 0
  {
    var worst := Worst(m, i, limit);
    DeliveryTakes(m, worst.claims, limit);
    if worst.choice.Publishes? {
      CostOfPublished(m, worst.choice.kind, limit);
    }
  }

  lemma {:induction false} SomethingLeft(msgs: seq<Msg>, limit: nat) returns (i: nat)
    requires TotalCost(msgs, limit) > 0
    ensures i < |msgs| && Cost(msgs[i], limit) > 0
  {
    i := |msgs| - 1;
    if Cost(msgs[i], limit) == 0 {
      i := SomethingLeft(msgs[..i], limit);
    }
  }

  /** It takes exactly one off the measure. */
  lemma WorstStep(s: State, i: nat, limit: nat)
    requires i < |s.msgs| && Cost(s.msgs[i], limit) > 0
    ensures Enabled(s, Worst(s.msgs[i], i, limit), limit)
    ensures TotalCost(Apply(s, Worst(s.msgs[i], i, limit)).msgs, limit) == TotalCost(s.msgs, limit) - 1
  {
    var worst := Worst(s.msgs[i], i, limit);
    WorstDeliveryCost(s.msgs[i], i, limit);
    CostOfUpdate(s.msgs, i, Received(s.msgs[i], worst.claims), limit);
    if worst.choice.Publishes? {
      CostOfConcat(s.msgs[i := Received(s.msgs[i], worst.claims)], FanOut(worst.choice.kind), limit);
      CostOfFanOut(worst.choice.kind, limit);
    }
  }

  /** From any state, all the runs that the measure allows can happen. */
  lemma {:induction false} MeasureIsMet(s: State, limit: nat) returns (steps: seq<Step>)
    ensures exists t :: Final(s, steps, limit) == Some(t) &&
                        t.runs == s.runs + TotalCost(s.msgs, limit) && t.placed == s.placed
    decreases TotalCost(s.msgs, limit)
  {
    if TotalCost(s.msgs, limit) == 0 {
      steps := [];
    } else {
      var i := SomethingLeft(s.msgs, limit);
      WorstStep(s, i, limit);
      var step := Worst(s.msgs[i], i, limit);
      var rest := MeasureIsMet(Apply(s, step), limit);
      steps := [step] + rest;
      assert steps[1..] == rest;
    }
  }

  /** What one publication costs, as the measure has it. */
  lemma PlacedCost(limit: nat)
    ensures Apply(EMPTY, Place).msgs == FanOut(OrderPlaced)
    ensures TotalCost(FanOut(OrderPlaced), limit) == Price(limit)
  {
    assert [] + FanOut(OrderPlaced) == FanOut(OrderPlaced);
    CostOfFanOut(OrderPlaced, limit);
    CostOfPlaced(limit);
  }

  /** The bounds are exact: one publication can cause that many handler runs. */
  lemma CascadeBoundIsMet(limit: nat) returns (steps: seq<Step>)
    ensures exists t :: Final(EMPTY, steps, limit) == Some(t) && t.placed == 1 && t.runs == Price(limit)
  {
    PlacedCost(limit);
    var rest := MeasureIsMet(Apply(EMPTY, Place), limit);
    steps := [Place] + rest;
    assert steps[1..] == rest;
  }
}
