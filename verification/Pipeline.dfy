/** The checkout pipeline: requests that reserve stock and write an order with
    its outbox row, relays, payment runs and status updates, all interleaved.

    The parts are the machines of the other modules; a step of the pipeline
    drives the parts it concerns.  A request may stop anywhere, its reserve
    calls may be served late, and any reply may be lost. */
module Pipeline {
  import opened Numbers
  import opened Wrappers
  import opened Events
  import Inventory
  import Outbox = TransactionalOutbox
  import Payment
  import ReserveClient

  // ----- orders -----

  /** A validated POST /orders: the order id is its idempotency key, or a new
      UUID.  Quantity is Go's int. */
  datatype Submission = Submission(user: string, item: string, quantity: int, order: string)

  predicate Valid(b: Submission) {
    b.user != "" && b.item != "" && b.quantity > 0 && b.order != ""
  }

  datatype Columns = Columns(user: string, item: string, quantity: int)
  datatype Status = PendingPayment | Confirmed | PaymentRefused
  datatype Payload = Payload(user: string, order: string, item: string, quantity: int)

  type OrderDb = Outbox.Db<Columns, Status, Payload>
  type OrderStep = Outbox.Step<Columns, Status, Payload>

  function ColumnsOf(b: Submission): Columns {
    Columns(b.user, b.item, Int32(b.quantity))
  }

  function PayloadOf(b: Submission): Payload {
    Payload(b.user, b.order, b.item, b.quantity)
  }

  function PlacedEvent(p: Payload): Event {
    Event(OrderPlaced, p.user, p.order)
  }

  // ----- requests -----

  /** A reserve call on the wire, or served with the script's answer. */
  datatype Try = OnTheWay | Served(answer: int)

  datatype Phase = Idle | Awaiting | Reserved | InTransaction | Replied(code: int)

  datatype Request = Request(body: Submission, tries: seq<Try>, phase: Phase)

  const MAX_ATTEMPTS: nat := ReserveClient.MAX_ATTEMPTS

  datatype State = State(store: Inventory.Store, requests: map<nat, Request>, db: OrderDb, pay: Payment.State)

  const EMPTY := State(Inventory.EMPTY, map[], Outbox.Fresh(), Payment.EMPTY)

  datatype Step =
    | Stock(item: string, quantity: int)
    | Wait(ms: nat)
    | Submit(req: nat, body: Submission)
    | Send(req: nat)
    | Serve(req: nat, k: nat)
    | Hear(req: nat)
    | LoseReply(req: nat)
    | GiveUp(req: nat)
    | Begin(req: nat)
    | WriteOrder(req: nat)
    | WriteEvent(req: nat)
    | Commit(req: nat, told: bool)
    | Rollback(req: nat)
    | Relay(step: OrderStep)
    | RelayPublish(rel: nat, accepted: bool, reported: bool)
    | Work(work: Payment.Step)
    | UpdateStatus(msg: nat)

  predicate InPhase(s: State, req: nat, phase: Phase) {
    req in s.requests && s.requests[req].phase == phase
  }

  predicate RelayStatement(step: OrderStep) {
    step.Select? || step.Mark? || step.RelayCommit? || step.RelayAbort?
  }

  function StatusFor(kind: Kind): Status {
    if kind == OrderConfirmed then Confirmed else PaymentRefused
  }

  /** What must hold of the requests and queues for a step to happen. */
  predicate Guard(s: State, step: Step) {
    match step
    case Stock(_, quantity) => quantity >= 0
    case Wait(_) => true
    case Submit(req, body) => req !in s.requests && Valid(body)
    case Send(req) => InPhase(s, req, Idle) && |s.requests[req].tries| < MAX_ATTEMPTS
    case Serve(req, k) => req in s.requests && k < |s.requests[req].tries| && s.requests[req].tries[k] == OnTheWay
    case Hear(req) =>
      InPhase(s, req, Awaiting) && s.requests[req].tries != [] && LastTry(s.requests[req]).Served?
    case LoseReply(req) => InPhase(s, req, Awaiting)
    case GiveUp(req) => req in s.requests && !s.requests[req].phase.Replied?
    case Begin(req) => InPhase(s, req, Reserved)
    case WriteOrder(req) => InPhase(s, req, InTransaction)
    case WriteEvent(req) => InPhase(s, req, InTransaction)
    case Commit(req, _) => InPhase(s, req, InTransaction)
    case Rollback(req) => req in s.requests && req in s.db.writers
    case Relay(st) => RelayStatement(st)
    case RelayPublish(rel, _, _) => rel in s.db.attempts && s.db.attempts[rel].id in s.db.outbox
    case Work(work) => !work.Arrive? && !work.Wait?
    case UpdateStatus(msg) => msg < |s.pay.topic| && Subscribed(OrderService, s.pay.topic[msg].event.kind)
  }

  function LastTry(r: Request): Try
    requires r.tries != []
  {
    r.tries[|r.tries| - 1]
  }

  // ----- the part of a step in each machine -----

  function StoreStep(s: State, step: Step): Option<Inventory.Step>
    requires Guard(s, step)
  {
    match step
    case Stock(item, quantity) => Some(Inventory.Stocking(item, quantity))
    case Wait(ms) => Some(Inventory.Waiting(ms))
    case Serve(req, _) =>
      var b := s.requests[req].body;
      Some(Inventory.Reserving(b.order, b.item, b.quantity))
    case _ => None
  }

  function DbStep(s: State, step: Step): Option<OrderStep>
    requires Guard(s, step)
  {
    match step
    case Begin(req) =>
      var b := s.requests[req].body;
      Some(Outbox.Begin(req, b.order, Outbox.Row(ColumnsOf(b), PendingPayment), PayloadOf(b), s.store.now))
    case WriteOrder(req) => Some(Outbox.WriteRow(req))
    case WriteEvent(req) => Some(Outbox.WriteEntry(req))
    case Commit(req, _) => Some(Outbox.Commit(req))
    case Rollback(req) => Some(Outbox.Abort(req))
    case Relay(st) => Some(st)
    case RelayPublish(rel, accepted, reported) => Some(Outbox.Publish(rel, accepted, reported))
    case UpdateStatus(msg) =>
      var e := s.pay.topic[msg].event;
      Some(Outbox.SetStatus(e.order, StatusFor(e.kind)))
    case _ => None
  }

  function PayStep(s: State, step: Step): Option<Payment.Step>
    requires Guard(s, step)
  {
    match step
    case Wait(ms) => Some(Payment.Wait(ms))
    case RelayPublish(rel, accepted, _) =>
      if accepted then Some(Payment.Arrive(PlacedEvent(s.db.outbox[s.db.attempts[rel].id].payload), rel)) else None
    case Work(work) => Some(work)
    case _ => None
  }

  /** The request after its own part of the step. */
  function NextRequest(s: State, step: Step, r: Request): Request {
    match step
    case Send(_) => r.(tries := r.tries + [OnTheWay], phase := Awaiting)
    case Serve(_, k) =>
      if k < |r.tries| then
        r.(tries := r.tries[k := Served(Inventory.Reserve(s.store, r.body.order, r.body.item, r.body.quantity).1)])
      else r
    case Hear(_) => r.(phase := if r.tries != [] && LastTry(r) == Served(1) then Reserved else Replied(409))
    case LoseReply(_) => r.(phase := if |r.tries| < MAX_ATTEMPTS then Idle else Replied(500))
    case GiveUp(_) => r.(phase := Replied(500))
    case Begin(_) => r.(phase := InTransaction)
    case Commit(_, told) => r.(phase := Replied(if told then 201 else 500))
    case Rollback(_) => r.(phase := if r.phase.Replied? then r.phase else Replied(500))
    case _ => r
  }

  function RequestOf(step: Step): Option<nat> {
    match step
    case Submit(req, _) => Some(req)
    case Send(req) => Some(req)
    case Serve(req, _) => Some(req)
    case Hear(req) => Some(req)
    case LoseReply(req) => Some(req)
    case GiveUp(req) => Some(req)
    case Begin(req) => Some(req)
    case WriteOrder(req) => Some(req)
    case WriteEvent(req) => Some(req)
    case Commit(req, _) => Some(req)
    case Rollback(req) => Some(req)
    case _ => None
  }

  function NextRequests(s: State, step: Step): map<nat, Request> {
    if step.Submit? then s.requests[step.req := Request(step.body, [], Idle)]
    else if RequestOf(step).Some? && RequestOf(step).value in s.requests then
      s.requests[RequestOf(step).value := NextRequest(s, step, s.requests[RequestOf(step).value])]
    else s.requests
  }

  predicate Enabled(s: State, step: Step) {
    && Guard(s, step)
    && (DbStep(s, step).Some? ==> Outbox.Enabled(s.db, DbStep(s, step).value))
    && (PayStep(s, step).Some? ==> Payment.Enabled(s.pay, PayStep(s, step).value))
  }

  function NextStore(s: State, step: Step): Inventory.Store
    requires Guard(s, step)
  {
    match StoreStep(s, step) case None => s.store case Some(st) => Inventory.Apply(s.store, st)
  }

  function NextDb(s: State, step: Step): OrderDb
    requires Enabled(s, step)
  {
    match DbStep(s, step) case None => s.db case Some(st) => Outbox.Apply(s.db, st)
  }

  function NextPay(s: State, step: Step): Payment.State
    requires Enabled(s, step)
  {
    match PayStep(s, step) case None => s.pay case Some(st) => Payment.Apply(s.pay, st)
  }

  function Apply(s: State, step: Step): State
    requires Enabled(s, step)
  {
    State(NextStore(s, step), NextRequests(s, step), NextDb(s, step), NextPay(s, step))
  }

  ghost predicate IsRun(s: State, steps: seq<Step>)
    decreases |steps|
  {
    steps == [] || (Enabled(s, steps[0]) && IsRun(Apply(s, steps[0]), steps[1..]))
  }

  ghost function After(s: State, steps: seq<Step>): State
    requires IsRun(s, steps)
    decreases |steps|
  {
    if steps == [] then s else After(Apply(s, steps[0]), steps[1..])
  }

  // ----- the invariant -----

  /** A request past its reservation has one in the store's history. */
  ghost predicate Backed(log: seq<Inventory.Change>, r: Request) {
    && Valid(r.body)
    && (r.phase == Reserved || r.phase == InTransaction ==> Inventory.EverTaken(log, r.body.order))
    && (forall k :: 0 <= k < |r.tries| && r.tries[k] == Served(1) ==> Inventory.EverTaken(log, r.body.order))
  }

  ghost predicate RequestBacked(s: State, req: nat) {
    req in s.requests ==> Backed(s.store.log, s.requests[req])
  }

  /** A 201 reply means that the request's transaction committed. */
  ghost predicate CreatedCommitted(s: State, req: nat) {
    InPhase(s, req, Replied(201)) ==> req in s.db.writers && s.db.writers[req].phase == Outbox.Committed
  }

  /** What a row keeps of a body: the quantity is cut to 32 bits. */
  ghost predicate Keeps(c: Columns, b: Submission) {
    c.user == b.user && c.item == b.item && c.quantity == Int32(b.quantity)
  }

  /** What an event's payload says of it. */
  ghost predicate Carries(p: Payload, b: Submission) {
    p.user == b.user && p.order == b.order && p.item == b.item && p.quantity == b.quantity
  }

  /** Every transaction writes what its request asked for, after reserving. */
  ghost predicate WriterFromRequest(s: State, req: nat) {
    req in s.db.writers ==>
      && req in s.requests
      && var b := s.requests[req].body;
      && var w := s.db.writers[req];
      && w.id == b.order
      && Keeps(w.row.body, b) && w.row.status == PendingPayment
      && Carries(w.payload, b)
      && Inventory.EverTaken(s.store.log, b.order)
      && Busy(s.requests[req])
  }

  ghost predicate AskedBy(c: Inventory.Change, b: Submission) {
    c.Taken? && c.order == b.order && c.item == b.item && c.quantity == b.quantity
  }

  /** Every take in the store's history was asked for by some request. */
  ghost predicate TakeFromRequest(s: State, k: nat) {
    k < |s.store.log| && s.store.log[k].Taken? ==>
      exists req :: req in s.requests && AskedBy(s.store.log[k], s.requests[req].body)
  }

  /** An OrderPlaced event comes from an accepted relay attempt at its order's
      outbox row, and carries that row's user. */
  ghost predicate PlacedFromRow(s: State, i: nat) {
    i < |s.pay.topic| && s.pay.topic[i].cause.FromRelay? ==>
      var e := s.pay.topic[i].event;
      var rel := s.pay.topic[i].cause.rel;
      && rel in s.db.attempts && s.db.attempts[rel].accepted && s.db.attempts[rel].id == e.order
      && e.order in s.db.outbox && s.db.outbox[e.order].payload.user == e.user
  }

  /** One accepted attempt gives one event. */
  ghost predicate ArrivesOnce(s: State, i: nat, j: nat) {
    i < j < |s.pay.topic| && s.pay.topic[i].cause.FromRelay? && s.pay.topic[j].cause.FromRelay? ==>
      s.pay.topic[i].cause.rel != s.pay.topic[j].cause.rel
  }

  /** The event that leads to the status. */
  ghost predicate Announces(p: Payment.Post, order: string, status: Status) {
    && p.event.order == order
    && match status
       case PendingPayment => false
       case Confirmed => p.event.kind == OrderConfirmed
       case PaymentRefused => p.event.kind == PaymentFailed
  }

  /** A status other than pending was announced by an outcome event. */
  ghost predicate StatusAnnounced(s: State, order: string) {
    order in s.db.rows && s.db.rows[order].status != PendingPayment ==>
      exists i: nat :: i < |s.pay.topic| && Announces(s.pay.topic[i], order, s.db.rows[order].status)
  }

  ghost predicate PartsInv(s: State) {
    && Inventory.Inv(s.store)
    && Outbox.Inv(s.db)
    && Payment.Inv(s.pay)
  }

  ghost predicate LinksInv(s: State) {
    && (forall req :: RequestBacked(s, req))
    && (forall req :: CreatedCommitted(s, req))
    && (forall req :: WriterFromRequest(s, req))
    && (forall k :: TakeFromRequest(s, k))
    && (forall i :: PlacedFromRow(s, i))
    && (forall i, j :: ArrivesOnce(s, i, j))
    && (forall order :: StatusAnnounced(s, order))
  }

  ghost predicate Inv(s: State) {
    PartsInv(s) && LinksInv(s)
  }

  // ----- every step keeps the invariant -----

  lemma StepKeepsParts(s: State, step: Step)
    requires Inv(s) && Enabled(s, step)
    ensures PartsInv(Apply(s, step))
  {
    if StoreStep(s, step).Some? {
      var st := StoreStep(s, step).value;
      if step.Serve? {
        assert RequestBacked(s, step.req);
      }
      StoreStepKeepsInv(s.store, st);
    }
    if DbStep(s, step).Some? {
      Outbox.StepKeepsWriteInv(s.db, DbStep(s, step).value);
      Outbox.StepKeepsRelayInv(s.db, DbStep(s, step).value);
    }
    if PayStep(s, step).Some? {
      Payment.StepKeepsInv(s.pay, PayStep(s, step).value);
    }
  }

  lemma StoreStepKeepsInv(store: Inventory.Store, step: Inventory.Step)
    requires Inventory.Inv(store) && Inventory.Legal(step)
    ensures Inventory.Inv(Inventory.Apply(store, step))
  {
    assert [step][..0] == [];
    Inventory.InvHolds(store, [step]);
    assert Inventory.After(store, [step]) == Inventory.Apply(store, step);
  }

  /** What the store's history only ever gains. */
  lemma LogGrows(s: State, step: Step)
    requires Guard(s, step)
    ensures |s.store.log| <= |NextStore(s, step).log| <= |s.store.log| + 1
    ensures s.store.log == NextStore(s, step).log[..|s.store.log|]
    ensures |NextStore(s, step).log| > |s.store.log| ==> step.Stock? || step.Serve?
  {
  }

  lemma EverTakenStays(s: State, step: Step, order: string)
    requires Guard(s, step) && Inventory.EverTaken(s.store.log, order)
    ensures Inventory.EverTaken(NextStore(s, step).log, order)
  {
    LogGrows(s, step);
    var k :| 0 <= k < |s.store.log| && Inventory.TakesFor(s.store.log[k], order);
    assert Inventory.TakesFor(NextStore(s, step).log[k], order);
  }

  /** The script's answer 1 leaves a take for the order in the history. */
  lemma ServedMeansTaken(store: Inventory.Store, order: string, item: string, quantity: int)
    requires Inventory.Inv(store) && Inventory.Reserve(store, order, item, quantity).1 == 1
    ensures Inventory.EverTaken(Inventory.Reserve(store, order, item, quantity).0.log, order)
  {
    if !Inventory.Live(store, order) {
      var after := Inventory.Reserve(store, order, item, quantity).0;
      assert Inventory.TakesFor(after.log[|store.log|], order);
    } else {
      var k :| 0 <= k < |store.log| && Inventory.MadeHold(store.log[k], order, store.holds[order]);
      assert Inventory.TakesFor(store.log[k], order);
    }
  }

  lemma NextRequestBacked(s: State, step: Step, req: nat)
    requires Inventory.Inv(s.store) && Guard(s, step) && RequestOf(step) == Some(req) && !step.Submit?
    requires req in s.requests && Backed(s.store.log, s.requests[req])
    ensures Backed(NextStore(s, step).log, NextRequest(s, step, s.requests[req]))
  {
    var r := s.requests[req];
    if Inventory.EverTaken(s.store.log, r.body.order) {
      EverTakenStays(s, step, r.body.order);
    } else if step.Serve? && Inventory.Reserve(s.store, r.body.order, r.body.item, r.body.quantity).1 == 1 {
      ServedMeansTaken(s.store, r.body.order, r.body.item, r.body.quantity);
    }
  }

  lemma StepKeepsBacking(s: State, step: Step, req: nat)
    requires Inventory.Inv(s.store) && RequestBacked(s, req) && Enabled(s, step)
    ensures RequestBacked(Apply(s, step), req)
  {
    if req in s.requests {
      if RequestOf(step) == Some(req) {
        NextRequestBacked(s, step, req);
      } else if Inventory.EverTaken(s.store.log, s.requests[req].body.order) {
        EverTakenStays(s, step, s.requests[req].body.order);
      }
    }
  }

  /** A transaction's request, and what it writes, never change. */
  lemma WritersStay(s: State, step: Step, req: nat)
    requires Enabled(s, step) && req in s.db.writers
    ensures req in NextDb(s, step).writers
    ensures var w := s.db.writers[req]; var v := NextDb(s, step).writers[req];
      && v.id == w.id && v.row == w.row && v.payload == w.payload
      && (w.phase == Outbox.Committed ==> v.phase == Outbox.Committed)
  {
    if DbStep(s, step).Some? {
      Outbox.WriterStays(s.db, DbStep(s, step).value, req);
    }
  }

  lemma StepKeepsCreated(s: State, step: Step, req: nat)
    requires CreatedCommitted(s, req) && Enabled(s, step)
    ensures CreatedCommitted(Apply(s, step), req)
  {
    if req in s.db.writers {
      WritersStay(s, step, req);
    }
  }

  predicate Busy(r: Request) {
    r.phase == InTransaction || r.phase.Replied?
  }

  lemma BusyStays(s: State, step: Step, req: nat)
    requires Guard(s, step) && req in s.requests && Busy(s.requests[req])
    ensures req in NextRequests(s, step) && Busy(NextRequests(s, step)[req])
    ensures NextRequests(s, step)[req].body == s.requests[req].body
  {
  }

  /** A transaction comes only from its request's Begin. */
  lemma NewWriter(s: State, step: Step, req: nat)
    requires Enabled(s, step) && req !in s.db.writers && req in NextDb(s, step).writers
    ensures step == Begin(req) && req in s.requests
    ensures var b := s.requests[req].body;
      NextDb(s, step).writers[req] ==
        Outbox.Writer(b.order, Outbox.Row(ColumnsOf(b), PendingPayment), PayloadOf(b), s.store.now, Outbox.Open,
                      false, false)
  {
  }

  lemma StepKeepsWriters(s: State, step: Step, req: nat)
    requires RequestBacked(s, req) && WriterFromRequest(s, req) && Enabled(s, step)
    ensures WriterFromRequest(Apply(s, step), req)
  {
    if req in s.db.writers {
      WritersStay(s, step, req);
      BusyStays(s, step, req);
      EverTakenStays(s, step, s.requests[req].body.order);
    } else if req in NextDb(s, step).writers {
      NewWriter(s, step, req);
      EverTakenStays(s, step, s.requests[req].body.order);
    }
  }

  lemma RequestsStay(s: State, step: Step, req: nat)
    requires Guard(s, step) && req in s.requests
    ensures req in NextRequests(s, step) && NextRequests(s, step)[req].body == s.requests[req].body
  {
  }

  lemma StepKeepsTakes(s: State, step: Step, k: nat)
    requires TakeFromRequest(s, k) && Enabled(s, step)
    ensures TakeFromRequest(Apply(s, step), k)
  {
    var after := Apply(s, step);
    LogGrows(s, step);
    if k < |s.store.log| {
      if s.store.log[k].Taken? {
        var req :| req in s.requests && AskedBy(s.store.log[k], s.requests[req].body);
        RequestsStay(s, step, req);
        assert AskedBy(after.store.log[k], after.requests[req].body);
      }
    } else if k < |after.store.log| && after.store.log[k].Taken? {
      RequestsStay(s, step, step.req);
      assert AskedBy(after.store.log[k], after.requests[step.req].body);
    }
  }

  /** The topic only grows, by at most one event a step. */
  lemma TopicGrows(s: State, step: Step)
    requires Enabled(s, step)
    ensures |s.pay.topic| <= |NextPay(s, step).topic| <= |s.pay.topic| + 1
    ensures forall i :: 0 <= i < |s.pay.topic| ==> NextPay(s, step).topic[i] == s.pay.topic[i]
    ensures |NextPay(s, step).topic| > |s.pay.topic| ==>
      var p := NextPay(s, step).topic[|s.pay.topic|];
      if step.RelayPublish? then
        && step.accepted && p.cause == Payment.FromRelay(step.rel)
        && p.event == PlacedEvent(s.db.outbox[s.db.attempts[step.rel].id].payload)
      else p.cause.FromPayment?
  {
  }

  lemma EntriesStay(s: State, step: Step)
    requires Outbox.WriteInv(s.db) && Enabled(s, step)
    ensures forall id :: id in s.db.outbox ==>
      id in NextDb(s, step).outbox && NextDb(s, step).outbox[id].payload == s.db.outbox[id].payload
  {
    if DbStep(s, step).Some? {
      Outbox.EntriesStay(s.db, DbStep(s, step).value);
    }
  }

  lemma AttemptsStay(s: State, step: Step, rel: nat)
    requires Outbox.RelayInv(s.db) && Enabled(s, step) && rel in s.db.attempts
    requires s.db.attempts[rel].accepted || (step.RelayPublish? && step.rel == rel && step.accepted)
    ensures rel in NextDb(s, step).attempts
    ensures NextDb(s, step).attempts[rel].id == s.db.attempts[rel].id
    ensures NextDb(s, step).attempts[rel].accepted
  {
    if DbStep(s, step).Some? {
      Outbox.AcceptedStays(s.db, DbStep(s, step).value, rel);
    }
  }

  lemma StepKeepsPlaced(s: State, step: Step, i: nat)
    requires Outbox.Inv(s.db) && PlacedFromRow(s, i) && Enabled(s, step)
    requires forall id :: id in s.db.outbox ==> s.db.outbox[id].payload.order == id
    ensures PlacedFromRow(Apply(s, step), i)
  {
    TopicGrows(s, step);
    EntriesStay(s, step);
    if i < |s.pay.topic| {
      if s.pay.topic[i].cause.FromRelay? {
        AttemptsStay(s, step, s.pay.topic[i].cause.rel);
      }
    } else if i < |NextPay(s, step).topic| && step.RelayPublish? {
      AttemptsStay(s, step, step.rel);
    }
  }

  lemma StepKeepsArrivals(s: State, step: Step, i: nat, j: nat)
    requires Outbox.Inv(s.db) && PlacedFromRow(s, i) && ArrivesOnce(s, i, j) && Enabled(s, step)
    ensures ArrivesOnce(Apply(s, step), i, j)
  {
    TopicGrows(s, step);
    if i < |s.pay.topic| == j && step.RelayPublish? {
      assert Outbox.AttemptAgrees(s.db, s.db.attempts[step.rel]);
    }
  }

  /** Payloads carry the id of their outbox row. */
  lemma PayloadsCarryId(s: State, id: string)
    requires Inv(s) && id in s.db.outbox
    ensures id in s.db.rows && s.db.outbox[id].payload.order == id
    ensures s.db.outbox[id].payload.user == s.db.rows[id].body.user
    ensures s.db.outbox[id].payload.item == s.db.rows[id].body.item
    ensures Int32(s.db.outbox[id].payload.quantity) == s.db.rows[id].body.quantity
  {
    assert id in s.db.rows.Keys;
    assert Outbox.OneOrigin(s.db, id);
    assert WriterFromRequest(s, s.db.origin[id]);
  }

  /** Statuses change only by an update that carries an outcome's status. */
  lemma RowStatuses(s: State, step: Step, order: string)
    requires Outbox.WriteInv(s.db) && Enabled(s, step) && order in NextDb(s, step).rows
    requires step.Commit? ==> WriterFromRequest(s, step.req)
    ensures
      || NextDb(s, step).rows[order].status == PendingPayment
      || (order in s.db.rows && NextDb(s, step).rows[order].status == s.db.rows[order].status)
      || (step.UpdateStatus? && Announces(s.pay.topic[step.msg], order, NextDb(s, step).rows[order].status))
  {
    if DbStep(s, step).Some? {
      Outbox.StatusSource(s.db, DbStep(s, step).value, order);
    }
  }

  lemma StepKeepsStatus(s: State, step: Step, order: string)
    requires Inv(s) && Enabled(s, step)
    ensures StatusAnnounced(Apply(s, step), order)
  {
    var after := Apply(s, step);
    if order in after.db.rows && after.db.rows[order].status != PendingPayment {
      TopicGrows(s, step);
      assert step.Commit? ==> WriterFromRequest(s, step.req);
      RowStatuses(s, step, order);
      var status := after.db.rows[order].status;
      if step.UpdateStatus? && Announces(s.pay.topic[step.msg], order, status) {
        assert Announces(after.pay.topic[step.msg], order, status);
      } else {
        assert StatusAnnounced(s, order);
        var i: nat :| i < |s.pay.topic| && Announces(s.pay.topic[i], order, status);
        assert Announces(after.pay.topic[i], order, status);
      }
    }
  }

  lemma StepKeepsInv(s: State, step: Step)
    requires Inv(s) && Enabled(s, step)
    ensures Inv(Apply(s, step))
  {
    var after := Apply(s, step);
    StepKeepsParts(s, step);
    forall req ensures RequestBacked(after, req) { StepKeepsBacking(s, step, req); }
    forall req ensures CreatedCommitted(after, req) { StepKeepsCreated(s, step, req); }
    forall req ensures WriterFromRequest(after, req) { StepKeepsWriters(s, step, req); }
    forall k ensures TakeFromRequest(after, k) { StepKeepsTakes(s, step, k); }
    forall id | id in s.db.outbox ensures s.db.outbox[id].payload.order == id { PayloadsCarryId(s, id); }
    forall i ensures PlacedFromRow(after, i) { StepKeepsPlaced(s, step, i); }
    forall i, j ensures ArrivesOnce(after, i, j) { StepKeepsArrivals(s, step, i, j); }
    forall order ensures StatusAnnounced(after, order) { StepKeepsStatus(s, step, order); }
  }

  lemma {:induction false} InvHolds(s: State, steps: seq<Step>)
    requires Inv(s) && IsRun(s, steps)
    ensures Inv(After(s, steps))
    decreases |steps|
  {
    if steps != [] {
      StepKeepsInv(s, steps[0]);
      InvHolds(Apply(s, steps[0]), steps[1..]);
    }
  }
}
