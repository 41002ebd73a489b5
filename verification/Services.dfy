/** The handlers of the order service and the payment worker, as they run.

    A handler is a sequence of operations on the shared system; between any two
    of them the others may take any steps.  Every handler is shown to produce a
    run of the pipeline, so that what is proved of all runs holds of it. */
module Services {
  import opened Events
  import opened Pipeline
  import opened Wrappers
  import Outbox = TransactionalOutbox
  import Payment
  import Checkout
  import Inventory
  import opened Keys
  import opened Numbers

  /** Whose steps an operation belongs to. */
  datatype Owner = OfRequest(req: nat) | OfRelay(rel: nat) | OfRun(run: nat)

  function RelayOf(step: Step): Option<nat> {
    match step
    case Relay(Select(rel, _)) => Some(rel)
    case Relay(Mark(rel)) => Some(rel)
    case Relay(RelayCommit(rel)) => Some(rel)
    case Relay(RelayAbort(rel)) => Some(rel)
    case RelayPublish(rel, _, _) => Some(rel)
    case _ => None
  }

  function RunOf(step: Step): Option<nat> {
    match step
    case Work(Receive(run, _)) => Some(run)
    case Work(Check(run)) => Some(run)
    case Work(CheckLost(run)) => Some(run)
    case Work(CheckFailed(run)) => Some(run)
    case Work(Pay(run, _, _, _)) => Some(run)
    case Work(Unclaim(run, _)) => Some(run)
    case Work(Crash(run)) => Some(run)
    case _ => None
  }

  /** A step that is not the owner's own.  Serving a reserve call is the
      inventory service's step, whoever sent the call. */
  predicate Foreign(step: Step, owner: Owner) {
    match owner
    case OfRequest(req) => step.Serve? || RequestOf(step) != Some(req)
    case OfRelay(rel) => RelayOf(step) != Some(rel)
    case OfRun(run) => RunOf(step) != Some(run)
  }

  /** What the steps of others leave alone. */
  predicate Undisturbed(s: State, t: State, owner: Owner) {
    match owner
    case OfRequest(req) =>
      && (req in s.requests <==> req in t.requests)
      && (req in s.requests ==>
            && t.requests[req].body == s.requests[req].body
            && t.requests[req].phase == s.requests[req].phase
            && |t.requests[req].tries| == |s.requests[req].tries|)
      && (req in s.db.writers <==> req in t.db.writers)
      && (req in s.db.writers ==> t.db.writers[req] == s.db.writers[req])
    case OfRelay(rel) =>
      && (rel in s.db.attempts <==> rel in t.db.attempts)
      && (rel in s.db.attempts ==> t.db.attempts[rel] == s.db.attempts[rel])
    case OfRun(run) =>
      && (run in s.pay.runs <==> run in t.pay.runs)
      && (run in s.pay.runs ==> t.pay.runs[run] == s.pay.runs[run])
  }

  lemma ForeignUndisturbed(s: State, step: Step, owner: Owner)
    requires Enabled(s, step) && Foreign(step, owner)
    ensures Undisturbed(s, Apply(s, step), owner)
  {
    match owner {
      case OfRequest(req) => RequestUndisturbed(s, step, req);
      case OfRelay(rel) => RelayUndisturbed(s, step, rel);
      case OfRun(run) => RunUndisturbed(s, step, run);
    }
  }

  lemma RequestUndisturbed(s: State, step: Step, req: nat)
    requires Enabled(s, step) && Foreign(step, OfRequest(req))
    ensures Undisturbed(s, Apply(s, step), OfRequest(req))
  {
    if DbStep(s, step).Some? {
      Outbox.OthersKeepWriter(s.db, DbStep(s, step).value, req);
    }
  }

  lemma RelayUndisturbed(s: State, step: Step, rel: nat)
    requires Enabled(s, step) && Foreign(step, OfRelay(rel))
    ensures Undisturbed(s, Apply(s, step), OfRelay(rel))
  {
    if DbStep(s, step).Some? {
      Outbox.OthersKeepAttempt(s.db, DbStep(s, step).value, rel);
    }
  }

  lemma RunUndisturbed(s: State, step: Step, run: nat)
    requires Enabled(s, step) && Foreign(step, OfRun(run))
    ensures Undisturbed(s, Apply(s, step), OfRun(run))
  {
  }

  /** What the surroundings decide during one handler: the steps others take at
      each point where the handler waits, and which of its operations fail. */
  datatype Fate = Fate(others: nat -> seq<Step>, fails: nat -> bool)

  /** The event of an outbox row, published by an attempt of a relay. */
  predicate IsRelayed(p: Payment.Post, rel: nat, payload: Payload) {
    p.event == Event(OrderPlaced, payload.user, payload.order) && p.cause == Payment.FromRelay(rel)
  }

  datatype ReserveError = NoError | InsufficientStock | Unavailable | Unexpected

  /** The caller's context ends during the back-off after that attempt. */
  predicate PauseEnds(fate: Fate, attempt: nat) {
    fate.fails(2 * attempt + 1)
  }

  /** The call of that attempt broke, or its reply was lost: what became of it by
      then is `end`. */
  ghost predicate Breaks(fate: Fate, attempt: nat, end: Try) {
    !fate.fails(20 + attempt) && (fate.fails(2 * attempt) || end == OnTheWay)
  }

  /** Every one of these calls broke, and the caller's context did not end in the
      back-off after it. */
  ghost predicate AllBroke(fate: Fate, ends: seq<Try>) {
    ends != [] ==>
      var k := |ends|;
      AllBroke(fate, ends[..k - 1]) && Breaks(fate, k, ends[k - 1]) && !PauseEnds(fate, k)
  }

  /** What the reserve script answers the request when it is asked now. */
  function Answer(store: Inventory.Store, body: Submission): int {
    Inventory.Reserve(store, body.order, body.item, body.quantity).1
  }

  /** Nothing fails, and of the others only the inventory service acts, once, to
      serve the first reserve call. */
  ghost predicate Smooth(fate: Fate, req: nat) {
    && (forall k :: !fate.fails(k))
    && fate.others(2) == [Serve(req, 0)]
    && (forall k :: k != 2 ==> fate.others(k) == [])
  }

  /** The first reserve call is served and its reply lost; nothing else fails, and
      of the others only the inventory service acts, to serve the first call and,
      after a back-off shorter than a reservation's lifetime, the second. */
  ghost predicate LosesReply(fate: Fate, req: nat) {
    && (forall k :: fate.fails(k) <==> k == 2)
    && fate.others(2) == [Serve(req, 0)]
    && |fate.others(3)| == 1 && fate.others(3)[0].Wait? && fate.others(3)[0].ms < Inventory.HOLD_MS
    && fate.others(4) == [Serve(req, 1)]
    && (forall k :: k >= 8 ==> fate.others(k) == [])
  }

  /** From the transaction on nothing fails, and nobody else acts. */
  ghost predicate Quiet(fate: Fate) {
    forall k :: k >= 8 ==> !fate.fails(k) && fate.others(k) == []
  }

  /** A call that is served changes its own entry and the stock. */
  lemma ServedAlone(s: State, req: nat)
    requires InPhase(s, req, Awaiting) && s.requests[req].tries != []
    requires LastTry(s.requests[req]) == OnTheWay
    ensures var k := |s.requests[req].tries| - 1;
      Enabled(s, Serve(req, k)) && ServedLast(s, Apply(s, Serve(req, k)), req)
  {
  }

  /** The request's last call has been served, and nothing else has happened. */
  ghost predicate ServedLast(s: State, t: State, req: nat)
    requires req in s.requests
  {
    var b := s.requests[req].body;
    && t.db == s.db && req in t.requests && t.requests[req].tries != []
    && LastTry(t.requests[req]) == Served(Answer(s.store, b))
    && t.store == Inventory.Reserve(s.store, b.order, b.item, b.quantity).0
  }

  /** The whole system as the handlers share it. */
  class Cluster {
    var state: State
    ghost var steps: seq<Step>

    /** The state was reached by a run of the pipeline. */
    ghost predicate Valid()
      reads this
    {
      IsRun(EMPTY, steps) && state == After(EMPTY, steps)
    }

    constructor ()
      ensures Valid() && state == EMPTY
    {
      state, steps := EMPTY, [];
    }

    lemma Reachable()
      requires Valid()
      ensures Inv(state)
    {
      Checkout.EmptyInv();
      InvHolds(EMPTY, steps);
    }

    method Do(step: Step)
      requires Valid() && Enabled(state, step)
      modifies this
      ensures Valid() && state == Apply(old(state), step) && steps == old(steps) + [step]
    {
      Checkout.RunSnoc(EMPTY, steps, step);
      state := Apply(state, step);
      steps := steps + [step];
    }

    /** Others take whatever steps of the schedule are possible when they come up. */
    method Others(schedule: seq<Step>, owner: Owner)
      requires Valid()
      modifies this
      ensures Valid() && Undisturbed(old(state), state, owner)
      ensures old(steps) <= steps && old(state.pay.topic) <= state.pay.topic
      ensures schedule == [] ==> state == old(state)
      ensures |schedule| == 1 && Foreign(schedule[0], owner) && Enabled(old(state), schedule[0]) ==>
        state == Apply(old(state), schedule[0])
    {
      for k := 0 to |schedule|
        invariant k == 0 ==> state == old(state)
        invariant k == 1 && Foreign(schedule[0], owner) && Enabled(old(state), schedule[0]) ==>
          state == Apply(old(state), schedule[0])
        invariant Valid() && Undisturbed(old(state), state, owner)
        invariant old(steps) <= steps && old(state.pay.topic) <= state.pay.topic
      {
        if Foreign(schedule[k], owner) && Enabled(state, schedule[k]) {
          ForeignUndisturbed(state, schedule[k], owner);
          TopicGrows(state, schedule[k]);
          Do(schedule[k]);
        }
      }
    }

    // ----- POST /orders -----

    /** A step of the request's own handler. */
    method AsRequest(step: Step, req: nat)
      requires Valid() && Enabled(state, step) && RequestOf(step) == Some(req) && req in state.requests && !step.Serve?
      modifies this
      ensures Valid() && old(steps) <= steps
      ensures req in state.requests
      ensures state.requests[req] == NextRequest(old(state), step, old(state.requests[req]))
      ensures req in state.db.writers <==> req in old(state.db.writers) || step.Begin?
      ensures step.Begin? ==> state.db.writers[req].phase == Outbox.Open
      ensures step.WriteOrder? ==> state.db.writers[req].phase == Outbox.RowDone
      ensures step.WriteEvent? ==> state.db.writers[req].phase == Outbox.EntryDone
      ensures state.store == old(state.store)
      ensures Outbox.Unlocked(old(state.db), req) ==> Outbox.Unlocked(state.db, req)
    {
      if DbStep(state, step).Some? {
        Outbox.StaysUnlocked(state.db, DbStep(state, step).value, req);
      }
      Do(step);
    }

    /** The request's own part of the system. */
    ghost predicate IsAt(req: nat, body: Submission, phase: Phase)
      reads this
    {
      Valid() && InPhase(state, req, phase) && state.requests[req].body == body
    }

    /** The others' steps, as far as a request without a transaction sees them. */
    method Waiting(req: nat, schedule: seq<Step>, ghost body: Submission, ghost phase: Phase)
      requires IsAt(req, body, phase) && req !in state.db.writers
      modifies this
      ensures IsAt(req, body, phase) && req !in state.db.writers
      ensures |state.requests[req].tries| == |old(state.requests[req].tries)|
      ensures old(steps) <= steps
      ensures schedule == [] ==> state == old(state)
    {
      Others(schedule, OfRequest(req));
    }

    /** The call reaches the inventory service, which answers, or it does not. */
    method Calls(req: nat, ghost body: Submission, schedule: seq<Step>)
      requires IsAt(req, body, Idle) && req !in state.db.writers && |state.requests[req].tries| < MAX_ATTEMPTS
      modifies this
      ensures IsAt(req, body, Awaiting) && req !in state.db.writers && old(steps) <= steps
      ensures |state.requests[req].tries| == |old(state.requests[req].tries)| + 1
      ensures schedule == [Serve(req, |old(state.requests[req].tries)|)] && Outbox.Unlocked(old(state.db), req) ==>
        && LastTry(state.requests[req]) == Served(Answer(old(state.store), body))
        && state.store == Inventory.Reserve(old(state.store), body.order, body.item, body.quantity).0
        && Outbox.Unlocked(state.db, req)
    {
      AsRequest(Send(req), req);
      ghost var sent := state;
      Others(schedule, OfRequest(req));
      if schedule == [Serve(req, |sent.requests[req].tries| - 1)] {
        ServedAlone(sent, req);
      }
    }

    /** One attempt: the call goes out, and its reply comes back or does not; a
        reply with a status that nobody expects is not retried. */
    method DoReserve(req: nat, ghost body: Submission, fate: Fate, attempt: nat)
      returns (retryable: bool, error: ReserveError)
      requires IsAt(req, body, Idle) && req !in state.db.writers
      requires 1 <= attempt <= MAX_ATTEMPTS && |state.requests[req].tries| == attempt - 1
      modifies this
      ensures old(steps) <= steps && req !in state.db.writers
      ensures error == NoError ==> IsAt(req, body, Reserved)
      ensures error == InsufficientStock ==> IsAt(req, body, Replied(409))
      ensures error == Unexpected ==> IsAt(req, body, Replied(500))
      ensures error == Unavailable ==> IsAt(req, body, if attempt < MAX_ATTEMPTS then Idle else Replied(500))
      ensures |state.requests[req].tries| == attempt
      ensures retryable <==>
        !fate.fails(20 + attempt) && (fate.fails(2 * attempt) || LastTry(state.requests[req]) == OnTheWay)
      ensures error == Unavailable <==> retryable
      ensures error == Unexpected <==> fate.fails(20 + attempt)
      ensures error == NoError ==> LastTry(state.requests[req]) == Served(1)
      ensures error == InsufficientStock ==> LastTry(state.requests[req]) != Served(1)
      ensures fate.others(2 * attempt) == [Serve(req, attempt - 1)] && Outbox.Unlocked(old(state.db), req) ==>
        && LastTry(state.requests[req]) == Served(Answer(old(state.store), body))
        && state.store == Inventory.Reserve(old(state.store), body.order, body.item, body.quantity).0
        && Outbox.Unlocked(state.db, req)
    {
      Calls(req, body, fate.others(2 * attempt));
      retryable, error := EndsAttempt(req, body, fate.fails(2 * attempt), fate.fails(20 + attempt));
    }

    /** The rest of the attempt, by what has become of the call. */
    method EndsAttempt(req: nat, ghost body: Submission, lost: bool, odd: bool)
      returns (retryable: bool, error: ReserveError)
      requires IsAt(req, body, Awaiting) && req !in state.db.writers && state.requests[req].tries != []
      modifies this
      ensures old(steps) <= steps && req !in state.db.writers
      ensures IsAt(req, body,
        match error
        case NoError => Reserved
        case InsufficientStock => Replied(409)
        case Unexpected => Replied(500)
        case Unavailable => if |old(state.requests[req].tries)| < MAX_ATTEMPTS then Idle else Replied(500))
      ensures state.requests[req].tries == old(state.requests[req].tries)
      ensures retryable <==> !odd && (lost || LastTry(state.requests[req]) == OnTheWay)
      ensures error == Unavailable <==> retryable
      ensures error == Unexpected <==> odd
      ensures error == NoError ==> LastTry(state.requests[req]) == Served(1)
      ensures error == InsufficientStock ==> LastTry(state.requests[req]) != Served(1)
      ensures state.store == old(state.store)
      ensures Outbox.Unlocked(old(state.db), req) ==> Outbox.Unlocked(state.db, req)
    {
      if odd {
        GivesUp(req, body, Awaiting);
        return false, Unexpected;
      }
      if LastTry(state.requests[req]).Served? && !lost {
        AsRequest(Hear(req), req);
        if state.requests[req].phase == Reserved {
          return false, NoError;
        }
        return false, InsufficientStock;
      }
      AsRequest(LoseReply(req), req);
      return true, Unavailable;
    }

    method GivesUp(req: nat, ghost body: Submission, ghost phase: Phase)
      requires IsAt(req, body, phase) && !phase.Replied?
      modifies this
      ensures IsAt(req, body, Replied(500)) && old(steps) <= steps
      ensures req in state.db.writers <==> req in old(state.db.writers)
      ensures state.requests[req].tries == old(state.requests[req].tries) && state.store == old(state.store)
      ensures Outbox.Unlocked(old(state.db), req) ==> Outbox.Unlocked(state.db, req)
    {
      AsRequest(GiveUp(req), req);
    }

    /** The back-off after a failed attempt, unless the caller's context ends in it. */
    method Pauses(req: nat, ghost body: Submission, schedule: seq<Step>, fails: bool) returns (ended: bool)
      requires IsAt(req, body, Idle) && req !in state.db.writers
      modifies this
      ensures old(steps) <= steps && req !in state.db.writers
      ensures IsAt(req, body, if ended then Replied(500) else Idle) && ended == fails
      ensures |state.requests[req].tries| == |old(state.requests[req].tries)|
      ensures |schedule| == 1 && schedule[0].Wait? && !fails && Outbox.Unlocked(old(state.db), req) ==>
        && state.store == old(state.store).(now := old(state.store.now) + schedule[0].ms)
        && Outbox.Unlocked(state.db, req)
    {
      Others(schedule, OfRequest(req));
      if fails {
        GivesUp(req, body, Idle);
      }
      return fails;
    }

    /** One attempt, and the back-off if another one follows: `again`.  What had
        become of the call when the attempt ended is `end`. */
    method Tries(req: nat, ghost body: Submission, fate: Fate, attempt: nat)
      returns (again: bool, error: ReserveError, ghost end: Try)
      requires IsAt(req, body, Idle) && req !in state.db.writers
      requires 1 <= attempt <= MAX_ATTEMPTS && |state.requests[req].tries| == attempt - 1
      modifies this
      ensures old(steps) <= steps && req !in state.db.writers
      ensures IsAt(req, body,
        match error
        case NoError => Reserved
        case InsufficientStock => Replied(409)
        case Unexpected => Replied(500)
        case Unavailable => if again then Idle else Replied(500))
      ensures |state.requests[req].tries| == attempt
      ensures again <==> attempt < 3 && Breaks(fate, attempt, end) && !PauseEnds(fate, attempt)
      ensures Decided(fate, attempt, end, error)
      ensures Smooth(fate, req) && attempt == 1 && Outbox.Unlocked(old(state.db), req) ==>
        && end == Served(Answer(old(state.store), body)) && Outbox.Unlocked(state.db, req)
      ensures LosesReply(fate, req) && attempt == 1 && Outbox.Unlocked(old(state.db), req) ==>
        TakesFresh(old(state.store), body) ==>
        again && Inventory.Live(state.store, body.order) && Outbox.Unlocked(state.db, req)
      ensures LosesReply(fate, req) && attempt == 2 && Outbox.Unlocked(old(state.db), req) ==>
        Inventory.Live(old(state.store), body.order) ==> end == Served(1) && Outbox.Unlocked(state.db, req)
    {
      again, error := DoReserve(req, body, fate, attempt);
      end := LastTry(state.requests[req]);
      if again {
        again := attempt < MAX_ATTEMPTS;
        if again {
          var ended := Pauses(req, body, fate.others(2 * attempt + 1), fate.fails(2 * attempt + 1));
          again := !ended;
        }
      }
    }

    /** What an attempt comes to, by the end of its call. */
    ghost predicate Decided(fate: Fate, attempt: nat, end: Try, error: ReserveError) {
      && (error == Unavailable <==> Breaks(fate, attempt, end))
      && (error == Unexpected <==> fate.fails(20 + attempt))
      && (error == NoError ==> end == Served(1))
      && (error == InsufficientStock ==> end != Served(1))
    }

    /** The retry loop around the inventory service.  `ends` says what had become of
        each call when its attempt ended.  A call that broke is followed by another,
        but for the third and for a context that ends in the back-off; the last one
        decides.  Without a fault that is the first one, and a reply that was lost
        costs no more than a second one. */
    method ReserveStock(req: nat, ghost body: Submission, fate: Fate)
      returns (error: ReserveError, ghost ends: seq<Try>)
      requires IsAt(req, body, Idle) && state.requests[req].tries == [] && req !in state.db.writers
      modifies this
      ensures old(steps) <= steps && req !in state.db.writers
      ensures error == NoError ==> IsAt(req, body, Reserved)
      ensures error == InsufficientStock ==> IsAt(req, body, Replied(409))
      ensures error == Unavailable || error == Unexpected ==> IsAt(req, body, Replied(500))
      ensures 1 <= |ends| <= 3 && |state.requests[req].tries| == |ends|
      ensures AllBroke(fate, ends[..|ends| - 1])
      ensures |ends| < 3 && Breaks(fate, |ends|, ends[|ends| - 1]) ==> PauseEnds(fate, |ends|)
      ensures error == Unavailable <==> Breaks(fate, |ends|, ends[|ends| - 1])
      ensures error == Unexpected <==> fate.fails(20 + |ends|)
      ensures error == NoError ==> ends[|ends| - 1] == Served(1)
      ensures error == InsufficientStock ==> ends[|ends| - 1] != Served(1)
      ensures Smooth(fate, req) && Outbox.Unlocked(old(state.db), req) ==>
        && error == (if Answer(old(state.store), body) == 1 then NoError else InsufficientStock)
        && Outbox.Unlocked(state.db, req)
      ensures LosesReply(fate, req) && Outbox.Unlocked(old(state.db), req) && TakesFresh(old(state.store), body) ==>
        error == NoError && |ends| == 2 && Outbox.Unlocked(state.db, req)
    {
      var attempt := 1;
      ends := [];
      while attempt <= MAX_ATTEMPTS
        invariant 1 <= attempt <= MAX_ATTEMPTS && old(steps) <= steps
        invariant IsAt(req, body, Idle) && req !in state.db.writers
        invariant |state.requests[req].tries| == |ends| == attempt - 1
        invariant AllBroke(fate, ends)
        invariant attempt == 1 ==> state == old(state)
        invariant attempt > 1 ==> !(Smooth(fate, req) && Outbox.Unlocked(old(state.db), req))
        invariant LosesReply(fate, req) && Outbox.Unlocked(old(state.db), req) && TakesFresh(old(state.store), body) ==>
          attempt == 1 ||
          (attempt == 2 && Inventory.Live(state.store, body.order) && Outbox.Unlocked(state.db, req))
        decreases MAX_ATTEMPTS - attempt
      {
        var again;
        ghost var end;
        again, error, end := Tries(req, body, fate, attempt);
        assert (ends + [end])[..|ends|] == ends;
        ends := ends + [end];
        if !again {
          return;
        }
        attempt := attempt + 1;
      }
    }

    /** The reservation would take the units itself. */
    ghost predicate TakesFresh(store: Inventory.Store, body: Submission) {
      Inventory.Fresh(store, body.order, body.item, body.quantity)
    }

    /** The request is in its transaction, which has reached a phase. */
    ghost predicate InTx(req: nat, body: Submission, phase: Outbox.Phase)
      reads this
    {
      IsAt(req, body, InTransaction) && req in state.db.writers && state.db.writers[req].phase == phase
    }

    method Begins(req: nat, ghost body: Submission)
      requires IsAt(req, body, Reserved) && req !in state.db.writers
      modifies this
      ensures InTx(req, body, Outbox.Open) && old(steps) <= steps
      ensures Outbox.Unlocked(old(state.db), req) ==> Outbox.Unlocked(state.db, req)
    {
      AsRequest(Begin(req), req);
    }

    method RollsBack(req: nat, ghost body: Submission, ghost phase: Outbox.Phase)
      requires InTx(req, body, phase) && phase != Outbox.Committed && phase != Outbox.Aborted
      modifies this
      ensures IsAt(req, body, Replied(500)) && old(steps) <= steps
    {
      AsRequest(Rollback(req), req);
    }

    /** The first insert: it fails when the database does, or when another
        transaction keeps the row locked for too long. */
    method CreatesOrder(req: nat, ghost body: Submission, schedule: seq<Step>, fails: bool) returns (ok: bool)
      requires InTx(req, body, Outbox.Open)
      modifies this
      ensures if ok then InTx(req, body, Outbox.RowDone) else IsAt(req, body, Replied(500))
      ensures old(steps) <= steps
      ensures schedule == [] && !fails && Outbox.Unlocked(old(state.db), req) ==> ok && Outbox.Unlocked(state.db, req)
    {
      Others(schedule, OfRequest(req));
      if fails || !Enabled(state, WriteOrder(req)) {
        RollsBack(req, body, Outbox.Open);
        return false;
      }
      AsRequest(WriteOrder(req), req);
      return true;
    }

    /** The second insert, likewise. */
    method InsertsEvent(req: nat, ghost body: Submission, schedule: seq<Step>, fails: bool) returns (ok: bool)
      requires InTx(req, body, Outbox.RowDone)
      modifies this
      ensures if ok then InTx(req, body, Outbox.EntryDone) else IsAt(req, body, Replied(500))
      ensures old(steps) <= steps
      ensures schedule == [] && !fails && Outbox.Unlocked(old(state.db), req) ==> ok
    {
      Others(schedule, OfRequest(req));
      if fails || !Enabled(state, WriteEvent(req)) {
        RollsBack(req, body, Outbox.RowDone);
        return false;
      }
      AsRequest(WriteEvent(req), req);
      return true;
    }

    /** The commit, which may succeed without the handler learning of it. */
    method Commits(req: nat, ghost body: Submission, schedule: seq<Step>, fails: bool, told: bool) returns (ok: bool)
      requires InTx(req, body, Outbox.EntryDone)
      modifies this
      ensures IsAt(req, body, Replied(if ok then 201 else 500)) && old(steps) <= steps
      ensures ok == (!fails && told)
    {
      Others(schedule, OfRequest(req));
      if fails {
        RollsBack(req, body, Outbox.EntryDone);
        return false;
      }
      AsRequest(Commit(req, told), req);
      return told;
    }

    /** Both inserts and the commit. */
    method WritesBoth(req: nat, ghost body: Submission, fate: Fate) returns (ok: bool)
      requires InTx(req, body, Outbox.Open)
      modifies this
      ensures IsAt(req, body, Replied(if ok then 201 else 500)) && old(steps) <= steps
      ensures Quiet(fate) && Outbox.Unlocked(old(state.db), req) ==> ok
    {
      ok := CreatesOrder(req, body, fate.others(9), fate.fails(9));
      if !ok {
        return;
      }
      ok := InsertsEvent(req, body, fate.others(10), fate.fails(10));
      if !ok {
        return;
      }
      ok := Commits(req, body, fate.others(11), fate.fails(11), !fate.fails(12));
    }

    method BeginsAndWrites(req: nat, ghost body: Submission, fate: Fate) returns (ok: bool)
      requires IsAt(req, body, Reserved) && req !in state.db.writers
      modifies this
      ensures IsAt(req, body, Replied(if ok then 201 else 500)) && old(steps) <= steps
      ensures Quiet(fate) && Outbox.Unlocked(old(state.db), req) ==> ok
    {
      Waiting(req, fate.others(8), body, Reserved);
      if fate.fails(8) {
        GivesUp(req, body, Reserved);
        return false;
      }
      Begins(req, body);
      ok := WritesBoth(req, body, fate);
    }

    /** The transaction.  A success means that it is committed, with both rows in
        place; it cannot fail without a fault or another transaction in the way. */
    method WriteRows(req: nat, ghost body: Submission, fate: Fate) returns (ok: bool)
      requires IsAt(req, body, Reserved) && req !in state.db.writers
      modifies this
      ensures IsAt(req, body, Replied(if ok then 201 else 500)) && old(steps) <= steps
      ensures ok ==> req in state.db.writers && state.db.writers[req].phase == Outbox.Committed
      ensures ok ==> body.order in state.db.rows && body.order in state.db.outbox
      ensures Quiet(fate) && Outbox.Unlocked(old(state.db), req) ==> ok
    {
      ok := BeginsAndWrites(req, body, fate);
      if ok {
        CreatedIsCommitted(req, body);
      }
    }

    lemma CreatedIsCommitted(req: nat, body: Submission)
      requires IsAt(req, body, Replied(201))
      ensures req in state.db.writers && state.db.writers[req].phase == Outbox.Committed
      ensures body.order in state.db.rows && body.order in state.db.outbox
    {
      Checkout.CreatedMeansStored(steps, req);
      Reachable();
      assert CreatedCommitted(state, req);
    }

    /** The handler.  The order's id is the key, or a new UUID without one.  Whatever
        the others do and whichever operations fail: a 201 means that the order and
        its event are committed, as asked for if this request inserted them; a 409 or
        an invalid body that it wrote nothing; and an order that existed before is
        never rewritten.  With no fault and no other transaction at work just a
        reservation or enough stock decides, and one lost reply makes no difference. */
    method HandleCreateOrder(req: nat, user: string, item: string, quantity: int, key: string,
                             newId: Uuid, parse: string -> Option<Uuid>, fate: Fate)
      returns (code: int, ghost body: Submission)
      requires Valid() && req !in state.requests
      modifies this
      ensures Valid() && old(steps) <= steps
      ensures code == 400 <==> user == "" || item == "" || quantity <= 0 || (key != "" && parse(key).None?)
      ensures code == 400 ==> state == old(state)
      ensures code == 201 || code == 400 || code == 409 || code == 500
      ensures code != 400 ==> body.user == user && body.item == item && body.quantity == quantity
      ensures code != 400 ==> body.order == if key == "" then newId else parse(key).value
      ensures code != 400 ==> InPhase(state, req, Replied(code)) && state.requests[req].body == body
      ensures code == 201 ==> body.order in state.db.rows && body.order in state.db.outbox
      ensures code == 201 && Inserted(req, body.order) ==>
        var row, payload := state.db.rows[body.order].body, state.db.outbox[body.order].payload;
        && row.user == user && row.item == item && row.quantity == Int32(quantity)
        && payload.user == user && payload.item == item && payload.quantity == quantity
        && payload.order == body.order
      ensures Checkout.Settles(old(state.db), state.db)
      ensures code == 409 ==> req !in state.db.writers
      ensures code != 400 && Smooth(fate, req) && Outbox.Unlocked(old(state.db), req) ==>
        code == if Inventory.Live(old(state.store), body.order) || quantity <= Inventory.StockOf(old(state.store), item)
                then 201 else 409
      ensures code != 400 && LosesReply(fate, req) && Outbox.Unlocked(old(state.db), req) ==>
        TakesFresh(old(state.store), body) ==> code == 201
    {
      Checkout.LaterSettles(steps, steps);
      body := Submission(user, item, quantity, newId);
      if user == "" || item == "" || quantity <= 0 {
        return 400, body;
      }
      var id := newId;
      if key != "" {
        var parsed := parse(key);
        if parsed.None? {
          return 400, body;
        }
        id := parsed.value;
      }
      var order := Submission(user, item, quantity, id);
      body := order;
      code := CreatesOrderFor(req, order, fate);
      Checkout.LaterSettles(old(steps), steps);
      if code == 201 {
        CreatedIsStored(req, body);
      }
    }

    /** The handler after validation. */
    method CreatesOrderFor(req: nat, body: Submission, fate: Fate) returns (code: int)
      requires Valid() && req !in state.requests && Pipeline.Valid(body)
      modifies this
      ensures IsAt(req, body, Replied(code)) && old(steps) <= steps
      ensures code == 201 || code == 409 || code == 500
      ensures code == 409 ==> req !in state.db.writers
      ensures Smooth(fate, req) && Outbox.Unlocked(old(state.db), req) ==>
        code == if Answer(old(state.store), body) == 1 then 201 else 409
      ensures LosesReply(fate, req) && Outbox.Unlocked(old(state.db), req) && TakesFresh(old(state.store), body) ==>
        code == 201
    {
      Submits(req, body);
      var error, _ := ReserveStock(req, body, fate);
      if error == InsufficientStock {
        return 409;
      }
      if error != NoError {
        return 500;
      }
      var ok := WriteRows(req, body, fate);
      return if ok then 201 else 500;
    }

    /** The order's rows come from this request's transaction. */
    predicate Inserted(req: nat, order: string)
      reads this
    {
      order in state.db.origin && state.db.origin[order] == req
    }

    lemma CreatedIsStored(req: nat, body: Submission)
      requires IsAt(req, body, Replied(201))
      ensures body.order in state.db.rows && body.order in state.db.outbox
      ensures Inserted(req, body.order) ==>
        Keeps(state.db.rows[body.order].body, body) && Carries(state.db.outbox[body.order].payload, body)
    {
      Checkout.CreatedMeansStored(steps, req);
      Reachable();
      if Inserted(req, body.order) {
        Checkout.WinnerIsStored(state, req, body.order);
      }
    }

    method Submits(req: nat, body: Submission)
      requires Valid() && req !in state.requests && Pipeline.Valid(body)
      modifies this
      ensures IsAt(req, body, Idle) && state.requests[req].tries == [] && req !in state.db.writers
      ensures old(steps) <= steps && state.store == old(state.store) && state.db == old(state.db)
    {
      Reachable();
      assert WriterFromRequest(state, req);
      Do(Submit(req, body));
    }

    // ----- the outbox relay -----

    /** The relay's attempt has reached a phase. */
    ghost predicate RelayAt(rel: nat, id: string, phase: Outbox.RelayPhase, accepted: bool)
      reads this
    {
      Valid() && rel in state.db.attempts && state.db.attempts[rel] == Outbox.Attempt(id, phase, accepted)
    }

    method RelayWaits(rel: nat, schedule: seq<Step>, ghost id: string, ghost phase: Outbox.RelayPhase,
                      ghost accepted: bool)
      requires RelayAt(rel, id, phase, accepted)
      modifies this
      ensures RelayAt(rel, id, phase, accepted) && old(steps) <= steps
      ensures id in state.db.outbox && old(state.pay.topic) <= state.pay.topic
    {
      Others(schedule, OfRelay(rel));
      Reachable();
      assert Outbox.AttemptAgrees(state.db, state.db.attempts[rel]);
    }

    method Selects(rel: nat, id: string)
      requires Valid() && rel !in state.db.attempts && Outbox.Available(state.db, id)
      requires forall other :: other in state.db.outbox && Outbox.Available(state.db, other) ==>
        state.db.outbox[id].createdAt <= state.db.outbox[other].createdAt
      modifies this
      ensures RelayAt(rel, id, Outbox.Holding, false) && old(steps) <= steps
      ensures state.pay == old(state.pay) && state.db.outbox == old(state.db.outbox)
    {
      Do(Relay(Outbox.Select(rel, id)));
    }

    /** The publish call: accepted or not by the topic, and reported or not. */
    method PublishesRow(rel: nat, ghost id: string, accepted: bool, reported: bool)
      requires RelayAt(rel, id, Outbox.Holding, false) && (reported ==> accepted) && id in state.db.outbox
      modifies this
      ensures RelayAt(rel, id, if reported then Outbox.Acked else Outbox.Refused, accepted) && old(steps) <= steps
      ensures var p := old(state.db.outbox[id].payload);
        state.pay.topic == old(state.pay.topic) +
          if !accepted then []
          else [Payment.Post(Event(OrderPlaced, p.user, p.order), old(state.pay.now), Payment.FromRelay(rel))]
    {
      Do(RelayPublish(rel, accepted, reported));
    }

    method RelayRollsBack(rel: nat, ghost id: string, ghost phase: Outbox.RelayPhase, ghost accepted: bool)
      requires RelayAt(rel, id, phase, accepted) && phase != Outbox.Done && phase != Outbox.Undone
      modifies this
      ensures RelayAt(rel, id, Outbox.Undone, accepted) && old(steps) <= steps
      ensures state.pay == old(state.pay)
    {
      Do(Relay(Outbox.RelayAbort(rel)));
    }

    method MarksRow(rel: nat, ghost id: string)
      requires RelayAt(rel, id, Outbox.Acked, true)
      modifies this
      ensures RelayAt(rel, id, Outbox.Marked, true) && old(steps) <= steps
      ensures state.pay == old(state.pay)
    {
      Do(Relay(Outbox.Mark(rel)));
    }

    method RelayCommits(rel: nat, ghost id: string)
      requires RelayAt(rel, id, Outbox.Marked, true)
      modifies this
      ensures RelayAt(rel, id, Outbox.Done, true) && old(steps) <= steps
      ensures id in state.db.outbox && state.db.outbox[id].published && state.pay == old(state.pay)
    {
      Do(Relay(Outbox.RelayCommit(rel)));
      Reachable();
      assert Outbox.AttemptAgrees(state.db, state.db.attempts[rel]);
    }

    /** Since a length of the topic, the attempt has published this payload. */
    ghost predicate Announced(rel: nat, payload: Payload, since: nat)
      reads this
    {
      exists i :: since <= i < |state.pay.topic| && IsRelayed(state.pay.topic[i], rel, payload)
    }

    /** One relay transaction.  `ok` with work means that the row is published and
        the topic has got its event from this attempt; no work and `ok` that no
        row was available.  A failure leaves the row to be tried again, unless
        just the commit's answer was lost. */
    method PublishNextOutboxEvent(rel: nat, fate: Fate, accepted: bool) returns (hadWork: bool, ok: bool, id: string)
      requires Valid() && rel !in state.db.attempts
      modifies this
      ensures Valid() && old(steps) <= steps
      ensures !hadWork ==> state == old(state)
      ensures !hadWork && ok ==> forall other :: !Outbox.Available(state.db, other)
      ensures hadWork ==>
        rel in state.db.attempts && state.db.attempts[rel].id == id && Outbox.Available(old(state.db), id)
      ensures hadWork ==> forall other :: Outbox.Available(old(state.db), other) ==>
        old(state.db.outbox)[id].createdAt <= old(state.db.outbox)[other].createdAt
      ensures hadWork ==> state.db.attempts[rel].phase == Outbox.Done || state.db.attempts[rel].phase == Outbox.Undone
      ensures hadWork && ok ==> state.db.attempts[rel] == Outbox.Attempt(id, Outbox.Done, true)
      ensures hadWork && ok ==> id in state.db.outbox && state.db.outbox[id].published
      ensures hadWork && ok ==> Announced(rel, old(state.db.outbox[id].payload), old(|state.pay.topic|))
      ensures ok || exists k :: fate.fails(k)
    {
      if fate.fails(0) {
        return false, false, "";
      }
      hadWork, id := Outbox.SelectOldest(state.db);
      if !hadWork {
        return false, true, "";
      }
      Selects(rel, id);
      ok := PublishesSelected(rel, id, fate, accepted);
    }

    /** The rest of the transaction, with the row selected and locked. */
    method PublishesSelected(rel: nat, ghost id: string, fate: Fate, accepted: bool) returns (ok: bool)
      requires RelayAt(rel, id, Outbox.Holding, false) && id in state.db.outbox
      modifies this
      ensures old(steps) <= steps
      ensures RelayAt(rel, id, Outbox.Done, true) || (exists took :: RelayAt(rel, id, Outbox.Undone, took))
      ensures ok ==> RelayAt(rel, id, Outbox.Done, true) && id in state.db.outbox && state.db.outbox[id].published
      ensures ok ==> Announced(rel, old(state.db.outbox[id].payload), old(|state.pay.topic|))
      ensures ok || exists k :: fate.fails(k)
    {
      RelayWaits(rel, fate.others(1), id, Outbox.Holding, false);
      Checkout.LaterSettles(old(steps), steps);
      if fate.fails(1) {
        PublishesRow(rel, id, accepted, false);
        RelayWaits(rel, fate.others(2), id, Outbox.Refused, accepted);
        RelayRollsBack(rel, id, Outbox.Refused, accepted);
        return false;
      }
      PublishesRow(rel, id, true, true);
      ghost var at := |state.pay.topic| - 1;
      assert IsRelayed(state.pay.topic[at], rel, old(state.db.outbox[id].payload));
      ok := MarksAndCommits(rel, id, fate);
      assert IsRelayed(state.pay.topic[at], rel, old(state.db.outbox[id].payload));
    }

    /** After an acknowledged publish: mark the row and commit. */
    method MarksAndCommits(rel: nat, ghost id: string, fate: Fate) returns (ok: bool)
      requires RelayAt(rel, id, Outbox.Acked, true)
      modifies this
      ensures old(steps) <= steps
      ensures old(state.pay.topic) <= state.pay.topic
      ensures RelayAt(rel, id, Outbox.Done, true) || RelayAt(rel, id, Outbox.Undone, true)
      ensures ok ==> RelayAt(rel, id, Outbox.Done, true) && id in state.db.outbox && state.db.outbox[id].published
      ensures ok || exists k :: fate.fails(k)
    {
      RelayWaits(rel, fate.others(3), id, Outbox.Acked, true);
      if fate.fails(3) {
        RelayRollsBack(rel, id, Outbox.Acked, true);
        return false;
      }
      MarksRow(rel, id);
      RelayWaits(rel, fate.others(4), id, Outbox.Marked, true);
      if fate.fails(4) {
        RelayRollsBack(rel, id, Outbox.Marked, true);
        return false;
      }
      RelayCommits(rel, id);
      return !fate.fails(5);
    }

    // ----- the status consumer -----

    /** One delivery of a message to the order service.  A success on a confirmation
        makes the order confirmed, on a failed payment it makes it refused, and does
        nothing else; any other event is passed over.  A failed statement may have
        been carried out all the same: `took`.  Without a failure just another
        transaction at the order's row is in the way. */
    method HandleStatusEvent(msg: nat, fails: bool, took: bool) returns (ok: bool)
      requires Valid() && msg < |state.pay.topic|
      modifies this
      ensures Valid() && old(steps) <= steps
      ensures match old(state.pay.topic)[msg].event.kind
        case OrderConfirmed => SetsStatus(old(state), msg, Confirmed, ok, fails && took)
        case PaymentFailed => SetsStatus(old(state), msg, PaymentRefused, ok, fails && took)
        case _ => ok && state == old(state)
      ensures !ok ==> fails || RowLocked(old(state.db), old(state.pay.topic)[msg].event.order)
      ensures state.pay == old(state.pay) && state.store == old(state.store) && state.requests == old(state.requests)
    {
      var kind := state.pay.topic[msg].event.kind;
      if kind != OrderConfirmed && kind != PaymentFailed {
        return true;
      }
      if !Enabled(state, UpdateStatus(msg)) || (fails && !took) {
        return false;
      }
      UpdatesStatus(msg);
      return !fails;
    }

    /** The UPDATE statement. */
    method UpdatesStatus(msg: nat)
      requires Valid() && Enabled(state, UpdateStatus(msg))
      modifies this
      ensures Valid() && old(steps) <= steps
      ensures var e := old(state.pay.topic)[msg].event;
        StatusSet(old(state.db), e.order, if e.kind == OrderConfirmed then Confirmed else PaymentRefused)
      ensures state.pay == old(state.pay) && state.store == old(state.store) && state.requests == old(state.requests)
    {
      Reachable();
      Checkout.EventHasOrder(state, msg);
      Do(UpdateStatus(msg));
    }

    /** Another transaction keeps the order's row locked. */
    ghost predicate RowLocked(db: OrderDb, order: string) {
      exists t :: t in db.writers && Outbox.LocksRow(db.writers[t], order)
    }

    /** On a success the order of the message has the status, and otherwise the
        state is as before, or just the answer was lost. */
    ghost predicate SetsStatus(before: State, msg: nat, status: Status, ok: bool, lost: bool)
      requires msg < |before.pay.topic|
      reads this
    {
      var order := before.pay.topic[msg].event.order;
      if ok then StatusSet(before.db, order, status)
      else state == before || (lost && StatusSet(before.db, order, status))
    }

    /** Compared with the tables before, the order has that status, and nothing
        else is different. */
    ghost predicate StatusSet(before: OrderDb, order: string, status: Status)
      reads this
    {
      && order in before.rows
      && state.db.rows == before.rows[order := before.rows[order].(status := status)]
      && state.db.outbox == before.outbox && state.db.origin == before.origin
      && state.db.writers == before.writers && state.db.attempts == before.attempts
    }

    // ----- the payment worker -----

    ghost predicate RunAt(run: nat, msg: nat, phase: Payment.Phase)
      reads this
    {
      Valid() && run in state.pay.runs && state.pay.runs[run].msg == msg && state.pay.runs[run].phase == phase
    }

    method RunWaits(run: nat, schedule: seq<Step>, ghost msg: nat, ghost phase: Payment.Phase)
      requires RunAt(run, msg, phase)
      modifies this
      ensures RunAt(run, msg, phase) && old(steps) <= steps && old(state.pay.topic) <= state.pay.topic
    {
      Others(schedule, OfRun(run));
    }

    /** A step of the handler run itself. */
    method AsRun(work: Payment.Step, run: nat)
      requires Valid() && Payment.Enabled(state.pay, work) && !work.Arrive? && !work.Wait?
      modifies this
      ensures Valid() && state.pay == Payment.Apply(old(state.pay), work) && old(steps) <= steps
    {
      Do(Work(work));
    }

    /** The dedup check: SETNX, which may fail with or without taking effect. */
    method Checks(run: nat, ghost msg: nat, fails: bool, lost: bool) returns (seen: bool, ok: bool)
      requires RunAt(run, msg, Payment.Started)
      modifies this
      ensures old(steps) <= steps
      ensures RunAt(run, msg, if !ok then Payment.Failed else if seen then Payment.Skipped else Payment.Claimed)
      ensures ok == !fails && (ok ==> seen == Payment.ClaimLive(old(state.pay), msg))
      ensures ok && !seen ==> Payment.OwnsClaim(state.pay, run)
      ensures (fails && lost) || (ok && !seen) ==> Payment.ClaimLive(state.pay, msg)
      ensures seen || (fails && !lost) ==> state.pay.claims == old(state.pay.claims)
      ensures state.pay.claims - {msg} == old(state.pay.claims) - {msg}
      ensures state.pay.topic == old(state.pay.topic)
    {
      if fails {
        if lost {
          AsRun(Payment.CheckLost(run), run);
        } else {
          AsRun(Payment.CheckFailed(run), run);
        }
        return false, false;
      }
      seen := Payment.ClaimLive(state.pay, state.pay.runs[run].msg);
      ok := true;
      AsRun(Payment.Check(run), run);
    }

    /** The run has published an outcome for the order and user of its message,
        and was told so. */
    ghost predicate Answered(run: nat, msg: nat, kind: Kind)
      reads this
    {
      && msg < |state.pay.topic| && run in state.pay.runs && state.pay.runs[run].post.Some?
      && var i := state.pay.runs[run].post.value;
      && i < |state.pay.topic| && Payment.Reported(state.pay.topic[i])
      && state.pay.topic[i].event == Event(kind, state.pay.topic[msg].event.user, state.pay.topic[msg].event.order)
    }

    method Pays(run: nat, ghost msg: nat, kind: Kind, accepted: bool, reported: bool)
      requires RunAt(run, msg, Payment.Claimed) && IsOutcome(kind) && (reported ==> accepted)
      modifies this
      ensures RunAt(run, msg, if reported then Payment.Paid else Payment.Unpaid) && old(steps) <= steps
      ensures reported && msg < |old(state.pay.topic)| ==> Answered(run, msg, kind)
    {
      AsRun(Payment.Pay(run, kind, accepted, reported), run);
    }

    method Unclaims(run: nat, ghost msg: nat, done: bool)
      requires RunAt(run, msg, Payment.Unpaid)
      modifies this
      ensures RunAt(run, msg, Payment.Failed) && old(steps) <= steps
      ensures done ==> msg !in state.pay.claims
    {
      AsRun(Payment.Unclaim(run, done), run);
    }

    method Receives(run: nat, msg: nat)
      requires Valid() && Payment.Enabled(state.pay, Payment.Receive(run, msg))
      modifies this
      ensures RunAt(run, msg, Payment.Started) && old(steps) <= steps
      ensures state.pay.topic == old(state.pay.topic)
    {
      AsRun(Payment.Receive(run, msg), run);
    }

    /** One delivery of a message to the payment worker.  `declined` is the
        simulated payment failure.  A success means that this run's outcome was
        acknowledged, or that the message was found claimed.  When publishing
        failed and the unclaim did not, the claim is gone. */
    method HandlePayment(run: nat, msg: nat, declined: bool, accepted: bool, fate: Fate) returns (ok: bool)
      requires Valid() && run !in state.pay.runs && Payment.Retained(state.pay, msg)
      modifies this
      ensures Valid() && old(steps) <= steps
      ensures old(state.pay.topic)[msg].event.kind != OrderPlaced ==> ok && state == old(state)
      ensures old(state.pay.topic)[msg].event.kind == OrderPlaced ==>
        if ok then RunAt(run, msg, Payment.Paid) || RunAt(run, msg, Payment.Skipped)
        else RunAt(run, msg, Payment.Failed)
      ensures ok && RunAt(run, msg, Payment.Paid) ==>
        Answered(run, msg, if declined then PaymentFailed else OrderConfirmed)
      ensures !ok && !fate.fails(0) && !fate.fails(3) ==> msg !in state.pay.claims
      ensures !fate.fails(0) && !fate.fails(2) ==> ok
    {
      if state.pay.topic[msg].event.kind != OrderPlaced {
        return true;
      }
      Receives(run, msg);
      RunWaits(run, fate.others(0), msg, Payment.Started);
      var seen, checked := Checks(run, msg, fate.fails(0), fate.fails(1));
      if !checked {
        return false;
      }
      if seen {
        return true;
      }
      ok := PaysOrUnclaims(run, msg, if declined then PaymentFailed else OrderConfirmed, accepted, fate);
    }

    /** The publication, and the claim given back if it is not acknowledged. */
    method PaysOrUnclaims(run: nat, ghost msg: nat, kind: Kind, accepted: bool, fate: Fate) returns (ok: bool)
      requires RunAt(run, msg, Payment.Claimed) && IsOutcome(kind) && msg < |state.pay.topic|
      modifies this
      ensures old(steps) <= steps && RunAt(run, msg, if ok then Payment.Paid else Payment.Failed)
      ensures ok ==> Answered(run, msg, kind)
      ensures !ok && !fate.fails(3) ==> msg !in state.pay.claims
      ensures ok == !fate.fails(2)
    {
      RunWaits(run, fate.others(1), msg, Payment.Claimed);
      if !fate.fails(2) {
        Pays(run, msg, kind, true, true);
        return true;
      }
      Pays(run, msg, kind, accepted, false);
      RunWaits(run, fate.others(2), msg, Payment.Unpaid);
      Unclaims(run, msg, !fate.fails(3));
      return false;
    }
  }
}
