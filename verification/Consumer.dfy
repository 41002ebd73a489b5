/** The SQS consumer: one receiving loop, a semaphore, and a goroutine for every
    received message. */
module Consumer {

  const BATCH_LIMIT: nat := 10

  /** The receiving loop: about to check for shutdown, waiting for the queue,
      pausing after an error, handing out a message of a batch (before and after
      taking a token), waiting for the goroutines, or returned. */
  datatype Loop =
    | Checking
    | Receiving
    | Pausing
    | Handing(batch: nat, place: nat)
    | TokenTaken(batch: nat, place: nat)
    | Draining
    | Returned

  datatype Phase = Handling | Deleting | Releasing | Released | Gone

  datatype Result = Pending | Success | Failure

  /** The goroutine of the message at a place of a batch. */
  datatype Worker = Worker(batch: nat, place: nat, phase: Phase, result: Result, deleted: bool)

  /** What became of a received message: which goroutine got it. */
  datatype Receipt = Unhanded | Handed(worker: nat)

  datatype State = State(loop: Loop, cancelled: bool, batches: seq<seq<Receipt>>, workers: seq<Worker>, tokens: int)

  const START := State(Checking, false, [], [], 0)

  datatype Step =
    | Cancel
    | Check
    | Receive(count: nat)
    | ReceiveFails
    | PauseEnds(stop: bool)
    | TakeToken
    | Spawn
    | HandlerReturns(w: nat, ok: bool)
    | DeleteReturns(w: nat, done: bool)
    | Release(w: nat)
    | Finish(w: nat)
    | DrainEnds

  predicate At(s: State, w: nat, phase: Phase) {
    w < |s.workers| && s.workers[w].phase == phase
  }

  predicate AllGone(s: State) {
    forall w :: 0 <= w < |s.workers| ==> s.workers[w].phase == Gone
  }

  predicate HasPlace(batches: seq<seq<Receipt>>, batch: nat, place: nat) {
    batch < |batches| && place < |batches[batch]|
  }

  predicate Enabled(s: State, step: Step, concurrency: nat) {
    match step
    case Cancel => true
    case Check => s.loop == Checking
    case Receive(count) => s.loop == Receiving && count <= BATCH_LIMIT
    case ReceiveFails => s.loop == Receiving
    case PauseEnds(stop) => s.loop == Pausing && (stop ==> s.cancelled)
    case TakeToken => s.loop.Handing? && s.tokens < concurrency
    case Spawn => s.loop.TokenTaken? && HasPlace(s.batches, s.loop.batch, s.loop.place)
    case HandlerReturns(w, _) => At(s, w, Handling)
    case DeleteReturns(w, _) => At(s, w, Deleting)
    case Release(w) => At(s, w, Releasing)
    case Finish(w) => At(s, w, Released)
    case DrainEnds => s.loop == Draining && AllGone(s)
  }

  function NoneHanded(count: nat): seq<Receipt> {
    if count == 0 then [] else NoneHanded(count - 1) + [Unhanded]
  }

  /** On to a place of a batch, or back to the top after its last message. */
  function OnTo(batches: seq<seq<Receipt>>, batch: nat, place: nat): Loop {
    if HasPlace(batches, batch, place) then Handing(batch, place) else Checking
  }

  function Set(s: State, w: nat, worker: Worker): State
    requires w < |s.workers|
  {
    s.(workers := s.workers[w := worker])
  }

  function Apply(s: State, step: Step, concurrency: nat): State
    requires Enabled(s, step, concurrency)
  {
    match step
    case Cancel => s.(cancelled := true)
    case Check => s.(loop := if s.cancelled then Draining else Receiving)
    case Receive(count) =>
      var batches := s.batches + [NoneHanded(count)];
      s.(batches := batches, loop := OnTo(batches, |s.batches|, 0))
    case ReceiveFails => s.(loop := if s.cancelled then Draining else Pausing)
    case PauseEnds(stop) => s.(loop := if stop then Draining else Checking)
    case TakeToken => s.(tokens := s.tokens + 1, loop := TokenTaken(s.loop.batch, s.loop.place))
    case Spawn =>
      var b, p := s.loop.batch, s.loop.place;
      s.(batches := s.batches[b := s.batches[b][p := Handed(|s.workers|)]],
         workers := s.workers + [Worker(b, p, Handling, Pending, false)],
         loop := OnTo(s.batches, b, p + 1))
    case HandlerReturns(w, ok) =>
      Set(s, w, s.workers[w].(phase := if ok then Deleting else Releasing, result := if ok then Success else Failure))
    case DeleteReturns(w, done) => Set(s, w, s.workers[w].(phase := Releasing, deleted := done))
    case Release(w) => Set(s.(tokens := s.tokens - 1), w, s.workers[w].(phase := Released))
    case Finish(w) => Set(s, w, s.workers[w].(phase := Gone))
    case DrainEnds => s.(loop := Returned)
  }

  predicate IsRun(s: State, steps: seq<Step>, concurrency: nat)
    decreases |steps|
  {
    steps == [] ||
    (Enabled(s, steps[0], concurrency) && IsRun(Apply(s, steps[0], concurrency), steps[1..], concurrency))
  }

  function After(s: State, steps: seq<Step>, concurrency: nat): State
    requires IsRun(s, steps, concurrency)
    decreases |steps|
  {
    if steps == [] then s else After(Apply(s, steps[0], concurrency), steps[1..], concurrency)
  }

  // ----- tokens -----

  predicate HoldsToken(w: Worker) {
    w.phase == Handling || w.phase == Deleting || w.phase == Releasing
  }

  function Holding(workers: seq<Worker>): nat {
    if workers == [] then 0
    else Holding(workers[..|workers| - 1]) + if HoldsToken(workers[|workers| - 1]) then 1 else 0
  }

  function Running(workers: seq<Worker>): nat {
    if workers == [] then 0
    else Running(workers[..|workers| - 1]) + if workers[|workers| - 1].phase == Handling then 1 else 0
  }

  /** Every token taken is held by a goroutine, or by the loop between taking it
      and starting one. */
  ghost predicate TokensAgree(s: State, concurrency: nat) {
    && s.tokens == Holding(s.workers) + (if s.loop.TokenTaken? then 1 else 0)
    && s.tokens <= concurrency
  }

  lemma {:induction false} HoldingAfterSet(workers: seq<Worker>, w: nat, worker: Worker)
    requires w < |workers|
    ensures Holding(workers[w := worker]) ==
      Holding(workers) + (if HoldsToken(worker) then 1 else 0) - (if HoldsToken(workers[w]) then 1 else 0)
  {
    var after := workers[w := worker];
    if w == |workers| - 1 {
      assert after[..|after| - 1] == workers[..|workers| - 1];
    } else {
      HoldingAfterSet(workers[..|workers| - 1], w, worker);
      assert after[..|after| - 1] == workers[..|workers| - 1][w := worker];
    }
  }

  lemma {:induction false} RunningWithinHolding(workers: seq<Worker>)
    ensures Running(workers) <= Holding(workers)
  {
    if workers != [] {
      RunningWithinHolding(workers[..|workers| - 1]);
    }
  }

  lemma StepKeepsTokens(s: State, step: Step, concurrency: nat)
    requires TokensAgree(s, concurrency) && Enabled(s, step, concurrency)
    ensures TokensAgree(Apply(s, step, concurrency), concurrency)
  {
    if step.HandlerReturns? || step.DeleteReturns? || step.Release? || step.Finish? {
      WorkerKeepsTokens(s, step, concurrency);
    } else if step.Spawn? {
      var after := Apply(s, step, concurrency);
      assert after.workers[..|after.workers| - 1] == s.workers;
    }
  }

  lemma WorkerKeepsTokens(s: State, step: Step, concurrency: nat)
    requires TokensAgree(s, concurrency) && Enabled(s, step, concurrency)
    requires step.HandlerReturns? || step.DeleteReturns? || step.Release? || step.Finish?
    ensures TokensAgree(Apply(s, step, concurrency), concurrency)
  {
    var after := Apply(s, step, concurrency);
    HoldingAfterSet(s.workers, step.w, after.workers[step.w]);
  }

  // ----- messages -----

  /** The message at a place is with the goroutine its receipt names, and with no
      other. */
  ghost predicate WorkerAgrees(s: State, w: nat) {
    w < |s.workers| ==>
      var worker := s.workers[w];
      && HasPlace(s.batches, worker.batch, worker.place)
      && s.batches[worker.batch][worker.place] == Handed(w)
      && (worker.deleted ==> worker.result == Success)
      && (worker.phase == Handling <==> worker.result == Pending)
      && (worker.phase == Deleting ==> worker.result == Success && !worker.deleted)
  }

  /** The place the loop has reached: everything before it is handed out, nothing
      after it. */
  ghost predicate Reached(s: State, batch: nat, place: nat) {
    match s.loop
    case Handing(b, p) => batch < b || (batch == b && place < p)
    case TokenTaken(b, p) => batch < b || (batch == b && place < p)
    case _ => true
  }

  ghost predicate ReceiptAgrees(s: State, batch: nat, place: nat) {
    HasPlace(s.batches, batch, place) ==>
      && (s.batches[batch][place].Handed? <==> Reached(s, batch, place))
      && (s.batches[batch][place].Handed? ==>
            && s.batches[batch][place].worker < |s.workers|
            && s.workers[s.batches[batch][place].worker].batch == batch
            && s.workers[s.batches[batch][place].worker].place == place)
  }

  ghost predicate LoopAgrees(s: State) {
    && (s.loop.Handing? || s.loop.TokenTaken? ==>
          s.loop.batch == |s.batches| - 1 && HasPlace(s.batches, s.loop.batch, s.loop.place))
    && (s.loop == Draining || s.loop == Returned ==> s.cancelled)
    && (s.loop == Returned ==> AllGone(s))
  }

  ghost predicate Inv(s: State, concurrency: nat) {
    && TokensAgree(s, concurrency)
    && LoopAgrees(s)
    && (forall w :: WorkerAgrees(s, w))
    && (forall batch, place :: ReceiptAgrees(s, batch, place))
  }

  lemma {:induction false} NoneAreHanded(count: nat)
    ensures |NoneHanded(count)| == count
    ensures forall k :: 0 <= k < count ==> NoneHanded(count)[k] == Unhanded
  {
    if count > 0 {
      NoneAreHanded(count - 1);
    }
  }

  lemma StepKeepsLoop(s: State, step: Step, concurrency: nat)
    requires Inv(s, concurrency) && Enabled(s, step, concurrency)
    ensures LoopAgrees(Apply(s, step, concurrency))
  {
  }

  lemma StepKeepsWorker(s: State, step: Step, concurrency: nat)
    requires Inv(s, concurrency) && Enabled(s, step, concurrency)
    ensures forall w: nat :: WorkerAgrees(Apply(s, step, concurrency), w)
  {
    forall w: nat ensures WorkerAgrees(Apply(s, step, concurrency), w) {
      assert WorkerAgrees(s, w);
      if step.Spawn? {
        assert ReceiptAgrees(s, s.loop.batch, s.loop.place);
      }
    }
  }

  lemma StepKeepsReceipt(s: State, step: Step, concurrency: nat)
    requires Inv(s, concurrency) && Enabled(s, step, concurrency)
    ensures forall batch: nat, place: nat :: ReceiptAgrees(Apply(s, step, concurrency), batch, place)
  {
    forall batch: nat, place: nat ensures ReceiptAgrees(Apply(s, step, concurrency), batch, place) {
      assert ReceiptAgrees(s, batch, place);
      if step.Receive? {
        NoneAreHanded(step.count);
      }
    }
  }

  lemma StepKeepsInv(s: State, step: Step, concurrency: nat)
    requires Inv(s, concurrency) && Enabled(s, step, concurrency)
    ensures Inv(Apply(s, step, concurrency), concurrency)
  {
    var after := Apply(s, step, concurrency);
    StepKeepsTokens(s, step, concurrency);
    StepKeepsLoop(s, step, concurrency);
    StepKeepsWorker(s, step, concurrency);
    StepKeepsReceipt(s, step, concurrency);
  }

  lemma {:induction false} InvHolds(s: State, steps: seq<Step>, concurrency: nat)
    requires Inv(s, concurrency) && IsRun(s, steps, concurrency)
    ensures Inv(After(s, steps, concurrency), concurrency)
    decreases |steps|
  {
    if steps != [] {
      StepKeepsInv(s, steps[0], concurrency);
      InvHolds(Apply(s, steps[0], concurrency), steps[1..], concurrency);
    }
  }

  /** Handlers at work never outnumber the tokens taken, nor those the limit. */
  lemma ConcurrencyIsBounded(steps: seq<Step>, concurrency: nat)
    requires IsRun(START, steps, concurrency)
    ensures var s := After(START, steps, concurrency);
      Running(s.workers) <= s.tokens <= concurrency
  {
    InvHolds(START, steps, concurrency);
    RunningWithinHolding(After(START, steps, concurrency).workers);
  }

  /** A received message goes to exactly one goroutine, in order of receipt, and
      is deleted only after that goroutine's handler succeeded; once the loop is
      back at the top, or returned, none is left over. */
  lemma EachMessageHandledOnce(steps: seq<Step>, concurrency: nat, batch: nat, place: nat)
    requires IsRun(START, steps, concurrency)
    requires HasPlace(After(START, steps, concurrency).batches, batch, place)
    ensures var s := After(START, steps, concurrency);
      var receipt := s.batches[batch][place];
      && (receipt.Handed? <==> exists w :: 0 <= w < |s.workers| && IsFor(s.workers[w], batch, place))
      && (forall w, v :: (0 <= w < |s.workers| && 0 <= v < |s.workers| &&
                          IsFor(s.workers[w], batch, place) && IsFor(s.workers[v], batch, place)) ==> w == v)
      && (forall w :: 0 <= w < |s.workers| && IsFor(s.workers[w], batch, place) && s.workers[w].deleted ==>
            s.workers[w].result == Success)
      && (!s.loop.Handing? && !s.loop.TokenTaken? ==> receipt.Handed?)
  {
    InvHolds(START, steps, concurrency);
    var s := After(START, steps, concurrency);
    assert ReceiptAgrees(s, batch, place);
    forall w | 0 <= w < |s.workers| && IsFor(s.workers[w], batch, place)
      ensures s.batches[batch][place] == Handed(w)
    {
      assert WorkerAgrees(s, w);
    }
    forall w | 0 <= w < |s.workers| && s.workers[w].deleted ensures s.workers[w].result == Success {
      assert WorkerAgrees(s, w);
    }
    if s.batches[batch][place].Handed? {
      assert IsFor(s.workers[s.batches[batch][place].worker], batch, place);
    }
  }

  predicate IsFor(w: Worker, batch: nat, place: nat) {
    w.batch == batch && w.place == place
  }

  /** Run returns only after a shutdown, with every goroutine gone, every message
      handed out and every token given back, whichever way it left the loop. */
  lemma ReturnsDrained(steps: seq<Step>, concurrency: nat)
    requires IsRun(START, steps, concurrency) && After(START, steps, concurrency).loop == Returned
    ensures var s := After(START, steps, concurrency);
      && s.cancelled && s.tokens == 0 && Running(s.workers) == 0
      && (forall w :: 0 <= w < |s.workers| ==> s.workers[w].phase == Gone && s.workers[w].result != Pending)
      && (forall batch: nat, place: nat :: HasPlace(s.batches, batch, place) ==> s.batches[batch][place].Handed?)
  {
    InvHolds(START, steps, concurrency);
    var s := After(START, steps, concurrency);
    GoneHoldNothing(s.workers);
    RunningWithinHolding(s.workers);
    forall w | 0 <= w < |s.workers| ensures s.workers[w].phase == Gone && s.workers[w].result != Pending {
      assert WorkerAgrees(s, w);
    }
    forall batch: nat, place: nat | HasPlace(s.batches, batch, place) ensures s.batches[batch][place].Handed? {
      assert ReceiptAgrees(s, batch, place);
    }
  }

  lemma {:induction false} GoneHoldNothing(workers: seq<Worker>)
    requires forall w :: 0 <= w < |workers| ==> workers[w].phase == Gone
    ensures Holding(workers) == 0
  {
    if workers != [] {
      GoneHoldNothing(workers[..|workers| - 1]);
    }
  }

  /** With a limit of zero no handler is ever started, and once there is a message
      the loop is blocked for ever. */
  lemma ZeroConcurrencyBlocks(steps: seq<Step>)
    requires IsRun(START, steps, 0)
    ensures var s := After(START, steps, 0);
      && s.workers == []
      && ((exists b :: 0 <= b < |s.batches| && s.batches[b] != []) ==> s.loop.Handing?)
  {
    ZeroKeepsWorkers(START, steps);
    InvHolds(START, steps, 0);
    var s := After(START, steps, 0);
    forall b | 0 <= b < |s.batches| && s.batches[b] != [] ensures s.loop.Handing? {
      assert ReceiptAgrees(s, b, 0);
    }
  }

  lemma {:induction false} ZeroKeepsWorkers(s: State, steps: seq<Step>)
    requires Inv(s, 0) && IsRun(s, steps, 0) && s.workers == []
    ensures After(s, steps, 0).workers == []
    decreases |steps|
  {
    if steps != [] {
      InvHolds(s, [steps[0]], 0);
      assert After(s, [steps[0]], 0) == Apply(s, steps[0], 0);
      ZeroKeepsWorkers(Apply(s, steps[0], 0), steps[1..]);
    }
  }

  // ----- with a limit of one or more nothing is ever stuck -----

  /** Steps a goroutine has still to take. */
  function ToDo(phase: Phase): nat {
    match phase
    case Handling => 4
    case Deleting => 3
    case Releasing => 2
    case Released => 1
    case Gone => 0
  }

  function AllToDo(workers: seq<Worker>): nat {
    if workers == [] then 0 else AllToDo(workers[..|workers| - 1]) + ToDo(workers[|workers| - 1].phase)
  }

  /** Steps of the loop until it is at the top again, or has returned. */
  function LoopToDo(s: State): nat {
    match s.loop
    case Checking => 0
    case Receiving => 1
    case Pausing => 1
    case Draining => 1
    case Returned => 0
    case Handing(b, p) => if HasPlace(s.batches, b, p) then 2 * (|s.batches[b]| - p) else 0
    case TokenTaken(b, p) => if HasPlace(s.batches, b, p) then 2 * (|s.batches[b]| - p) - 1 else 0
  }

  lemma {:induction false} ToDoAfterSet(workers: seq<Worker>, w: nat, worker: Worker)
    requires w < |workers|
    ensures AllToDo(workers[w := worker]) == AllToDo(workers) + ToDo(worker.phase) - ToDo(workers[w].phase)
  {
    var after := workers[w := worker];
    if w == |workers| - 1 {
      assert after[..|after| - 1] == workers[..|workers| - 1];
    } else {
      ToDoAfterSet(workers[..|workers| - 1], w, worker);
      assert after[..|after| - 1] == workers[..|workers| - 1][w := worker];
    }
  }

  /** The next step of a goroutine that is not gone. */
  function NextOf(s: State, w: nat): Step
    requires w < |s.workers|
  {
    match s.workers[w].phase
    case Handling => HandlerReturns(w, true)
    case Deleting => DeleteReturns(w, true)
    case Releasing => Release(w)
    case Released => Finish(w)
    case Gone => Cancel
  }

  lemma NextIsProgress(s: State, w: nat, concurrency: nat)
    requires w < |s.workers| && s.workers[w].phase != Gone
    ensures Enabled(s, NextOf(s, w), concurrency)
    ensures var after := Apply(s, NextOf(s, w), concurrency);
      AllToDo(after.workers) < AllToDo(s.workers) && LoopToDo(after) == LoopToDo(s)
  {
    ToDoAfterSet(s.workers, w, Apply(s, NextOf(s, w), concurrency).workers[w]);
  }

  /** The next step of the loop, once every goroutine is gone. */
  function NextOfLoop(s: State): Step {
    match s.loop
    case Receiving => Receive(0)
    case Pausing => PauseEnds(false)
    case Draining => DrainEnds
    case Handing(_, _) => TakeToken
    case TokenTaken(_, _) => Spawn
    case _ => Cancel
  }

  lemma LoopIsProgress(s: State, concurrency: nat)
    requires Inv(s, concurrency) && concurrency > 0 && AllGone(s) && s.loop != Checking && s.loop != Returned
    ensures Enabled(s, NextOfLoop(s), concurrency)
    ensures LoopToDo(Apply(s, NextOfLoop(s), concurrency)) < LoopToDo(s)
  {
    GoneHoldNothing(s.workers);
    if s.loop.TokenTaken? {
      var after := Apply(s, Spawn, concurrency);
      assert |after.batches[s.loop.batch]| == |s.batches[s.loop.batch]|;
    }
  }

  predicate AtRest(s: State) {
    s.loop == Checking || s.loop == Returned
  }

  lemma {:induction false} CanRest(s: State, concurrency: nat) returns (steps: seq<Step>)
    requires Inv(s, concurrency) && concurrency > 0
    ensures IsRun(s, steps, concurrency) && AtRest(After(s, steps, concurrency))
    decreases LoopToDo(s), AllToDo(s.workers)
  {
    if AtRest(s) {
      steps := [];
    } else {
      var step := NextOfLoop(s);
      if AllGone(s) {
        LoopIsProgress(s, concurrency);
      } else {
        var w: nat :| w < |s.workers| && s.workers[w].phase != Gone;
        step := NextOf(s, w);
        NextIsProgress(s, w, concurrency);
      }
      StepKeepsInv(s, step, concurrency);
      var rest := CanRest(Apply(s, step, concurrency), concurrency);
      steps := [step] + rest;
      assert steps[1..] == rest;
    }
  }

  lemma {:induction false} RunConcat(s: State, first: seq<Step>, rest: seq<Step>, concurrency: nat)
    requires IsRun(s, first, concurrency) && IsRun(After(s, first, concurrency), rest, concurrency)
    ensures IsRun(s, first + rest, concurrency)
    ensures After(s, first + rest, concurrency) == After(After(s, first, concurrency), rest, concurrency)
    decreases |first|
  {
    if first == [] {
      assert first + rest == rest;
    } else {
      assert (first + rest)[1..] == first[1..] + rest;
      RunConcat(Apply(s, first[0], concurrency), first[1..], rest, concurrency);
    }
  }

  /** The run can be continued until the loop is at the top again or has returned. */
  ghost predicate CanContinue(steps: seq<Step>, concurrency: nat)
    requires IsRun(START, steps, concurrency)
  {
    exists more ::
      IsRun(START, steps + more, concurrency) && AtRest(After(START, steps + more, concurrency))
  }

  /** A message that was received stays received. */
  lemma {:induction false} BatchStays(s: State, steps: seq<Step>, concurrency: nat, b: nat)
    requires IsRun(s, steps, concurrency) && b < |s.batches|
    ensures b < |After(s, steps, concurrency).batches|
    ensures |After(s, steps, concurrency).batches[b]| == |s.batches[b]|
    decreases |steps|
  {
    if steps != [] {
      BatchStays(Apply(s, steps[0], concurrency), steps[1..], concurrency, b);
    }
  }

  lemma {:induction false} RunSplit(s: State, first: seq<Step>, rest: seq<Step>, concurrency: nat)
    requires IsRun(s, first + rest, concurrency)
    ensures IsRun(s, first, concurrency) && IsRun(After(s, first, concurrency), rest, concurrency)
    ensures After(s, first + rest, concurrency) == After(After(s, first, concurrency), rest, concurrency)
    decreases |first|
  {
    if first == [] {
      assert first + rest == rest;
    } else {
      assert (first + rest)[1..] == first[1..] + rest;
      RunSplit(Apply(s, first[0], concurrency), first[1..], rest, concurrency);
    }
  }

  /** The shortest run that is stuck when the limit is zero: one message. */
  lemma StuckAtZero() returns (steps: seq<Step>)
    ensures IsRun(START, steps, 0) && !CanContinue(steps, 0)
  {
    steps := [Check, Receive(1)];
    var s := Apply(START, Check, 0);
    assert steps[1..] == [Receive(1)] && [Receive(1)][1..] == [];
    NoneAreHanded(1);
    var stuck := Apply(s, Receive(1), 0);
    assert After(START, steps, 0) == stuck && |stuck.batches[0]| == 1;
    forall more | IsRun(START, steps + more, 0) ensures !AtRest(After(START, steps + more, 0)) {
      RunSplit(START, steps, more, 0);
      BatchStays(stuck, more, 0, 0);
      ZeroConcurrencyBlocks(steps + more);
    }
  }

  /** Exactly when the consumer can always get on: when its limit is at least one.
      Then every reachable state, whatever it waits for, can reach the top of the
      loop or its return; with a limit of zero one message is enough to stop it. */
  lemma NeverStuckExactly(concurrency: nat)
    ensures concurrency > 0 <==> forall steps :: IsRun(START, steps, concurrency) ==> CanContinue(steps, concurrency)
  {
    if concurrency > 0 {
      forall steps | IsRun(START, steps, concurrency) ensures CanContinue(steps, concurrency) {
        InvHolds(START, steps, concurrency);
        var more := CanRest(After(START, steps, concurrency), concurrency);
        RunConcat(START, steps, more, concurrency);
      }
    } else {
      var steps := StuckAtZero();
    }
  }
}
