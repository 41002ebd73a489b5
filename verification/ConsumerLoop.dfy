/** The consumer's receiving loop and its goroutines, as they run.  Between any
    two operations of one of them the others may take any steps. */
module ConsumerLoop {
  import opened Consumer

  datatype Owner = MainLoop | Goroutine(w: nat)

  function OwnerOf(step: Step): set<Owner> {
    match step
    case Cancel => {}
    case HandlerReturns(w, _) => {Goroutine(w)}
    case DeleteReturns(w, _) => {Goroutine(w)}
    case Release(w) => {Goroutine(w)}
    case Finish(w) => {Goroutine(w)}
    case _ => {MainLoop}
  }

  /** What the steps of the others leave alone. */
  predicate SameOwn(s: State, t: State, owner: Owner) {
    match owner
    case MainLoop => s.loop == t.loop && s.batches == t.batches && |s.workers| == |t.workers|
    case Goroutine(w) => w < |s.workers| ==> w < |t.workers| && t.workers[w] == s.workers[w]
  }

  lemma ForeignKeepsOwn(s: State, step: Step, concurrency: nat, owner: Owner)
    requires Enabled(s, step, concurrency) && owner !in OwnerOf(step)
    ensures SameOwn(s, Apply(s, step, concurrency), owner)
  {
  }

  lemma {:induction false} RunSnoc(s: State, steps: seq<Step>, step: Step, concurrency: nat)
    requires IsRun(s, steps, concurrency) && Enabled(After(s, steps, concurrency), step, concurrency)
    ensures IsRun(s, steps + [step], concurrency)
    ensures After(s, steps + [step], concurrency) == Apply(After(s, steps, concurrency), step, concurrency)
    decreases |steps|
  {
    if steps != [] {
      RunSnoc(Apply(s, steps[0], concurrency), steps[1..], step, concurrency);
      assert (steps + [step])[1..] == steps[1..] + [step];
    }
  }

  /** How one call of ReceiveMessage ends; after an error, `stop` says which way
      the pause ends if the shutdown comes during it. */
  datatype Poll = Arrived(count: nat) | Failed(stop: bool)

  /** The sizes of the batches received. */
  function Sizes(batches: seq<seq<Receipt>>): seq<nat> {
    if batches == [] then [] else Sizes(batches[..|batches| - 1]) + [|batches[|batches| - 1]|]
  }

  /** The sizes of the batches that polls bring. */
  function Brought(polls: seq<Poll>): seq<nat> {
    if polls == [] then []
    else
      var last := polls[|polls| - 1];
      Brought(polls[..|polls| - 1]) + if last.Arrived? then [last.count] else []
  }

  lemma BroughtNext(polls: seq<Poll>, k: nat)
    requires k < |polls|
    ensures Brought(polls[..k + 1]) == Brought(polls[..k]) + if polls[k].Arrived? then [polls[k].count] else []
  {
    assert polls[..k + 1][..k] == polls[..k];
  }

  /** Handing out a message leaves the sizes as they are. */
  lemma {:induction false} SizesStay(batches: seq<seq<Receipt>>, b: nat, batch: seq<Receipt>)
    requires b < |batches| && |batch| == |batches[b]|
    ensures Sizes(batches[b := batch]) == Sizes(batches)
  {
    var after := batches[b := batch];
    if b == |batches| - 1 {
      assert after[..|after| - 1] == batches[..|batches| - 1];
    } else {
      SizesStay(batches[..|batches| - 1], b, batch);
      assert after[..|after| - 1] == batches[..|batches| - 1][b := batch];
    }
  }

  class Queue {
    const concurrency: nat
    var state: State
    ghost var steps: seq<Step>

    ghost predicate Valid()
      reads this
    {
      IsRun(START, steps, concurrency) && state == After(START, steps, concurrency)
    }

    constructor (concurrency: nat)
      ensures Valid() && state == START && this.concurrency == concurrency
    {
      this.concurrency := concurrency;
      state, steps := START, [];
    }

    lemma Reachable()
      requires Valid()
      ensures Inv(state, concurrency)
    {
      InvHolds(START, steps, concurrency);
    }

    method Do(step: Step)
      requires Valid() && Enabled(state, step, concurrency)
      modifies this
      ensures Valid() && state == Apply(old(state), step, concurrency)
    {
      RunSnoc(START, steps, step, concurrency);
      state := Apply(state, step, concurrency);
      steps := steps + [step];
    }

    method Others(schedule: seq<Step>, owner: Owner)
      requires Valid()
      modifies this
      ensures Valid() && SameOwn(old(state), state, owner)
    {
      for k := 0 to |schedule|
        invariant Valid() && SameOwn(old(state), state, owner)
      {
        if owner !in OwnerOf(schedule[k]) && Enabled(state, schedule[k], concurrency) {
          ForeignKeepsOwn(state, schedule[k], concurrency, owner);
          Do(schedule[k]);
        }
      }
    }

    // ----- the receiving loop -----

    /** Every message received so far has been given to a goroutine. */
    ghost predicate AllHanded()
      reads this
    {
      forall batch: nat, place: nat :: HasPlace(state.batches, batch, place) ==> state.batches[batch][place].Handed?
    }

    lemma NoneIsLeft()
      requires Valid() && !state.loop.Handing? && !state.loop.TokenTaken?
      ensures AllHanded()
    {
      Reachable();
      forall batch: nat, place: nat | HasPlace(state.batches, batch, place)
        ensures state.batches[batch][place].Handed?
      {
        assert ReceiptAgrees(state, batch, place);
      }
    }

    /** The messages the loop has still to hand out. */
    function Left(): nat
      reads this
    {
      match state.loop
      case Handing(batch, place) => if HasPlace(state.batches, batch, place) then |state.batches[batch]| - place else 0
      case _ => 0
    }

    /** One message: a token, then a goroutine. */
    method HandsOutNext()
      requires Valid() && state.loop.Handing? && state.tokens < concurrency
      modifies this
      ensures Valid() && (state.loop.Handing? || state.loop == Checking) && Left() < old(Left())
      ensures |state.workers| == |old(state.workers)| + 1 && state.tokens == old(state.tokens) + 1
      ensures Sizes(state.batches) == Sizes(old(state.batches))
    {
      Reachable();
      Do(TakeToken);
      ghost var b, p := state.loop.batch, state.loop.place;
      SizesStay(state.batches, b, state.batches[b][p := Handed(|state.workers|)]);
      Do(Spawn);
    }

    /** The loop over a batch.  It gets to the end, or blocks with all tokens taken. */
    method HandsOut(others: nat -> seq<Step>)
      requires Valid() && (state.loop.Handing? || state.loop == Checking)
      modifies this
      ensures Valid()
      ensures (state.loop == Checking && AllHanded()) || (state.loop.Handing? && state.tokens >= concurrency)
      ensures Sizes(state.batches) == Sizes(old(state.batches))
    {
      var k := 0;
      while state.loop.Handing?
        invariant Valid() && (state.loop.Handing? || state.loop == Checking)
        invariant Sizes(state.batches) == Sizes(old(state.batches))
        decreases Left()
      {
        Others(others(k), MainLoop);
        if state.tokens >= concurrency {
          return;
        }
        HandsOutNext();
        k := k + 1;
      }
      NoneIsLeft();
    }

    /** Where a turn of the loop can end: at the top again, on its way out, or
        blocked on the semaphore. */
    ghost predicate TurnOver()
      reads this
    {
      && Valid()
      && (state.loop == Checking || state.loop == Draining || (state.loop.Handing? && state.tokens >= concurrency))
      && (state.loop == Draining ==> state.cancelled)
    }

    /** A failed poll: after a shutdown it ends the loop, and otherwise there is a
        pause, which the shutdown may end. */
    method AfterError(stop: bool, others: seq<Step>)
      requires Valid() && state.loop == Receiving
      modifies this
      ensures TurnOver() && !state.loop.Handing? && state.batches == old(state.batches)
      ensures state.loop == Draining <==> old(state.cancelled) || (stop && state.cancelled)
      ensures old(state.cancelled) ==> state.workers == old(state.workers)
    {
      Do(ReceiveFails);
      if state.loop == Draining {
        return;
      }
      Others(others, MainLoop);
      Do(PauseEnds(stop && state.cancelled));
    }

    method AfterArrival(count: nat, others: nat -> seq<Step>)
      requires Valid() && state.loop == Receiving && count <= BATCH_LIMIT
      modifies this
      ensures TurnOver() && state.loop != Draining
      ensures Sizes(state.batches) == Sizes(old(state.batches)) + [count]
      ensures state.loop == Checking ==> AllHanded()
    {
      NoneAreHanded(count);
      assert (state.batches + [NoneHanded(count)])[..|state.batches|] == state.batches;
      Do(Receive(count));
      HandsOut(others);
    }

    /** One turn.  A shutdown that has been asked for ends the loop; otherwise the
        queue is polled, and what arrives is one batch, of just that size. */
    method Turn(poll: Poll, others: nat -> seq<Step>) returns (polled: bool)
      requires Valid() && state.loop == Checking && (poll.Arrived? ==> poll.count <= BATCH_LIMIT)
      modifies this
      ensures TurnOver() && polled == !old(state.cancelled)
      ensures !polled ==> state.loop == Draining && state.batches == old(state.batches)
      ensures polled ==> Sizes(state.batches) == Sizes(old(state.batches)) + if poll.Arrived? then [poll.count] else []
      ensures polled && poll.Failed? && poll.stop && state.cancelled ==> state.loop == Draining
      ensures polled && poll.Arrived? ==> state.loop != Draining && (state.loop == Checking ==> AllHanded())
    {
      Do(Check);
      if state.loop == Draining {
        return false;
      }
      Others(others(0), MainLoop);
      match poll {
        case Failed(stop) => AfterError(stop, others(1));
        case Arrived(count) => AfterArrival(count, others);
      }
      return true;
    }

    /** wg.Wait(): it ends when every goroutine is gone. */
    method Drains(others: seq<Step>) returns (returned: bool)
      requires Valid() && state.loop == Draining
      modifies this
      ensures Valid() && returned == (state.loop == Returned) && state.batches == old(state.batches)
      ensures !returned ==> state.loop == Draining && !AllGone(state)
    {
      Others(others, MainLoop);
      if AllGone(state) {
        Do(DrainEnds);
        return true;
      }
      return false;
    }

    /** The loop has stopped polling for good, or for want of a token. */
    ghost predicate Stopped()
      reads this
    {
      state.loop == Draining || state.loop == Returned || (state.loop.Handing? && state.tokens >= concurrency)
    }

    /** The loop, for as many polls as given.  It makes them all, and receives just
        what they bring, unless a shutdown or the semaphore stops it.  If it returns
        then a shutdown was asked for, no goroutine is left, every message was
        handed out and no token is held. */
    method Run(polls: seq<Poll>, others: nat -> seq<Step>) returns (returned: bool, made: nat)
      requires Valid() && state.loop == Checking
      requires forall k :: 0 <= k < |polls| && polls[k].Arrived? ==> polls[k].count <= BATCH_LIMIT
      modifies this
      ensures Valid() && returned == (state.loop == Returned)
      ensures made <= |polls| && Sizes(state.batches) == Sizes(old(state.batches)) + Brought(polls[..made])
      ensures made < |polls| ==> Stopped()
      ensures returned ==> state.cancelled && AllGone(state) && AllHanded() && state.tokens == 0
      ensures !returned && state.loop != Checking ==>
        (state.loop == Draining && !AllGone(state)) || (state.loop.Handing? && state.tokens >= concurrency)
    {
      made := 0;
      var polled := true;
      while polled && made < |polls| && state.loop == Checking
        invariant TurnOver() && made <= |polls| && (!polled ==> state.loop == Draining)
        invariant Sizes(state.batches) == Sizes(old(state.batches)) + Brought(polls[..made])
        decreases |polls| - made, polled
      {
        Others(others(made), MainLoop);
        polled := Turn(polls[made], others);
        if polled {
          BroughtNext(polls, made);
          made := made + 1;
        }
      }
      if state.loop != Draining {
        return false, made;
      }
      returned := Drains(others(made));
      if returned {
        ReturnsDrained(steps, concurrency);
      }
    }

    // ----- a goroutine -----

    ghost predicate WorkerAt(w: nat, phase: Phase)
      reads this
    {
      Valid() && At(state, w, phase)
    }

    /** The goroutine of one message: the handler, the delete after a success, and
        the token given back in every case. */
    method HandleMessage(w: nat, ok: bool, deleted: bool, others: nat -> seq<Step>)
      requires WorkerAt(w, Handling)
      modifies this
      ensures WorkerAt(w, Gone)
      ensures state.workers[w].result == (if ok then Success else Failure)
      ensures state.workers[w].deleted == (ok && deleted)
    {
      Others(others(0), Goroutine(w));
      Reachable();
      assert WorkerAgrees(state, w);
      Do(HandlerReturns(w, ok));
      Others(others(1), Goroutine(w));
      if ok {
        Do(DeleteReturns(w, deleted));
      }
      Ends(w, others);
    }

    /** The deferred calls: the token back to the semaphore, then wg.Done. */
    method Ends(w: nat, others: nat -> seq<Step>)
      requires WorkerAt(w, Releasing)
      modifies this
      ensures WorkerAt(w, Gone)
      ensures state.workers[w].result == old(state.workers[w].result)
      ensures state.workers[w].deleted == old(state.workers[w].deleted)
    {
      Others(others(2), Goroutine(w));
      Do(Release(w));
      Others(others(3), Goroutine(w));
      Do(Finish(w));
    }
  }
}
