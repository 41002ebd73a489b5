/** The order service's retry loop around POST /reserve, and the proof that
    it behaves as one atomic reservation among everybody else's calls. */
module ReserveClient {
  import opened Inventory

  const MAX_ATTEMPTS: nat := 3
  const CLIENT_TIMEOUT_MS: nat := 5_000
  const FIRST_BACKOFF_MS: nat := 100

  datatype Error = NoError | InsufficientStock | Unavailable | Refused | Cancelled

  /** How an attempt ends for the caller: with the script's own answer, with a
      transport error or a 5xx status, or with any other status. */
  datatype Reply = Answered | Broken | OtherStatus

  /** One attempt as the network and the other callers shape it.  `ran` says
      whether the request reached the script; the other steps happen before it,
      between it and the reply, and during the back-off that may follow. */
  datatype Attempt = Attempt(before: seq<Step>, ran: bool, during: seq<Step>, reply: Reply,
                             pause: seq<Step>, cancelled: bool)

  /** Only the script gives an answer, and others only make legal calls. */
  predicate Plausible(a: Attempt) {
    && (a.reply == Answered ==> a.ran)
    && AllLegal(a.before) && AllLegal(a.during) && AllLegal(a.pause)
  }

  predicate AllPlausible(net: seq<Attempt>) {
    |net| == MAX_ATTEMPTS && forall k :: 0 <= k < |net| ==> Plausible(net[k])
  }

  /** Back-off after attempt k, doubling each time. */
  function Backoff(k: nat): nat {
    if k == 0 then FIRST_BACKOFF_MS else 2 * Backoff(k - 1)
  }

  /** The HTTP client gives up on an attempt after its timeout; the pause is the
      back-off, or shorter when the caller's context ends. */
  predicate Timely(net: seq<Attempt>) {
    forall k :: 0 <= k < |net| ==>
      && Elapsed(net[k].before) + Elapsed(net[k].during) <= CLIENT_TIMEOUT_MS
      && Elapsed(net[k].pause) <= Backoff(k)
  }

  // ----- one attempt -----

  function AtScript(s: Store, a: Attempt): Store { After(s, a.before) }

  function AfterScript(s: Store, order: string, item: string, quantity: int, a: Attempt): Store {
    if a.ran then Inventory.Reserve(AtScript(s, a), order, item, quantity).0 else AtScript(s, a)
  }

  function AtReply(s: Store, order: string, item: string, quantity: int, a: Attempt): Store {
    After(AfterScript(s, order, item, quantity, a), a.during)
  }

  /** Units the attempt itself takes from the stock. */
  function OwnUnits(s: Store, order: string, item: string, quantity: int, a: Attempt): int {
    if a.ran && Fresh(AtScript(s, a), order, item, quantity) then quantity else 0
  }

  function AttemptError(s: Store, order: string, item: string, quantity: int, a: Attempt): Error {
    match a.reply
    case Broken => Unavailable
    case OtherStatus => Refused
    case Answered =>
      if Inventory.Reserve(AtScript(s, a), order, item, quantity).1 == 1 then NoError else InsufficientStock
  }

  /** The loop makes another attempt after attempt k. */
  predicate GoesOn(s: Store, order: string, item: string, quantity: int, a: Attempt, k: nat) {
    AttemptError(s, order, item, quantity, a) == Unavailable && k < MAX_ATTEMPTS - 1 && !a.cancelled
  }

  // ----- the whole call -----

  /** Result of a call: the store it leaves, the error it returns, the units its
      own attempts took, and the steps of others that happened meanwhile. */
  datatype Outcome = Outcome(store: Store, error: Error, own: int, others: seq<Step>)

  /** The call from attempt k (counted from 0) to its end. */
  function Call(s: Store, order: string, item: string, quantity: int, net: seq<Attempt>, k: nat): Outcome
    requires |net| == MAX_ATTEMPTS && k < MAX_ATTEMPTS
    decreases MAX_ATTEMPTS - k
  {
    var a := net[k];
    var own := OwnUnits(s, order, item, quantity, a);
    var replied := AtReply(s, order, item, quantity, a);
    var error := AttemptError(s, order, item, quantity, a);
    if error != Unavailable || k == MAX_ATTEMPTS - 1 then
      Outcome(replied, error, own, a.before + a.during)
    else if a.cancelled then
      Outcome(After(replied, a.pause), Cancelled, own, a.before + (a.during + a.pause))
    else
      var rest := Call(After(replied, a.pause), order, item, quantity, net, k + 1);
      rest.(own := own + rest.own, others := a.before + (a.during + a.pause) + rest.others)
  }

  /** The loop as the client runs it, and how many attempts it makes: a broken one
      is followed by another, but for the third and for a caller that gives up in
      the pause.  Under its timeouts the call has the effect of one atomic
      reservation, or of none, among the others' steps. */
  method ReserveWithRetries(redis: Redis, order: string, item: string, quantity: int, net: seq<Attempt>)
    returns (error: Error, ghost call: Outcome, ghost p: nat, ghost made: nat)
    requires AllPlausible(net)
    modifies redis
    ensures Ends(net, 0, made, error)
    ensures call == Call(old(redis.State()), order, item, quantity, net, 0)
    ensures call.error == error && call.store == redis.State()
    ensures Timely(net) && quantity > 0 ==> Atomic(old(redis.State()), call, p, order, item, quantity)
  {
    call := Call(redis.State(), order, item, quantity, net, 0);
    p := 0;
    if Timely(net) && quantity > 0 {
      p := TimelyCallIsAtomic(redis.State(), order, item, quantity, net);
    }
    CallEnds(redis.State(), order, item, quantity, net, 0);
    made :| Ends(net, 0, made, call.error);
    error := RunLoop(redis, order, item, quantity, net);
  }

  /** How a call ends, and after how many attempts: a broken one is followed by
      another, but for the third and for a caller that gives up in the pause. */
  ghost predicate Ends(net: seq<Attempt>, from: nat, made: nat, error: Error)
    requires |net| == MAX_ATTEMPTS
  {
    && from < made <= 3
    && (forall k :: from <= k < made - 1 ==> net[k].reply == Broken && !net[k].cancelled)
    && match net[made - 1].reply
       case Broken => error == (if made == 3 then Unavailable else Cancelled) && (made < 3 ==> net[made - 1].cancelled)
       case OtherStatus => error == Refused
       case Answered => error == NoError || error == InsufficientStock
  }

  lemma {:induction false} CallEnds(s: Store, order: string, item: string, quantity: int, net: seq<Attempt>, k: nat)
    requires |net| == MAX_ATTEMPTS && k < MAX_ATTEMPTS
    ensures exists made: nat :: Ends(net, k, made, Call(s, order, item, quantity, net, k).error)
    decreases MAX_ATTEMPTS - k
  {
    if GoesOn(s, order, item, quantity, net[k], k) {
      var next := After(AtReply(s, order, item, quantity, net[k]), net[k].pause);
      CallEnds(next, order, item, quantity, net, k + 1);
      var error := Call(next, order, item, quantity, net, k + 1).error;
      assert error == Call(s, order, item, quantity, net, k).error;
      var made: nat :| Ends(net, k + 1, made, error);
      assert Ends(net, k, made, error);
    } else {
      assert Ends(net, k, k + 1, Call(s, order, item, quantity, net, k).error);
    }
  }

  method RunLoop(redis: Redis, order: string, item: string, quantity: int, net: seq<Attempt>)
    returns (error: Error)
    requires AllPlausible(net)
    modifies redis
    ensures error == Call(old(redis.State()), order, item, quantity, net, 0).error
    ensures redis.State() == Call(old(redis.State()), order, item, quantity, net, 0).store
  {
    var backoff := FIRST_BACKOFF_MS;
    var attempt := 1;
    error := NoError;
    ghost var start := redis.State();
    while attempt <= MAX_ATTEMPTS
      invariant 1 <= attempt <= MAX_ATTEMPTS && backoff == Backoff(attempt - 1)
      invariant Call(start, order, item, quantity, net, 0).error ==
                Call(redis.State(), order, item, quantity, net, attempt - 1).error
      invariant Call(start, order, item, quantity, net, 0).store ==
                Call(redis.State(), order, item, quantity, net, attempt - 1).store
      decreases MAX_ATTEMPTS - attempt
    {
      var retryable;
      retryable, error := DoReserve(redis, order, item, quantity, net[attempt - 1]);
      if error == NoError {
        return NoError;
      }
      if !retryable || attempt == MAX_ATTEMPTS {
        return error;
      }
      redis.Others(net[attempt - 1].pause);
      if net[attempt - 1].cancelled {
        return Cancelled;
      }
      backoff := backoff * 2;
      attempt := attempt + 1;
    }
  }

  method DoReserve(redis: Redis, order: string, item: string, quantity: int, a: Attempt)
    returns (retryable: bool, error: Error)
    requires Plausible(a)
    modifies redis
    ensures redis.State() == AtReply(old(redis.State()), order, item, quantity, a)
    ensures error == AttemptError(old(redis.State()), order, item, quantity, a)
    ensures retryable <==> a.reply == Broken
    ensures error == Unavailable <==> a.reply == Broken
    ensures error == Refused <==> a.reply == OtherStatus
    ensures error == NoError || error == InsufficientStock <==> a.reply == Answered
  {
    redis.Others(a.before);
    var answer := 0;
    if a.ran {
      answer := redis.RunReserveScript(order, item, quantity);
    }
    redis.Others(a.during);
    match a.reply
    case Broken => return true, Unavailable;
    case OtherStatus => return false, Refused;
    case Answered =>
      if answer == 1 {
        return false, NoError;
      }
      return false, InsufficientStock;
  }

  // ----- the call refines one atomic reservation -----

  /** The reservation was in force after the first p of the others' steps. */
  ghost predicate HeldAt(s: Store, others: seq<Step>, p: nat, order: string) {
    p <= |others| && Live(After(s, others[..p]), order)
  }

  /** Stock was short, and nothing reserved, after the first p of the others' steps. */
  ghost predicate ShortAt(s: Store, others: seq<Step>, p: nat, order: string, item: string, quantity: int) {
    && p <= |others|
    && !Live(After(s, others[..p]), order)
    && StockOf(After(s, others[..p]), item) < quantity
  }

  /** The others' steps with one fresh reservation after the first p of them. */
  ghost predicate OneTakeAt(s: Store, others: seq<Step>, p: nat, order: string, item: string, quantity: int,
                            final: Store)
  {
    && p <= |others|
    && Fresh(After(s, others[..p]), order, item, quantity)
    && final == After(Inventory.Reserve(After(s, others[..p]), order, item, quantity).0, others[p..])
  }

  lemma HeldLater(s: Store, pre: seq<Step>, rest: seq<Step>, p: nat, order: string)
    requires HeldAt(After(s, pre), rest, p, order)
    ensures HeldAt(s, pre + rest, |pre| + p, order)
  {
    AfterConcat(s, pre, rest[..p]);
    assert (pre + rest)[..|pre| + p] == pre + rest[..p];
  }

  lemma ShortLater(s: Store, pre: seq<Step>, rest: seq<Step>, p: nat, order: string, item: string, quantity: int)
    requires ShortAt(After(s, pre), rest, p, order, item, quantity)
    ensures ShortAt(s, pre + rest, |pre| + p, order, item, quantity)
  {
    AfterConcat(s, pre, rest[..p]);
    assert (pre + rest)[..|pre| + p] == pre + rest[..p];
  }

  lemma TakeLater(s: Store, pre: seq<Step>, rest: seq<Step>, p: nat, order: string, item: string, quantity: int,
                  final: Store)
    requires OneTakeAt(After(s, pre), rest, p, order, item, quantity, final)
    ensures OneTakeAt(s, pre + rest, |pre| + p, order, item, quantity, final)
  {
    AfterConcat(s, pre, rest[..p]);
    assert (pre + rest)[..|pre| + p] == pre + rest[..p];
    assert (pre + rest)[|pre| + p..] == rest[p..];
  }

  lemma ElapsedConcat(a: seq<Step>, b: seq<Step>)
    ensures Elapsed(a + b) == Elapsed(a) + Elapsed(b)
    decreases |b|
  {
    if b == [] {
      assert a + b == a;
    } else {
      ElapsedConcat(a, b[..|b| - 1]);
      assert (a + b)[..|a + b| - 1] == a + b[..|b| - 1];
    }
  }

  /** The others' steps of an attempt that come after the script's turn. */
  function Tail(s: Store, order: string, item: string, quantity: int, a: Attempt, k: nat): seq<Step> {
    if AttemptError(s, order, item, quantity, a) == Unavailable && k < MAX_ATTEMPTS - 1
    then a.during + a.pause else a.during
  }

  /** A call is its first attempt and, if the loop goes on, the rest of the call. */
  lemma CallUnfolds(s: Store, order: string, item: string, quantity: int, net: seq<Attempt>, k: nat)
    requires |net| == MAX_ATTEMPTS && k < MAX_ATTEMPTS
    ensures var c := Call(s, order, item, quantity, net, k);
      var a := net[k];
      var tail := Tail(s, order, item, quantity, a, k);
      var next := After(AfterScript(s, order, item, quantity, a), tail);
      if GoesOn(s, order, item, quantity, a, k) then
        var rest := Call(next, order, item, quantity, net, k + 1);
        && c.store == rest.store && c.error == rest.error
        && c.own == OwnUnits(s, order, item, quantity, a) + rest.own
        && c.others == a.before + tail + rest.others
      else
        && c.store == next && c.own == OwnUnits(s, order, item, quantity, a)
        && c.others == a.before + tail
        && (c.error == AttemptError(s, order, item, quantity, a) || c.error == Cancelled)
  {
    var a := net[k];
    AfterConcat(AfterScript(s, order, item, quantity, a), a.during, a.pause);
  }

  /** The others' steps up to the loop's next decision. */
  function Span(s: Store, order: string, item: string, quantity: int, a: Attempt, k: nat): seq<Step> {
    a.before + Tail(s, order, item, quantity, a, k)
  }

  function Delayed(c: Outcome, pre: seq<Step>): Outcome {
    c.(others := pre + c.others)
  }

  /** An attempt that takes nothing leaves no trace of its own. */
  lemma IdleAttempt(s: Store, order: string, item: string, quantity: int, net: seq<Attempt>, k: nat)
    requires quantity > 0 && |net| == MAX_ATTEMPTS && k < MAX_ATTEMPTS
    requires OwnUnits(s, order, item, quantity, net[k]) == 0
    ensures var c := Call(s, order, item, quantity, net, k);
      var pre := Span(s, order, item, quantity, net[k], k);
      if GoesOn(s, order, item, quantity, net[k], k) then
        c == Delayed(Call(After(s, pre), order, item, quantity, net, k + 1), pre)
      else
        && c.others == pre && c.store == After(s, pre) && c.own == 0
        && (c.error == AttemptError(s, order, item, quantity, net[k]) || c.error == Cancelled)
  {
    CallUnfolds(s, order, item, quantity, net, k);
    AfterConcat(s, net[k].before, Tail(s, order, item, quantity, net[k], k));
  }

  /** A reservation that outlives all the steps is unchanged after some of them. */
  lemma StillLive(s: Store, some: seq<Step>, more: seq<Step>, order: string)
    requires Live(s, order) && s.now + Elapsed(some + more) < s.holds[order].expires
    ensures Live(After(s, some), order) && After(s, some).holds[order] == s.holds[order]
    ensures After(s, some).now + Elapsed(more) == s.now + Elapsed(some + more)
  {
    ElapsedConcat(some, more);
    TimeIsElapsed(s, some);
    HoldStays(s, some, order);
  }

  /** A call that takes nothing and keeps finding the reservation. */
  ghost predicate Idle(s: Store, c: Outcome, p: nat, order: string) {
    && c.own == 0
    && c.store == After(s, c.others)
    && Live(c.store, order)
    && c.error != InsufficientStock
    && (c.error == NoError ==> HeldAt(s, c.others, p, order))
  }

  lemma IdleLater(s: Store, pre: seq<Step>, rest: Outcome, q: nat, order: string)
    requires Idle(After(s, pre), rest, q, order)
    ensures Idle(s, Delayed(rest, pre), |pre| + q, order)
  {
    AfterConcat(s, pre, rest.others);
    if rest.error == NoError {
      HeldLater(s, pre, rest.others, q, order);
    }
  }

  /** While the reservation stays in force the rest of the call takes nothing. */
  lemma {:induction false} HeldCallIsIdle(s: Store, order: string, item: string, quantity: int, net: seq<Attempt>,
                                          k: nat)
    returns (p: nat)
    requires AllPlausible(net) && k < MAX_ATTEMPTS && quantity > 0 && Live(s, order)
    requires s.now + Elapsed(Call(s, order, item, quantity, net, k).others) < s.holds[order].expires
    ensures Idle(s, Call(s, order, item, quantity, net, k), p, order)
    decreases MAX_ATTEMPTS - k
  {
    HeldAtScript(s, order, item, quantity, net, k);
    IdleAttempt(s, order, item, quantity, net, k);
    var pre := Span(s, order, item, quantity, net[k], k);
    if GoesOn(s, order, item, quantity, net[k], k) {
      var rest := Call(After(s, pre), order, item, quantity, net, k + 1);
      StillLive(s, pre, rest.others, order);
      var q := HeldCallIsIdle(After(s, pre), order, item, quantity, net, k + 1);
      IdleLater(s, pre, rest, q, order);
      p := |pre| + q;
    } else {
      ConcatEmpty(pre);
      StillLive(s, pre, [], order);
      p := |net[k].before|;
      SplitAt(pre, net[k].before, Tail(s, order, item, quantity, net[k], k));
    }
  }

  lemma HeldAtScript(s: Store, order: string, item: string, quantity: int, net: seq<Attempt>, k: nat)
    requires AllPlausible(net) && k < MAX_ATTEMPTS && quantity > 0 && Live(s, order)
    requires s.now + Elapsed(Call(s, order, item, quantity, net, k).others) < s.holds[order].expires
    ensures Live(AtScript(s, net[k]), order)
    ensures OwnUnits(s, order, item, quantity, net[k]) == 0
    ensures AttemptError(s, order, item, quantity, net[k]) != InsufficientStock
  {
    CallUnfolds(s, order, item, quantity, net, k);
    var others := Call(s, order, item, quantity, net, k).others;
    assert others == net[k].before + others[|net[k].before|..];
    StillLive(s, net[k].before, others[|net[k].before|..], order);
  }

  /** An outcome that either takes nothing, or takes exactly `quantity` units in
      one atomic step after the first p of the others' steps.  Success means the
      reservation was in force during the call; an insufficient-stock answer
      means this call took nothing and stock was short at that moment. */
  ghost predicate Atomic(s: Store, c: Outcome, p: nat, order: string, item: string, quantity: int) {
    && (c.own == 0 || c.own == quantity)
    && (c.own == 0 ==> c.store == After(s, c.others))
    && (c.own == quantity ==> OneTakeAt(s, c.others, p, order, item, quantity, c.store))
    && (c.error == NoError ==> HeldAt(s, c.others, p, order) || (c.own == quantity && Live(c.store, order)))
    && (c.error == InsufficientStock ==> c.own == 0 && ShortAt(s, c.others, p, order, item, quantity))
  }

  lemma AtomicLater(s: Store, pre: seq<Step>, rest: Outcome, c: Outcome, q: nat, order: string, item: string,
                    quantity: int)
    requires quantity > 0 && Atomic(After(s, pre), rest, q, order, item, quantity) && c == Delayed(rest, pre)
    ensures Atomic(s, c, |pre| + q, order, item, quantity)
  {
    if rest.own == 0 {
      AfterConcat(s, pre, rest.others);
    } else {
      TakeLater(s, pre, rest.others, q, order, item, quantity, rest.store);
    }
    if HeldAt(After(s, pre), rest.others, q, order) {
      HeldLater(s, pre, rest.others, q, order);
    }
    if rest.error == InsufficientStock {
      ShortLater(s, pre, rest.others, q, order, item, quantity);
    }
  }

  /** A call from attempt k on that is over before a reservation would expire has
      the effect of at most one atomic reservation. */
  lemma {:induction false} RetryIsAtomic(s: Store, order: string, item: string, quantity: int, net: seq<Attempt>,
                                         k: nat)
    returns (p: nat)
    requires AllPlausible(net) && k < MAX_ATTEMPTS && quantity > 0
    requires Elapsed(Call(s, order, item, quantity, net, k).others) < HOLD_MS
    ensures Atomic(s, Call(s, order, item, quantity, net, k), p, order, item, quantity)
    decreases MAX_ATTEMPTS - k
  {
    p := |net[k].before|;
    if OwnUnits(s, order, item, quantity, net[k]) == 0 && GoesOn(s, order, item, quantity, net[k], k) {
      var pre := IdleStart(s, order, item, quantity, net, k);
      var q := RetryIsAtomic(After(s, pre), order, item, quantity, net, k + 1);
      p := AfterIdle(s, order, item, quantity, net, k, pre, q);
    } else {
      DecidingAttempt(s, order, item, quantity, net, k);
    }
  }

  lemma AfterIdle(s: Store, order: string, item: string, quantity: int, net: seq<Attempt>, k: nat, pre: seq<Step>,
                  q: nat)
    returns (p: nat)
    requires |net| == MAX_ATTEMPTS && k + 1 < MAX_ATTEMPTS && quantity > 0
    requires Call(s, order, item, quantity, net, k) ==
      Delayed(Call(After(s, pre), order, item, quantity, net, k + 1), pre)
    requires Atomic(After(s, pre), Call(After(s, pre), order, item, quantity, net, k + 1), q, order, item, quantity)
    ensures Atomic(s, Call(s, order, item, quantity, net, k), p, order, item, quantity)
  {
    p := |pre| + q;
    AtomicLater(s, pre, Call(After(s, pre), order, item, quantity, net, k + 1),
                Call(s, order, item, quantity, net, k), q, order, item, quantity);
  }

  /** An attempt that takes the units, or is the last. */
  lemma DecidingAttempt(s: Store, order: string, item: string, quantity: int, net: seq<Attempt>, k: nat)
    requires AllPlausible(net) && k < MAX_ATTEMPTS && quantity > 0
    requires OwnUnits(s, order, item, quantity, net[k]) != 0 || !GoesOn(s, order, item, quantity, net[k], k)
    requires Elapsed(Call(s, order, item, quantity, net, k).others) < HOLD_MS
    ensures Atomic(s, Call(s, order, item, quantity, net, k), |net[k].before|, order, item, quantity)
  {
    if OwnUnits(s, order, item, quantity, net[k]) == 0 {
      LastIdleAttempt(s, order, item, quantity, net, k);
    } else {
      TakingAttempt(s, order, item, quantity, net, k);
    }
  }

  /** An attempt that took nothing and is followed by another only delays it. */
  lemma IdleStart(s: Store, order: string, item: string, quantity: int, net: seq<Attempt>, k: nat)
    returns (pre: seq<Step>)
    requires AllPlausible(net) && k < MAX_ATTEMPTS && quantity > 0
    requires OwnUnits(s, order, item, quantity, net[k]) == 0 && GoesOn(s, order, item, quantity, net[k], k)
    ensures var rest := Call(After(s, pre), order, item, quantity, net, k + 1);
      && Call(s, order, item, quantity, net, k) == Delayed(rest, pre)
      && Elapsed(rest.others) <= Elapsed(Call(s, order, item, quantity, net, k).others)
  {
    pre := Span(s, order, item, quantity, net[k], k);
    IdleAttempt(s, order, item, quantity, net, k);
    ElapsedConcat(pre, Call(After(s, pre), order, item, quantity, net, k + 1).others);
  }

  lemma LastIdleAttempt(s: Store, order: string, item: string, quantity: int, net: seq<Attempt>, k: nat)
    requires AllPlausible(net) && k < MAX_ATTEMPTS && quantity > 0
    requires OwnUnits(s, order, item, quantity, net[k]) == 0 && !GoesOn(s, order, item, quantity, net[k], k)
    ensures Atomic(s, Call(s, order, item, quantity, net, k), |net[k].before|, order, item, quantity)
  {
    assert Plausible(net[k]);
    IdleAttempt(s, order, item, quantity, net, k);
    SplitAt(Span(s, order, item, quantity, net[k], k), net[k].before, Tail(s, order, item, quantity, net[k], k));
  }

  /** After the attempt that takes the units nothing more is taken. */
  lemma TakingAttempt(s: Store, order: string, item: string, quantity: int, net: seq<Attempt>, k: nat)
    requires AllPlausible(net) && k < MAX_ATTEMPTS && quantity > 0
    requires OwnUnits(s, order, item, quantity, net[k]) == quantity
    requires Elapsed(Call(s, order, item, quantity, net, k).others) < HOLD_MS
    ensures Atomic(s, Call(s, order, item, quantity, net, k), |net[k].before|, order, item, quantity)
    ensures Call(s, order, item, quantity, net, k).own == quantity
  {
    var a := net[k];
    assert Plausible(a);
    var c := Call(s, order, item, quantity, net, k);
    CallUnfolds(s, order, item, quantity, net, k);
    var taken := AfterScript(s, order, item, quantity, a);
    var tail := Tail(s, order, item, quantity, a, k);
    if GoesOn(s, order, item, quantity, a, k) {
      var rest := Call(After(taken, tail), order, item, quantity, net, k + 1);
      ConcatAssociates(a.before, tail, rest.others);
      TakenStays(taken, a.before, tail, rest.others, order);
      var _ := HeldCallIsIdle(After(taken, tail), order, item, quantity, net, k + 1);
      AfterConcat(taken, tail, rest.others);
      TakeNow(s, a, tail + rest.others, order, item, quantity, c);
    } else {
      ConcatEmpty(tail);
      TakenStays(taken, a.before, tail, [], order);
      TakeNow(s, a, tail, order, item, quantity, c);
    }
  }

  lemma TakeNow(s: Store, a: Attempt, later: seq<Step>, order: string, item: string, quantity: int, c: Outcome)
    requires quantity > 0 && a.ran && Fresh(AtScript(s, a), order, item, quantity)
    requires c.store == After(AfterScript(s, order, item, quantity, a), later)
    requires c.others == a.before + later && c.own == quantity
    requires Live(c.store, order) && c.error != InsufficientStock
    ensures Atomic(s, c, |a.before|, order, item, quantity)
  {
    SplitAt(c.others, a.before, later);
  }

  lemma ConcatAssociates(a: seq<Step>, b: seq<Step>, c: seq<Step>)
    ensures a + b + c == a + (b + c)
  {
  }

  lemma ConcatEmpty(a: seq<Step>)
    ensures a + [] == a
  {
  }

  lemma SplitAt(all: seq<Step>, a: seq<Step>, b: seq<Step>)
    requires all == a + b
    ensures all[..|a|] == a && all[|a|..] == b
  {
  }

  /** A reservation just made outlives the rest of a call. */
  lemma TakenStays(taken: Store, before: seq<Step>, tail: seq<Step>, more: seq<Step>, order: string)
    requires Live(taken, order) && taken.holds[order].expires == taken.now + HOLD_MS
    requires Elapsed(before + (tail + more)) < HOLD_MS
    ensures Live(After(taken, tail), order)
    ensures After(taken, tail).now + Elapsed(more) < After(taken, tail).holds[order].expires
  {
    ElapsedConcat(before, tail + more);
    StillLive(taken, tail, more, order);
  }

  /** The client's timeouts keep every call far shorter than a reservation. */
  lemma {:induction false} CallsAreShort(s: Store, order: string, item: string, quantity: int, net: seq<Attempt>,
                                         k: nat)
    requires |net| == MAX_ATTEMPTS && k < MAX_ATTEMPTS && Timely(net)
    ensures Elapsed(Call(s, order, item, quantity, net, k).others) <= Longest(k)
    decreases MAX_ATTEMPTS - k
  {
    var a := net[k];
    var tail := Tail(s, order, item, quantity, a, k);
    CallUnfolds(s, order, item, quantity, net, k);
    AttemptIsShort(s, order, item, quantity, net, k);
    if GoesOn(s, order, item, quantity, a, k) {
      var next := After(AfterScript(s, order, item, quantity, a), tail);
      CallsAreShort(next, order, item, quantity, net, k + 1);
      ElapsedConcat(a.before + tail, Call(next, order, item, quantity, net, k + 1).others);
    }
  }

  lemma AttemptIsShort(s: Store, order: string, item: string, quantity: int, net: seq<Attempt>, k: nat)
    requires |net| == MAX_ATTEMPTS && k < MAX_ATTEMPTS && Timely(net)
    ensures Elapsed(net[k].before + Tail(s, order, item, quantity, net[k], k)) <= LongestAttempt(k)
  {
    ElapsedConcat(net[k].during, net[k].pause);
    ElapsedConcat(net[k].before, Tail(s, order, item, quantity, net[k], k));
  }

  function LongestAttempt(k: nat): nat {
    CLIENT_TIMEOUT_MS + if k < MAX_ATTEMPTS - 1 then Backoff(k) else 0
  }

  /** The longest a call can last from attempt k on: 15.3 seconds in all. */
  function Longest(k: nat): (ms: nat)
    requires k < MAX_ATTEMPTS
    ensures ms == if k == 0 then 15_300 else if k == 1 then 10_200 else 5_000
    decreases MAX_ATTEMPTS - k
  {
    assert Backoff(0) == 100 && Backoff(1) == 200;
    LongestAttempt(k) + if k < MAX_ATTEMPTS - 1 then Longest(k + 1) else 0
  }

  /** One call, whatever its attempts meet and whatever others do meanwhile, has
      the effect of at most one atomic reservation: all it takes is that the client
      keeps to its timeouts. */
  lemma TimelyCallIsAtomic(s: Store, order: string, item: string, quantity: int, net: seq<Attempt>) returns (p: nat)
    requires AllPlausible(net) && Timely(net) && quantity > 0
    ensures Atomic(s, Call(s, order, item, quantity, net, 0), p, order, item, quantity)
  {
    CallsAreShort(s, order, item, quantity, net, 0);
    p := RetryIsAtomic(s, order, item, quantity, net, 0);
  }

  /** Why the bound on time is needed: a call that outlives its own reservation
      takes the units twice. */
  lemma SlowCallTakesTwice()
    ensures var s := SetStock(EMPTY, "item", 2);
      var lost := Attempt([], true, [], Broken, [Waiting(HOLD_MS)], false);
      var c := Call(s, "order", "item", 1, [lost, lost.(reply := Answered), lost], 0);
      c.error == NoError && c.own == 2 && StockOf(c.store, "item") == 0
  {
    var s := SetStock(EMPTY, "item", 2);
    var lost := Attempt([], true, [], Broken, [Waiting(HOLD_MS)], false);
    var net := [lost, lost.(reply := Answered), lost];
    var first := AtReply(s, "order", "item", 1, lost);
    assert [Waiting(HOLD_MS)][..0] == [];
    var second := After(first, [Waiting(HOLD_MS)]);
    assert second == first.(now := HOLD_MS);
    assert Call(second, "order", "item", 1, net, 1).own == 1;
  }
}
