/** How far apart in time the messages behind one fraud flag can be. */
module FraudWindow {
  import opened Events
  import opened Dedup
  import opened Fraud
  import opened Wrappers

  /** What can leave a new counter key without its expiry. */
  datatype Slip = CountAnswerLost | CrashBeforeExpiry | ExpiryFails

  /** The run made a new counter key and has still to set its expiry. */
  predicate Pending(s: State, run: nat) {
    run in s.runs && s.runs[run].phase.Counted? && s.runs[run].phase.n == 1
  }

  /** After `ms` more, the run is still within the delay since it made its key. */
  predicate Prompt(s: State, run: nat, ms: nat, delay: nat) {
    Pending(s, run) && s.runs[run].phase.birth < |s.born| ==> s.now + ms <= s.born[s.runs[run].phase.birth] + delay
  }

  /** Only the allowed slips happen, and between the count that makes a key and its
      expiry no more than the delay passes. */
  predicate Timely(s: State, step: Step, allowed: set<Slip>, delay: nat) {
    match step
    case Wait(ms) => forall run :: run in s.runs ==> Prompt(s, run, ms, delay)
    case Count(run, done, told) =>
      done && !told && run in s.runs && !CounterLive(s, MailOf(s, run).user) ==> CountAnswerLost in allowed
    case Expire(_, done, _) => done || ExpiryFails in allowed
    case Crash(run) => Pending(s, run) ==> CrashBeforeExpiry in allowed
    case _ => true
  }

  predicate TimelyRun(s: State, steps: seq<Step>, config: Config, allowed: set<Slip>, delay: nat)
    requires IsRun(s, steps, config)
    decreases |steps|
  {
    steps == [] ||
    (Timely(s, steps[0], allowed, delay) && TimelyRun(Apply(s, steps[0], config), steps[1..], config, allowed, delay))
  }

  /** Redis deletes a key whose expiry is not in the future, so that the window
      counts for one millisecond at least. */
  function Reach(delay: nat, windowMs: int): nat {
    delay + if windowMs < 1 then 1 else windowMs
  }

  // ----- the invariant of runs without a slip -----

  ghost predicate PendingFor(s: State, run: nat, user: string) {
    Pending(s, run) && MailOf(s, run).user == user
  }

  /** A key without an expiry has a run that is about to set it. */
  ghost predicate NeverHasPending(s: State, user: string) {
    user in s.counters && s.counters[user].expiry == Never ==> exists run :: PendingFor(s, run, user)
  }

  /** The key a run is about to give an expiry is still the one it made. */
  ghost predicate PendingAgrees(s: State, run: nat, delay: nat) {
    Pending(s, run) ==>
      var user := MailOf(s, run).user;
      var birth := s.runs[run].phase.birth;
      && user in s.counters && s.counters[user].birth == birth && s.counters[user].expiry == Never
      && birth < |s.born| && s.now <= s.born[birth] + delay
  }

  ghost predicate OnePending(s: State, run: nat, other: nat) {
    Pending(s, run) && Pending(s, other) && run != other ==> MailOf(s, run).user != MailOf(s, other).user
  }

  ghost predicate ExpiryTimely(s: State, user: string, delay: nat, windowMs: int) {
    user in s.counters ==>
      && s.counters[user].birth < |s.born|
      && (s.counters[user].expiry.At? ==>
            s.counters[user].expiry.time <= s.born[s.counters[user].birth] + delay + windowMs)
  }

  ghost predicate IncrementTimely(s: State, i: nat, delay: nat, windowMs: int) {
    i < |s.counted| ==>
      && s.counted[i].birth < |s.born|
      && s.born[s.counted[i].birth] <= s.counted[i].at < s.born[s.counted[i].birth] + Reach(delay, windowMs)
  }

  ghost predicate BornAgrees(s: State, birth: nat) {
    birth < |s.born| ==> s.born[birth] <= s.now
  }

  ghost predicate WindowInv(s: State, delay: nat, windowMs: int) {
    && (forall user :: NeverHasPending(s, user))
    && (forall run :: PendingAgrees(s, run, delay))
    && (forall run, other :: OnePending(s, run, other))
    && (forall user :: ExpiryTimely(s, user, delay, windowMs))
    && (forall i :: IncrementTimely(s, i, delay, windowMs))
    && (forall birth :: BornAgrees(s, birth))
  }

  /** What a step may assume: all that was proved so far, and no slip. */
  ghost predicate Steady(s: State, step: Step, config: Config, delay: nat) {
    && Inv(s, config) && WindowInv(s, delay, config.windowMs)
    && Enabled(s, step) && Timely(s, step, {}, delay)
  }

  /** Runs keep their message, and messages their user. */
  lemma UserStays(s: State, step: Step, config: Config, run: nat)
    requires Inv(s, config) && Enabled(s, step) && run in s.runs
    ensures run in Apply(s, step, config).runs
    ensures MailOf(Apply(s, step, config), run) == MailOf(s, run)
  {
    assert RunAgrees(s, run, config);
  }

  /** Only a count that made a key is pending after it. */
  lemma PendingBefore(s: State, step: Step, config: Config, run: nat)
    requires Inv(s, config) && Enabled(s, step) && Pending(Apply(s, step, config), run)
    ensures Pending(s, run) || (step.Count? && step.run == run && step.done && !CounterLive(s, MailOf(s, run).user))
    ensures run in s.runs && MailOf(Apply(s, step, config), run) == MailOf(s, run)
    ensures Pending(s, run) ==> s.runs[run].phase == Apply(s, step, config).runs[run].phase
  {
    if run in s.runs {
      UserStays(s, step, config, run);
    }
    if step.Count? && step.run == run {
      assert CounterAgrees(s, MailOf(s, run).user);
    }
  }

  lemma StepKeepsNever(s: State, step: Step, config: Config, delay: nat, user: string)
    requires Steady(s, step, config, delay)
    ensures NeverHasPending(Apply(s, step, config), user)
  {
    var after := Apply(s, step, config);
    assert NeverHasPending(s, user);
    if user in after.counters && after.counters[user].expiry == Never {
      if user in s.counters && s.counters[user].expiry == Never {
        var run :| PendingFor(s, run, user);
        assert PendingAgrees(s, run, delay);
        UserStays(s, step, config, run);
        assert PendingFor(after, run, user);
      } else {
        assert step.Count?;
        UserStays(s, step, config, step.run);
        assert PendingFor(after, step.run, user);
      }
    }
  }

  lemma StepKeepsPending(s: State, step: Step, config: Config, delay: nat)
    requires Steady(s, step, config, delay)
    ensures forall run: nat :: PendingAgrees(Apply(s, step, config), run, delay)
  {
    forall run: nat ensures PendingAgrees(Apply(s, step, config), run, delay) {
      assert PendingAgrees(s, run, delay);
      if Pending(Apply(s, step, config), run) {
        PendingBefore(s, step, config, run);
        if step.Wait? && Pending(s, run) {
          assert Prompt(s, run, step.ms, delay);
        }
        if step.Expire? {
          assert OnePending(s, run, step.run);
        }
      }
    }
  }

  lemma StepKeepsOnePending(s: State, step: Step, config: Config, delay: nat, run: nat, other: nat)
    requires Steady(s, step, config, delay)
    ensures OnePending(Apply(s, step, config), run, other)
  {
    assert OnePending(s, run, other);
    var after := Apply(s, step, config);
    if Pending(after, run) && Pending(after, other) && run != other {
      PendingBefore(s, step, config, run);
      PendingBefore(s, step, config, other);
      assert PendingAgrees(s, run, delay) && PendingAgrees(s, other, delay);
    }
  }

  lemma StepKeepsExpiry(s: State, step: Step, config: Config, delay: nat, user: string)
    requires Steady(s, step, config, delay)
    ensures ExpiryTimely(Apply(s, step, config), user, delay, config.windowMs)
  {
    assert ExpiryTimely(s, user, delay, config.windowMs);
    if step.Expire? {
      assert PendingAgrees(s, step.run, delay);
    }
  }

  /** A key that is still there is counted within its reach. */
  lemma LiveWithinReach(s: State, config: Config, delay: nat, user: string)
    requires WindowInv(s, delay, config.windowMs) && CounterLive(s, user)
    ensures s.counters[user].birth < |s.born|
    ensures s.born[s.counters[user].birth] <= s.now < s.born[s.counters[user].birth] + Reach(delay, config.windowMs)
  {
    assert ExpiryTimely(s, user, delay, config.windowMs) && BornAgrees(s, s.counters[user].birth);
    if s.counters[user].expiry == Never {
      assert NeverHasPending(s, user);
      var run :| PendingFor(s, run, user);
      assert PendingAgrees(s, run, delay);
    }
  }

  lemma StepKeepsIncrements(s: State, step: Step, config: Config, delay: nat)
    requires Steady(s, step, config, delay)
    ensures forall i: nat :: IncrementTimely(Apply(s, step, config), i, delay, config.windowMs)
  {
    forall i: nat ensures IncrementTimely(Apply(s, step, config), i, delay, config.windowMs) {
      assert IncrementTimely(s, i, delay, config.windowMs);
      if step.Count? && step.done {
        var user := MailOf(s, step.run).user;
        if CounterLive(s, user) {
          LiveWithinReach(s, config, delay, user);
        }
      }
    }
  }

  lemma StepKeepsBorn(s: State, step: Step, config: Config, delay: nat, birth: nat)
    requires Steady(s, step, config, delay)
    ensures BornAgrees(Apply(s, step, config), birth)
  {
    assert BornAgrees(s, birth);
  }

  lemma {:induction false} WindowInvHolds(s: State, steps: seq<Step>, config: Config, delay: nat)
    requires Inv(s, config) && WindowInv(s, delay, config.windowMs)
    requires IsRun(s, steps, config) && TimelyRun(s, steps, config, {}, delay)
    ensures WindowInv(After(s, steps, config), delay, config.windowMs)
    decreases |steps|
  {
    if steps != [] {
      var step, after := steps[0], Apply(s, steps[0], config);
      forall user ensures NeverHasPending(after, user) { StepKeepsNever(s, step, config, delay, user); }
      StepKeepsPending(s, step, config, delay);
      forall run, other ensures OnePending(after, run, other) {
        StepKeepsOnePending(s, step, config, delay, run, other);
      }
      forall user ensures ExpiryTimely(after, user, delay, config.windowMs) {
        StepKeepsExpiry(s, step, config, delay, user);
      }
      StepKeepsIncrements(s, step, config, delay);
      forall birth ensures BornAgrees(after, birth) { StepKeepsBorn(s, step, config, delay, birth); }
      Fraud.StepKeepsInv(s, step, config);
      WindowInvHolds(after, steps[1..], config, delay);
    }
  }

  // ----- how far apart -----

  /** Any two messages counted in that life of a key were counted less than
      `bound` apart. */
  ghost predicate LifeWithin(s: State, birth: nat, bound: int) {
    forall i, j :: 0 <= i < |s.counted| && 0 <= j < |s.counted| && s.counted[i].birth == birth == s.counted[j].birth ==>
      s.counted[j].at < s.counted[i].at + bound
  }

  /** The same for the messages behind every flag. */
  ghost predicate FlagsWithin(s: State, bound: int) {
    forall f :: 0 <= f < |s.flags| ==> LifeWithin(s, s.flags[f].birth, bound)
  }

  /** Without a slip the messages counted for one flag lie within the window and
      the delay, whatever else fails and however handlers interleave. */
  lemma FlagsWithinReach(steps: seq<Step>, config: Config, delay: nat, bound: int)
    requires IsRun(EMPTY, steps, config) && TimelyRun(EMPTY, steps, config, {}, delay)
    requires Reach(delay, config.windowMs) <= bound
    ensures FlagsWithin(After(EMPTY, steps, config), bound)
  {
    WindowInvHolds(EMPTY, steps, config, delay);
    var s := After(EMPTY, steps, config);
    forall f | 0 <= f < |s.flags| ensures LifeWithin(s, s.flags[f].birth, bound) {
      LivesWithin(s, delay, config.windowMs, s.flags[f].birth, bound);
    }
  }

  lemma LivesWithin(s: State, delay: nat, windowMs: int, birth: nat, bound: int)
    requires WindowInv(s, delay, windowMs) && Reach(delay, windowMs) <= bound
    ensures LifeWithin(s, birth, bound)
  {
    forall i, j | 0 <= i < |s.counted| && 0 <= j < |s.counted| && s.counted[i].birth == birth == s.counted[j].birth
      ensures s.counted[j].at < s.counted[i].at + bound
    {
      assert IncrementTimely(s, i, delay, windowMs) && IncrementTimely(s, j, delay, windowMs);
    }
  }

  // ----- and what happens otherwise -----

  lemma {:induction false} TimelySnoc(
      s: State, steps: seq<Step>, step: Step, config: Config, allowed: set<Slip>, delay: nat)
    requires IsRun(s, steps, config) && Enabled(After(s, steps, config), step) && IsRun(s, steps + [step], config)
    requires TimelyRun(s, steps, config, allowed, delay) && Timely(After(s, steps, config), step, allowed, delay)
    ensures TimelyRun(s, steps + [step], config, allowed, delay)
    decreases |steps|
  {
    if steps != [] {
      assert (steps + [step])[1..] == steps[1..] + [step];
      TimelySnoc(Apply(s, steps[0], config), steps[1..], step, config, allowed, delay);
    }
  }

  ghost predicate Reaches(steps: seq<Step>, config: Config, allowed: set<Slip>, delay: nat) {
    IsRun(EMPTY, steps, config) && TimelyRun(EMPTY, steps, config, allowed, delay)
  }

  /** The state such a run ends in. */
  ghost function Final(steps: seq<Step>, config: Config, allowed: set<Slip>, delay: nat): Option<State> {
    if Reaches(steps, config, allowed, delay) then Some(After(EMPTY, steps, config)) else None
  }

  lemma Extend(steps: seq<Step>, step: Step, config: Config, allowed: set<Slip>, delay: nat)
    returns (longer: seq<Step>)
    requires Final(steps, config, allowed, delay).Some?
    requires var s := Final(steps, config, allowed, delay).value; Enabled(s, step) && Timely(s, step, allowed, delay)
    ensures Final(longer, config, allowed, delay) ==
            Some(Apply(Final(steps, config, allowed, delay).value, step, config))
  {
    longer := steps + [step];
    RunSnoc(EMPTY, steps, step, config);
    TimelySnoc(EMPTY, steps, step, config, allowed, delay);
  }

  /** One message of user "u", claimed at once by run 0. */
  const ONE_CLAIMED :=
    State([Mail(OrderPlaced, "u", 0)], map[0 := Claim(0, CLAIM_MS)], map[], map[0 := Run(0, Claimed)],
          [], [], [], 0, true)

  lemma FirstClaims(config: Config, allowed: set<Slip>, delay: nat) returns (steps: seq<Step>)
    ensures Final(steps, config, allowed, delay) == Some(ONE_CLAIMED)
  {
    steps := Extend([], Arrive(OrderPlaced, "u"), config, allowed, delay);
    steps := Extend(steps, Receive(0, 0), config, allowed, delay);
    steps := Extend(steps, Check(0, true), config, allowed, delay);
    assert Final(steps, config, allowed, delay).value == ONE_CLAIMED;
  }

  /** The message is counted in a new key with that expiry; run 0 is in a phase. */
  function OneCounted(expiry: Expiry, phase: Phase, now: nat): State {
    State([Mail(OrderPlaced, "u", 0)], map[0 := Claim(0, CLAIM_MS)], map["u" := Counter(1, expiry, 0)],
          map[0 := Run(0, phase)], [0], [Increment(0, 0, 0)], [], now, true)
  }

  lemma FirstCounts(config: Config, allowed: set<Slip>, delay: nat) returns (steps: seq<Step>)
    ensures Final(steps, config, allowed, delay) == Some(OneCounted(Never, Counted(1, 0), 0))
  {
    steps := FirstClaims(config, allowed, delay);
    steps := Extend(steps, Count(0, true, true), config, allowed, delay);
    assert Final(steps, config, allowed, delay).value == OneCounted(Never, Counted(1, 0), 0);
  }

  /** How the run of a slip ends. */
  function SlipEnd(slip: Slip): Phase {
    if slip == CrashBeforeExpiry then Crashed else Failed
  }

  /** Any slip leaves the key without an expiry, and nobody to set one. */
  lemma FirstSlips(config: Config, slip: Slip, delay: nat) returns (steps: seq<Step>)
    ensures Final(steps, config, {slip}, delay) == Some(OneCounted(Never, SlipEnd(slip), 0))
  {
    match slip {
      case CountAnswerLost =>
        steps := FirstClaims(config, {slip}, delay);
        steps := Extend(steps, Count(0, true, false), config, {slip}, delay);
      case CrashBeforeExpiry =>
        steps := FirstCounts(config, {slip}, delay);
        steps := Extend(steps, Crash(0), config, {slip}, delay);
      case ExpiryFails =>
        steps := FirstCounts(config, {slip}, delay);
        steps := Extend(steps, Expire(0, false, false), config, {slip}, delay);
    }
    assert Final(steps, config, {slip}, delay).value == OneCounted(Never, SlipEnd(slip), 0);
  }

  /** A second message, later by `wait`, is in the queue. */
  function SecondQueued(before: State, wait: nat): State {
    before.(mail := [Mail(OrderPlaced, "u", 0), Mail(OrderPlaced, "u", before.now + wait)], now := before.now + wait)
  }

  /** It is in run 1's hands. */
  function SecondReceived(before: State, wait: nat): State {
    SecondQueued(before, wait).(runs := before.runs[1 := Run(1, Started)])
  }

  /** And claimed. */
  function SecondClaimed(before: State, wait: nat): State {
    SecondQueued(before, wait).(runs := before.runs[1 := Run(1, Claimed)],
                                claims := before.claims[1 := Claim(1, before.now + wait + CLAIM_MS)])
  }

  lemma SecondArrives(before: seq<Step>, expiry: Expiry, phase: Phase, now: nat, wait: nat,
                      config: Config, allowed: set<Slip>, delay: nat)
    returns (steps: seq<Step>)
    requires Final(before, config, allowed, delay) == Some(OneCounted(expiry, phase, now))
    requires Prompt(OneCounted(expiry, phase, now), 0, wait, delay)
    ensures Final(steps, config, allowed, delay) == Some(SecondQueued(OneCounted(expiry, phase, now), wait))
  {
    steps := Extend(before, Wait(wait), config, allowed, delay);
    assert Final(steps, config, allowed, delay).value == OneCounted(expiry, phase, now + wait);
    steps := Extend(steps, Arrive(OrderPlaced, "u"), config, allowed, delay);
    assert Final(steps, config, allowed, delay).value == SecondQueued(OneCounted(expiry, phase, now), wait);
  }

  lemma SecondReceives(before: seq<Step>, expiry: Expiry, phase: Phase, now: nat, wait: nat,
                       config: Config, allowed: set<Slip>, delay: nat)
    returns (steps: seq<Step>)
    requires Final(before, config, allowed, delay) == Some(OneCounted(expiry, phase, now))
    requires Prompt(OneCounted(expiry, phase, now), 0, wait, delay)
    ensures Final(steps, config, allowed, delay) == Some(SecondReceived(OneCounted(expiry, phase, now), wait))
  {
    steps := SecondArrives(before, expiry, phase, now, wait, config, allowed, delay);
    steps := Extend(steps, Receive(1, 1), config, allowed, delay);
    assert Final(steps, config, allowed, delay).value == SecondReceived(OneCounted(expiry, phase, now), wait);
  }

  lemma SecondClaims(before: seq<Step>, expiry: Expiry, phase: Phase, now: nat, wait: nat,
                     config: Config, allowed: set<Slip>, delay: nat)
    returns (steps: seq<Step>)
    requires Final(before, config, allowed, delay) == Some(OneCounted(expiry, phase, now))
    requires Prompt(OneCounted(expiry, phase, now), 0, wait, delay)
    ensures Final(steps, config, allowed, delay) == Some(SecondClaimed(OneCounted(expiry, phase, now), wait))
  {
    steps := SecondReceives(before, expiry, phase, now, wait, config, allowed, delay);
    steps := Extend(steps, Check(1, true), config, allowed, delay);
    assert Final(steps, config, allowed, delay).value == SecondClaimed(OneCounted(expiry, phase, now), wait);
  }

  /** If the key is still there, the second message is counted in the same life,
      and with threshold 1 it is flagged. */
  lemma SecondFlags(before: seq<Step>, expiry: Expiry, phase: Phase, now: nat, wait: nat,
                    config: Config, allowed: set<Slip>, delay: nat)
    returns (steps: seq<Step>)
    requires config.threshold == 1 && Final(before, config, allowed, delay) == Some(OneCounted(expiry, phase, now))
    requires Prompt(OneCounted(expiry, phase, now), 0, wait, delay)
    requires expiry == Never || now + wait < expiry.time
    ensures Breaks(steps, config, allowed, delay, now + wait)
  {
    steps := SecondClaims(before, expiry, phase, now, wait, config, allowed, delay);
    steps := Extend(steps, Count(1, true, true), config, allowed, delay);
    assert Final(steps, config, allowed, delay).value.counted == [Increment(0, 0, 0), Increment(1, 0, now + wait)];
    assert Final(steps, config, allowed, delay).value.runs[1] == Run(1, Counted(2, 0));
    steps := Extend(steps, Decide(1), config, allowed, delay);
    assert Final(steps, config, allowed, delay).value.runs[1] == Run(1, Over(2, 0));
    steps := Extend(steps, Publish(1, true, true), config, allowed, delay);
    FarApart(After(EMPTY, steps, config), now + wait);
  }

  /** The run, with its dedup checks all in time, flags messages that far apart. */
  ghost predicate Breaks(steps: seq<Step>, config: Config, allowed: set<Slip>, delay: nat, bound: int) {
    exists s :: Final(steps, config, allowed, delay) == Some(s) && s.punctual && !FlagsWithin(s, bound)
  }

  lemma FarApart(s: State, apart: nat)
    requires s.counted == [Increment(0, 0, 0), Increment(1, 0, apart)] && s.flags == [Flag("u", 2, 0)]
    ensures !FlagsWithin(s, apart)
  {
    assert s.counted[0].birth == s.flags[0].birth == s.counted[1].birth;
    assert !LifeWithin(s, s.flags[0].birth, apart);
  }

  /** After any one slip messages arbitrarily far apart are flagged together. */
  lemma SlipFlagsForever(slip: Slip, windowMs: int, delay: nat, apart: nat) returns (steps: seq<Step>)
    ensures Breaks(steps, Config(1, windowMs), {slip}, delay, apart)
  {
    steps := FirstSlips(Config(1, windowMs), slip, delay);
    steps := SecondFlags(steps, Never, SlipEnd(slip), 0, apart, Config(1, windowMs), {slip}, delay);
  }

  /** Run 0 sets the expiry as late as the delay permits. */
  lemma ExpiresLate(windowMs: int, delay: nat) returns (steps: seq<Step>)
    requires windowMs >= 1
    ensures Final(steps, Config(1, windowMs), {}, delay) == Some(OneCounted(At(delay + windowMs), Done, delay))
  {
    steps := FirstCounts(Config(1, windowMs), {}, delay);
    steps := Extend(steps, Wait(delay), Config(1, windowMs), {}, delay);
    steps := Extend(steps, Expire(0, true, true), Config(1, windowMs), {}, delay);
    assert Final(steps, Config(1, windowMs), {}, delay).value == OneCounted(At(delay + windowMs), Done, delay);
  }

  /** And with no slip at all the bound is met. */
  lemma ReachIsMet(windowMs: int, delay: nat) returns (steps: seq<Step>)
    ensures Breaks(steps, Config(1, windowMs), {}, delay, Reach(delay, windowMs) - 1)
  {
    if windowMs >= 1 {
      steps := ExpiresLate(windowMs, delay);
      steps := SecondFlags(steps, At(delay + windowMs), Done, delay, windowMs - 1, Config(1, windowMs), {}, delay);
    } else {
      steps := FirstCounts(Config(1, windowMs), {}, delay);
      steps := SecondFlags(steps, Never, Counted(1, 0), 0, delay, Config(1, windowMs), {}, delay);
    }
  }

  lemma {:induction false} AllowMore(
      s: State, steps: seq<Step>, config: Config, some: set<Slip>, more: set<Slip>, delay: nat)
    requires IsRun(s, steps, config) && TimelyRun(s, steps, config, some, delay) && some <= more
    ensures TimelyRun(s, steps, config, more, delay)
    decreases |steps|
  {
    if steps != [] {
      AllowMore(Apply(s, steps[0], config), steps[1..], config, some, more, delay);
    }
  }

  lemma TighterFails(s: State, looser: int, bound: int)
    requires !FlagsWithin(s, looser) && bound <= looser
    ensures !FlagsWithin(s, bound)
  {
    var f :| 0 <= f < |s.flags| && !LifeWithin(s, s.flags[f].birth, looser);
    assert !LifeWithin(s, s.flags[f].birth, bound);
  }

  /** A run that breaks the bound, when it can be broken. */
  lemma BreaksBound(windowMs: int, allowed: set<Slip>, delay: nat, bound: int) returns (steps: seq<Step>)
    requires allowed != {} || bound < Reach(delay, windowMs)
    ensures Breaks(steps, Config(1, windowMs), allowed, delay, bound)
  {
    if allowed != {} {
      var slip :| slip in allowed;
      var apart := if bound < 0 then 0 else bound;
      steps := SlipFlagsForever(slip, windowMs, delay, apart);
      AllowMore(EMPTY, steps, Config(1, windowMs), {slip}, allowed, delay);
      TighterFails(After(EMPTY, steps, Config(1, windowMs)), apart, bound);
    } else {
      steps := ReachIsMet(windowMs, delay);
      TighterFails(After(EMPTY, steps, Config(1, windowMs)), Reach(delay, windowMs) - 1, bound);
    }
  }

  /** Exactly when the messages behind every flag lie within a bound, for every
      threshold and run: when no slip may happen, and the bound has room for the
      window and for the delay between a key's first count and its expiry. */
  lemma FlagsWithinExactly(windowMs: int, allowed: set<Slip>, delay: nat, bound: int)
    ensures (allowed == {} && Reach(delay, windowMs) <= bound) <==>
      forall threshold: int, steps :: Reaches(steps, Config(threshold, windowMs), allowed, delay) ==>
        FlagsWithin(After(EMPTY, steps, Config(threshold, windowMs)), bound)
  {
    if allowed == {} && Reach(delay, windowMs) <= bound {
      forall threshold: int, steps | Reaches(steps, Config(threshold, windowMs), allowed, delay)
        ensures FlagsWithin(After(EMPTY, steps, Config(threshold, windowMs)), bound)
      {
        FlagsWithinReach(steps, Config(threshold, windowMs), delay, bound);
      }
    } else {
      var steps := BreaksBound(windowMs, allowed, delay, bound);
    }
  }
}
