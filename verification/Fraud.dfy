/** The fraud detector: it claims each message for good, counts it for its user in
    a Redis key that expires, and flags the user above a threshold.

    Handler runs interleave; every Redis command and every publication may fail,
    with or without having taken effect. */
module Fraud {
  import opened Events
  import opened Dedup

  /** A message in the detector's queue, which gets every event. */
  datatype Mail = Mail(kind: Kind, user: string, at: nat)

  datatype Expiry = Never | At(time: int)

  /** The counter key of a user.  `birth` numbers the times any counter key was
      created, which tells apart the lives of a key; `born` in the state has the
      moment each life began. */
  datatype Counter = Counter(count: nat, expiry: Expiry, birth: nat)

  datatype Phase =
    | Started
    | Claimed
    | Counted(n: nat, birth: nat)
    | Over(n: nat, birth: nat)
    | Ignored
    | Skipped
    | Done
    | Failed
    | Crashed

  /** The ways a run ends: the message is a flag, was claimed before, was counted
      and judged, an operation failed, or the handler crashed. */
  predicate Ended(phase: Phase) {
    phase == Ignored || phase == Skipped || phase == Done || phase == Failed || phase == Crashed
  }

  datatype Run = Run(msg: nat, phase: Phase)

  /** History: one entry for each increment, one for each accepted flag. */
  datatype Increment = Increment(msg: nat, birth: nat, at: nat)
  datatype Flag = Flag(user: string, n: nat, birth: nat)

  datatype State = State(mail: seq<Mail>, claims: map<nat, Claim>, counters: map<string, Counter>,
                         runs: map<nat, Run>, born: seq<nat>, counted: seq<Increment>, flags: seq<Flag>,
                         now: nat, punctual: bool)

  const EMPTY := State([], map[], map[], map[], [], [], [], 0, true)

  datatype Config = Config(threshold: int, windowMs: int)

  datatype Step =
    | Arrive(kind: Kind, user: string)
    | Wait(ms: nat)
    | Receive(run: nat, msg: nat)
    | Ignore(run: nat)
    | Check(run: nat, told: bool)
    | CheckFailed(run: nat)
    | Count(run: nat, done: bool, told: bool)
    | Expire(run: nat, done: bool, told: bool)
    | Decide(run: nat)
    | Publish(run: nat, accepted: bool, told: bool)
    | Crash(run: nat)

  predicate Retained(s: State, msg: nat) {
    msg < |s.mail| && s.now < s.mail[msg].at + RETENTION_MS
  }

  predicate ClaimLive(s: State, msg: nat) {
    Live(s.claims, msg, s.now)
  }

  predicate CounterLive(s: State, user: string) {
    user in s.counters && (s.counters[user].expiry == Never || s.now < s.counters[user].expiry.time)
  }

  predicate InPhase(s: State, run: nat, phase: Phase) {
    run in s.runs && s.runs[run].phase == phase
  }

  /** The message a run works on. */
  function MailOf(s: State, run: nat): Mail
    requires run in s.runs
  {
    if s.runs[run].msg < |s.mail| then s.mail[s.runs[run].msg] else Mail(FraudFlagged, "", 0)
  }

  predicate Enabled(s: State, step: Step) {
    match step
    case Arrive(_, _) => true
    case Wait(_) => true
    case Receive(run, msg) => run !in s.runs && Retained(s, msg)
    case Ignore(run) => InPhase(s, run, Started) && MailOf(s, run).kind == FraudFlagged
    case Check(run, _) => InPhase(s, run, Started) && MailOf(s, run).kind != FraudFlagged
    case CheckFailed(run) => InPhase(s, run, Started) && MailOf(s, run).kind != FraudFlagged
    case Count(run, done, told) => InPhase(s, run, Claimed) && (told ==> done)
    case Expire(run, done, told) =>
      run in s.runs && s.runs[run].phase.Counted? && s.runs[run].phase.n == 1 && (told ==> done)
    case Decide(run) => run in s.runs && s.runs[run].phase.Counted? && s.runs[run].phase.n != 1
    case Publish(run, accepted, told) => run in s.runs && s.runs[run].phase.Over? && (told ==> accepted)
    case Crash(run) => run in s.runs && !Ended(s.runs[run].phase)
  }

  function Moved(s: State, run: nat, phase: Phase): State
    requires run in s.runs
  {
    s.(runs := s.runs[run := s.runs[run].(phase := phase)])
  }

  function Claiming(s: State, run: nat): State
    requires run in s.runs
  {
    var msg := s.runs[run].msg;
    s.(claims := SetNx(s.claims, msg, run, s.now),
       punctual := s.punctual && Retained(s, msg))
  }

  /** The counter after INCR: one more, or a new key with count 1. */
  function Incremented(s: State, user: string): Counter {
    if CounterLive(s, user) then s.counters[user].(count := s.counters[user].count + 1)
    else Counter(1, Never, |s.born|)
  }

  /** What an increment by the run records. */
  function IncrementOf(s: State, run: nat): Increment
    requires run in s.runs
  {
    Increment(s.runs[run].msg, Incremented(s, MailOf(s, run).user).birth, s.now)
  }

  function Counting(s: State, run: nat): State
    requires run in s.runs
  {
    var user := MailOf(s, run).user;
    s.(counters := s.counters[user := Incremented(s, user)],
       born := if CounterLive(s, user) then s.born else s.born + [s.now],
       counted := s.counted + [IncrementOf(s, run)])
  }

  /** EXPIRE sets the life of whatever key the user has by then. */
  function Expiring(s: State, user: string, windowMs: int): State {
    if CounterLive(s, user) then
      s.(counters := s.counters[user := s.counters[user].(expiry := At(s.now + windowMs))])
    else s
  }

  /** The branch on the threshold. */
  function Judged(n: nat, birth: nat, config: Config): Phase {
    if n <= config.threshold then Done else Over(n, birth)
  }

  function Apply(s: State, step: Step, config: Config): State
    requires Enabled(s, step)
  {
    match step
    case Arrive(kind, user) => s.(mail := s.mail + [Mail(kind, user, s.now)])
    case Wait(ms) => s.(now := s.now + ms)
    case Receive(run, msg) => s.(runs := s.runs[run := Run(msg, Started)])
    case Ignore(run) => Moved(s, run, Ignored)
    case Check(run, told) =>
      Moved(Claiming(s, run), run,
            if !told then Failed else if ClaimLive(s, s.runs[run].msg) then Skipped else Claimed)
    case CheckFailed(run) => Moved(s, run, Failed)
    case Count(run, done, told) =>
      var counter := Incremented(s, MailOf(s, run).user);
      Moved(if done then Counting(s, run) else s, run,
            if told then Counted(counter.count, counter.birth) else Failed)
    case Expire(run, done, told) =>
      Moved(if done then Expiring(s, MailOf(s, run).user, config.windowMs) else s, run,
            if told then Judged(1, s.runs[run].phase.birth, config) else Failed)
    case Decide(run) => Moved(s, run, Judged(s.runs[run].phase.n, s.runs[run].phase.birth, config))
    case Publish(run, accepted, told) =>
      var user := MailOf(s, run).user;
      Moved(if accepted then
              s.(flags := s.flags + [Flag(user, s.runs[run].phase.n, s.runs[run].phase.birth)],
                 mail := s.mail + [Mail(FraudFlagged, user, s.now)])
            else s, run, if told then Done else Failed)
    case Crash(run) => Moved(s, run, Crashed)
  }

  predicate IsRun(s: State, steps: seq<Step>, config: Config)
    decreases |steps|
  {
    steps == [] || (Enabled(s, steps[0]) && IsRun(Apply(s, steps[0], config), steps[1..], config))
  }

  function After(s: State, steps: seq<Step>, config: Config): State
    requires IsRun(s, steps, config)
    decreases |steps|
  {
    if steps == [] then s else After(Apply(s, steps[0], config), steps[1..], config)
  }

  // ----- the invariant -----

  /** Increments in one life of a counter key. */
  function Tally(counted: seq<Increment>, birth: nat): nat {
    if counted == [] then 0
    else Tally(counted[..|counted| - 1], birth) + if counted[|counted| - 1].birth == birth then 1 else 0
  }

  lemma TallyOfExtension(counted: seq<Increment>, c: Increment, birth: nat)
    ensures Tally(counted + [c], birth) == Tally(counted, birth) + if c.birth == birth then 1 else 0
  {
    assert (counted + [c])[..|counted|] == counted;
  }

  /** A live or past key holds the number of its increments. */
  ghost predicate CounterAgrees(s: State, user: string) {
    user in s.counters ==>
      && s.counters[user].birth < |s.born|
      && 1 <= s.counters[user].count == Tally(s.counted, s.counters[user].birth)
  }

  /** Two users never share a life of a key. */
  ghost predicate BirthsDiffer(s: State, user: string, other: string) {
    user in s.counters && other in s.counters && user != other ==> s.counters[user].birth != s.counters[other].birth
  }

  /** What a run knows of its count was true when it counted. */
  ghost predicate RunAgrees(s: State, run: nat, config: Config) {
    run in s.runs ==>
      var r := s.runs[run];
      && r.msg < |s.mail|
      && (r.phase.Claimed? || r.phase.Counted? || r.phase.Over? ==> s.mail[r.msg].kind != FraudFlagged)
      && (r.phase.Counted? || r.phase.Over? ==>
            && 1 <= r.phase.n <= Tally(s.counted, r.phase.birth)
            && BirthOf(s, r.phase.birth, s.mail[r.msg].user))
      && (r.phase.Over? ==> r.phase.n > config.threshold)
      && (r.phase == Claimed ==> r.msg in s.claims)
  }

  /** That life of a key belonged to the user. */
  ghost predicate BirthOf(s: State, birth: nat, user: string) {
    && birth < |s.born|
    && forall i :: 0 <= i < |s.counted| && s.counted[i].birth == birth ==> IncrementFor(s, i, user)
  }

  ghost predicate IncrementFor(s: State, i: nat, user: string) {
    i < |s.counted| && s.counted[i].msg < |s.mail|
    && s.mail[s.counted[i].msg].user == user && s.mail[s.counted[i].msg].kind != FraudFlagged
  }

  ghost predicate CounterOwner(s: State, user: string) {
    user in s.counters ==> BirthOf(s, s.counters[user].birth, user)
  }

  ghost predicate IncrementAgrees(s: State, i: nat) {
    i < |s.counted| ==> s.counted[i].birth < |s.born| && s.counted[i].msg in s.claims
  }

  /** A message is counted only once. */
  ghost predicate CountedOnce(s: State, i: nat, j: nat) {
    i < j < |s.counted| ==> s.counted[i].msg != s.counted[j].msg
  }

  ghost predicate MailAgrees(s: State, msg: nat) {
    msg < |s.mail| ==> s.mail[msg].at <= s.now
  }

  ghost predicate ClaimCovers(s: State, msg: nat) {
    msg in s.claims ==> msg < |s.mail| && s.mail[msg].at + RETENTION_MS <= s.claims[msg].expires
  }

  ghost predicate OwnsClaim(s: State, run: nat) {
    InPhase(s, run, Claimed) ==>
      && s.runs[run].msg in s.claims && s.claims[s.runs[run].msg].owner == run
      && forall i :: 0 <= i < |s.counted| ==> s.counted[i].msg != s.runs[run].msg
  }

  ghost predicate FlagAgrees(s: State, f: nat, config: Config) {
    f < |s.flags| ==>
      && config.threshold < s.flags[f].n && 1 <= s.flags[f].n <= Tally(s.counted, s.flags[f].birth)
      && BirthOf(s, s.flags[f].birth, s.flags[f].user)
  }

  ghost predicate Inv(s: State, config: Config) {
    && (forall user :: CounterAgrees(s, user))
    && (forall user, other :: BirthsDiffer(s, user, other))
    && (forall user :: CounterOwner(s, user))
    && (forall run :: RunAgrees(s, run, config))
    && (forall i :: IncrementAgrees(s, i))
    && (forall f :: FlagAgrees(s, f, config))
    && (forall msg :: MailAgrees(s, msg))
    && (forall msg :: s.punctual ==> ClaimCovers(s, msg))
    && (forall run :: s.punctual ==> OwnsClaim(s, run))
    && (forall i, j :: s.punctual ==> CountedOnce(s, i, j))
  }

  lemma StepKeepsCounters(s: State, step: Step, config: Config, user: string)
    requires Inv(s, config) && Enabled(s, step)
    ensures CounterAgrees(Apply(s, step, config), user)
  {
    assert CounterAgrees(s, user);
    if step.Count? && step.done {
      CountKeepsCounters(s, step.run, config, user);
    }
  }

  lemma CountKeepsCounters(s: State, run: nat, config: Config, user: string)
    requires Inv(s, config) && InPhase(s, run, Claimed)
    ensures CounterAgrees(Counting(s, run), user)
  {
    var own := MailOf(s, run).user;
    var c := IncrementOf(s, run);
    assert CounterAgrees(s, user) && CounterAgrees(s, own) && BirthsDiffer(s, user, own);
    if user in s.counters {
      TallyOfExtension(s.counted, c, s.counters[user].birth);
    }
    TallyOfExtension(s.counted, c, |s.born|);
    NothingBorn(s, config, |s.counted|);
    assert s.counted[..|s.counted|] == s.counted;
  }

  /** A life to come has no increments yet. */
  lemma {:induction false} NothingBorn(s: State, config: Config, upTo: nat)
    requires Inv(s, config) && upTo <= |s.counted|
    ensures Tally(s.counted[..upTo], |s.born|) == 0
  {
    if upTo > 0 {
      NothingBorn(s, config, upTo - 1);
      assert IncrementAgrees(s, upTo - 1);
      assert s.counted[..upTo][..upTo - 1] == s.counted[..upTo - 1];
    }
  }

  lemma StepKeepsBirths(s: State, step: Step, config: Config, user: string, other: string)
    requires Inv(s, config) && Enabled(s, step)
    ensures BirthsDiffer(Apply(s, step, config), user, other)
  {
    assert BirthsDiffer(s, user, other) && CounterAgrees(s, user) && CounterAgrees(s, other);
  }

  /** The increments of a life stay with its user. */
  lemma BirthStays(s: State, step: Step, config: Config, birth: nat, user: string)
    requires Inv(s, config) && Enabled(s, step) && BirthOf(s, birth, user)
    requires step.Count? && step.done && Incremented(s, MailOf(s, step.run).user).birth == birth ==>
      MailOf(s, step.run).user == user
    ensures BirthOf(Apply(s, step, config), birth, user)
    ensures Tally(Apply(s, step, config).counted, birth) >= Tally(s.counted, birth)
  {
    var after := Apply(s, step, config);
    if step.Count? && step.done {
      assert RunAgrees(s, step.run, config);
      TallyOfExtension(s.counted, IncrementOf(s, step.run), birth);
    }
    forall i | 0 <= i < |after.counted| && after.counted[i].birth == birth ensures IncrementFor(after, i, user) {
      assert i < |s.counted| ==> IncrementFor(s, i, user);
    }
  }

  /** An increment in a life that has one already is of the same user. */
  lemma SameLifeSameUser(s: State, config: Config, run: nat, birth: nat, user: string)
    requires Inv(s, config) && run in s.runs && BirthOf(s, birth, user) && Tally(s.counted, birth) > 0
    requires Incremented(s, MailOf(s, run).user).birth == birth
    ensures MailOf(s, run).user == user
  {
    var own := MailOf(s, run).user;
    assert CounterAgrees(s, own) && CounterOwner(s, own);
    var i := TallyWitness(s.counted, birth);
    assert IncrementFor(s, i, user) && IncrementFor(s, i, own);
  }

  lemma {:induction false} TallyWitness(counted: seq<Increment>, birth: nat) returns (i: nat)
    requires Tally(counted, birth) > 0
    ensures i < |counted| && counted[i].birth == birth
  {
    i := |counted| - 1;
    if counted[i].birth != birth {
      i := TallyWitness(counted[..i], birth);
    }
  }

  /** The increments of a life that has some stay with its user. */
  lemma LifeStays(s: State, step: Step, config: Config, birth: nat, user: string)
    requires Inv(s, config) && Enabled(s, step) && BirthOf(s, birth, user) && Tally(s.counted, birth) > 0
    ensures BirthOf(Apply(s, step, config), birth, user)
    ensures Tally(Apply(s, step, config).counted, birth) >= Tally(s.counted, birth)
  {
    if step.Count? && step.done && Incremented(s, MailOf(s, step.run).user).birth == birth {
      SameLifeSameUser(s, config, step.run, birth, user);
    }
    BirthStays(s, step, config, birth, user);
  }

  /** What the increment itself makes of its user's key. */
  lemma CountMakes(s: State, run: nat, config: Config)
    requires Inv(s, config) && InPhase(s, run, Claimed)
    ensures var user := MailOf(s, run).user; var c := Incremented(s, user);
      && BirthOf(Counting(s, run), c.birth, user)
      && c.birth < |Counting(s, run).born|
      && 1 <= c.count == Tally(Counting(s, run).counted, c.birth)
  {
    var user := MailOf(s, run).user;
    var c := Incremented(s, user);
    var after := Counting(s, run);
    assert RunAgrees(s, run, config) && CounterAgrees(s, user) && CounterOwner(s, user);
    TallyOfExtension(s.counted, IncrementOf(s, run), c.birth);
    NothingBorn(s, config, |s.counted|);
    assert s.counted[..|s.counted|] == s.counted;
    forall i | 0 <= i < |after.counted| && after.counted[i].birth == c.birth ensures IncrementFor(after, i, user) {
      if i < |s.counted| {
        assert IncrementAgrees(s, i);
        assert CounterLive(s, user) ==> IncrementFor(s, i, user);
      }
    }
  }

  lemma StepKeepsOwner(s: State, step: Step, config: Config, user: string)
    requires Inv(s, config) && Enabled(s, step)
    ensures CounterOwner(Apply(s, step, config), user)
  {
    assert CounterOwner(s, user) && CounterAgrees(s, user);
    if step.Count? && step.done && MailOf(s, step.run).user == user {
      CountMakes(s, step.run, config);
      var after := Apply(s, step, config);
      SameHistory(Counting(s, step.run), after, after.counters[user].birth, user);
    } else if user in s.counters {
      LifeStays(s, step, config, s.counters[user].birth, user);
    }
  }

  /** The run has counted, and has yet to be through with it. */
  predicate HasCounted(s: State, run: nat) {
    run in s.runs && (s.runs[run].phase.Counted? || s.runs[run].phase.Over?)
  }

  /** The runs that counted before this step. */
  lemma StepKeepsCountedRun(s: State, step: Step, config: Config)
    requires Inv(s, config) && Enabled(s, step)
    ensures forall run: nat :: HasCounted(s, run) ==> RunAgrees(Apply(s, step, config), run, config)
  {
    forall run: nat | HasCounted(s, run) ensures RunAgrees(Apply(s, step, config), run, config) {
      assert RunAgrees(s, run, config);
      LifeStays(s, step, config, s.runs[run].phase.birth, s.mail[s.runs[run].msg].user);
    }
  }

  lemma SameHistory(s: State, t: State, birth: nat, user: string)
    requires s.counted == t.counted && s.mail == t.mail && s.born == t.born && BirthOf(s, birth, user)
    ensures BirthOf(t, birth, user)
  {
    forall i | 0 <= i < |t.counted| && t.counted[i].birth == birth ensures IncrementFor(t, i, user) {
      assert IncrementFor(s, i, user);
    }
  }

  lemma StepKeepsRun(s: State, step: Step, config: Config)
    requires Inv(s, config) && Enabled(s, step)
    ensures forall run: nat :: RunAgrees(Apply(s, step, config), run, config)
  {
    StepKeepsCountedRun(s, step, config);
    forall run: nat | !HasCounted(s, run) ensures RunAgrees(Apply(s, step, config), run, config) {
      assert RunAgrees(s, run, config);
      if step.Count? && step.run == run && step.told {
        var after := Apply(s, step, config);
        CountMakes(s, run, config);
        SameHistory(Counting(s, run), after, after.runs[run].phase.birth, MailOf(s, run).user);
      }
    }
  }

  lemma StepKeepsIncrement(s: State, step: Step, config: Config, i: nat)
    requires Inv(s, config) && Enabled(s, step)
    ensures IncrementAgrees(Apply(s, step, config), i)
  {
    assert IncrementAgrees(s, i);
    if step.Count? {
      assert RunAgrees(s, step.run, config) && CounterAgrees(s, MailOf(s, step.run).user);
    }
  }

  lemma StepKeepsMail(s: State, step: Step, config: Config, msg: nat)
    requires Inv(s, config) && Enabled(s, step)
    ensures MailAgrees(Apply(s, step, config), msg)
  {
    assert MailAgrees(s, msg);
  }

  lemma StepKeepsFlag(s: State, step: Step, config: Config)
    requires Inv(s, config) && Enabled(s, step)
    ensures forall f: nat :: FlagAgrees(Apply(s, step, config), f, config)
  {
    forall f: nat ensures FlagAgrees(Apply(s, step, config), f, config) {
      assert FlagAgrees(s, f, config);
      if f < |s.flags| {
        LifeStays(s, step, config, s.flags[f].birth, s.flags[f].user);
      } else if step.Publish? {
        assert RunAgrees(s, step.run, config);
        LifeStays(s, step, config, s.runs[step.run].phase.birth, MailOf(s, step.run).user);
      }
    }
  }

  lemma StepKeepsClaim(s: State, step: Step, config: Config, msg: nat)
    requires Inv(s, config) && Enabled(s, step) && Apply(s, step, config).punctual
    ensures ClaimCovers(Apply(s, step, config), msg)
  {
    assert ClaimCovers(s, msg) && MailAgrees(s, msg);
    if step.Check? {
      assert RunAgrees(s, step.run, config);
    }
  }

  lemma StepKeepsOwnership(s: State, step: Step, config: Config)
    requires Inv(s, config) && Enabled(s, step) && Apply(s, step, config).punctual
    ensures forall run: nat :: OwnsClaim(Apply(s, step, config), run)
  {
    forall run: nat ensures OwnsClaim(Apply(s, step, config), run) {
      assert OwnsClaim(s, run) && RunAgrees(s, run, config);
      if step.Count? {
        assert OwnsClaim(s, step.run);
      }
      if step.Check? && step.run == run && step.told {
        assert ClaimCovers(s, s.runs[run].msg);
        forall i | 0 <= i < |s.counted| ensures s.counted[i].msg != s.runs[run].msg || ClaimLive(s, s.runs[run].msg) {
          assert IncrementAgrees(s, i);
        }
      } else if step.Check? {
        assert run in s.runs ==> ClaimCovers(s, s.runs[run].msg);
      }
    }
  }

  lemma StepKeepsCountedOnce(s: State, step: Step, config: Config, i: nat, j: nat)
    requires Inv(s, config) && Enabled(s, step) && Apply(s, step, config).punctual
    ensures CountedOnce(Apply(s, step, config), i, j)
  {
    assert CountedOnce(s, i, j);
    if step.Count? {
      assert OwnsClaim(s, step.run);
    }
  }

  lemma StepKeepsInv(s: State, step: Step, config: Config)
    requires Inv(s, config) && Enabled(s, step)
    ensures Inv(Apply(s, step, config), config)
  {
    var after := Apply(s, step, config);
    forall user ensures CounterAgrees(after, user) { StepKeepsCounters(s, step, config, user); }
    forall user, other ensures BirthsDiffer(after, user, other) { StepKeepsBirths(s, step, config, user, other); }
    forall user ensures CounterOwner(after, user) { StepKeepsOwner(s, step, config, user); }
    StepKeepsRun(s, step, config);
    forall i ensures IncrementAgrees(after, i) { StepKeepsIncrement(s, step, config, i); }
    StepKeepsFlag(s, step, config);
    forall msg ensures MailAgrees(after, msg) { StepKeepsMail(s, step, config, msg); }
    if after.punctual {
      forall msg ensures ClaimCovers(after, msg) { StepKeepsClaim(s, step, config, msg); }
      StepKeepsOwnership(s, step, config);
      forall i, j ensures CountedOnce(after, i, j) { StepKeepsCountedOnce(s, step, config, i, j); }
    }
  }

  lemma {:induction false} InvHolds(s: State, steps: seq<Step>, config: Config)
    requires Inv(s, config) && IsRun(s, steps, config)
    ensures Inv(After(s, steps, config), config)
    decreases |steps|
  {
    if steps != [] {
      StepKeepsInv(s, steps[0], config);
      InvHolds(Apply(s, steps[0], config), steps[1..], config);
    }
  }

  // ----- what a flag means -----

  /** The messages counted in one life of a counter key. */
  ghost function CountedIn(counted: seq<Increment>, birth: nat): set<nat> {
    set i | 0 <= i < |counted| && counted[i].birth == birth :: counted[i].msg
  }

  lemma CountedInExtends(counted: seq<Increment>, c: Increment, birth: nat)
    ensures CountedIn(counted + [c], birth) == CountedIn(counted, birth) + if c.birth == birth then {c.msg} else {}
  {
    var longer := counted + [c];
    assert forall i :: 0 <= i < |counted| ==> longer[i] == counted[i];
    assert longer[|counted|] == c;
  }

  lemma {:induction false} TallyIsSize(counted: seq<Increment>, birth: nat)
    requires forall i, j :: 0 <= i < j < |counted| ==> counted[i].msg != counted[j].msg
    ensures |CountedIn(counted, birth)| == Tally(counted, birth)
  {
    if counted == [] {
      assert CountedIn(counted, birth) == {};
    } else {
      var earlier := counted[..|counted| - 1];
      var last := counted[|counted| - 1];
      TallyIsSize(earlier, birth);
      assert earlier + [last] == counted;
      CountedInExtends(earlier, last, birth);
    }
  }

  /** Each message raised a counter at most once. */
  ghost predicate CountsOnce(s: State) {
    forall i, j :: 0 <= i < j < |s.counted| ==> s.counted[i].msg != s.counted[j].msg
  }

  /** The flag's count is over the threshold, and that many different messages of
      the user, none of them a flag itself, were counted in one life of the
      user's counter. */
  ghost predicate Justified(s: State, f: nat, config: Config)
    requires f < |s.flags|
  {
    var flag := s.flags[f];
    && config.threshold < flag.n <= |CountedIn(s.counted, flag.birth)|
    && forall msg :: msg in CountedIn(s.counted, flag.birth) ==>
         msg < |s.mail| && s.mail[msg].user == flag.user && s.mail[msg].kind != FraudFlagged
  }

  ghost predicate AllJustified(s: State, config: Config) {
    CountsOnce(s) && forall f :: 0 <= f < |s.flags| ==> Justified(s, f, config)
  }

  lemma CountsOnceIn(s: State, config: Config)
    requires Inv(s, config) && s.punctual
    ensures CountsOnce(s)
  {
    forall i, j | 0 <= i < j < |s.counted| ensures s.counted[i].msg != s.counted[j].msg {
      assert CountedOnce(s, i, j);
    }
  }

  /** In every run whose dedup checks are made while messages are retained, each
      message is counted at most once and every flag is justified. */
  lemma FlagsAreJustified(steps: seq<Step>, config: Config)
    requires IsRun(EMPTY, steps, config) && After(EMPTY, steps, config).punctual
    ensures AllJustified(After(EMPTY, steps, config), config)
  {
    InvHolds(EMPTY, steps, config);
    var s := After(EMPTY, steps, config);
    CountsOnceIn(s, config);
    forall f | 0 <= f < |s.flags| ensures Justified(s, f, config) {
      assert FlagAgrees(s, f, config);
      TallyIsSize(s.counted, s.flags[f].birth);
      forall i | 0 <= i < |s.counted| && s.counted[i].birth == s.flags[f].birth
        ensures IncrementFor(s, i, s.flags[f].user)
      {
      }
    }
  }

  /** A counter key holds the number of messages counted since it was created. */
  lemma CountersAreExact(steps: seq<Step>, config: Config, user: string)
    requires IsRun(EMPTY, steps, config) && After(EMPTY, steps, config).punctual
    requires user in After(EMPTY, steps, config).counters
    ensures var s := After(EMPTY, steps, config);
      s.counters[user].count == |CountedIn(s.counted, s.counters[user].birth)|
  {
    InvHolds(EMPTY, steps, config);
    var s := After(EMPTY, steps, config);
    assert CounterAgrees(s, user);
    CountsOnceIn(s, config);
    TallyIsSize(s.counted, s.counters[user].birth);
  }

  lemma {:induction false} RunSnoc(s: State, steps: seq<Step>, step: Step, config: Config)
    requires IsRun(s, steps, config) && Enabled(After(s, steps, config), step)
    ensures IsRun(s, steps + [step], config)
    ensures After(s, steps + [step], config) == Apply(After(s, steps, config), step, config)
    decreases |steps|
  {
    if steps != [] {
      RunSnoc(Apply(s, steps[0], config), steps[1..], step, config);
      assert (steps + [step])[1..] == steps[1..] + [step];
    }
  }
}
