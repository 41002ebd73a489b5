/** The fraud detector's handler, as it runs among other runs of itself. */
module Detector {
  import opened Events
  import opened Fraud

  function RunOf(step: Step): int {
    match step
    case Receive(run, _) => run
    case Ignore(run) => run
    case Check(run, _) => run
    case CheckFailed(run) => run
    case Count(run, _, _) => run
    case Expire(run, _, _) => run
    case Decide(run) => run
    case Publish(run, _, _) => run
    case Crash(run) => run
    case _ => -1
  }

  /** What others do at each waiting point, and which operations fail. */
  datatype Fate = Fate(others: nat -> seq<Step>, fails: nat -> bool)

  class Handler {
    const config: Config
    var state: State
    ghost var steps: seq<Step>

    ghost predicate Valid()
      reads this
    {
      IsRun(EMPTY, steps, config) && state == After(EMPTY, steps, config)
    }

    constructor (config: Config)
      ensures Valid() && state == EMPTY && this.config == config
    {
      this.config := config;
      state, steps := EMPTY, [];
    }

    lemma Reachable()
      requires Valid()
      ensures Inv(state, config)
    {
      InvHolds(EMPTY, steps, config);
    }

    method Do(step: Step)
      requires Valid() && Enabled(state, step)
      modifies this
      ensures Valid() && state == Apply(old(state), step, config) && steps == old(steps) + [step]
    {
      RunSnoc(EMPTY, steps, step, config);
      state := Apply(state, step, config);
      steps := steps + [step];
    }

    /** The run works on a message and has reached a phase. */
    ghost predicate RunAt(run: nat, msg: nat, phase: Phase)
      reads this
    {
      Valid() && InPhase(state, run, phase) && state.runs[run].msg == msg && msg < |state.mail|
    }

    /** The steps of other runs, of time and of the queue. */
    method Others(schedule: seq<Step>, run: nat, ghost msg: nat, ghost phase: Phase)
      requires RunAt(run, msg, phase)
      modifies this
      ensures RunAt(run, msg, phase) && old(steps) <= steps
      ensures state.mail[msg] == old(state.mail[msg]) && old(state.counted) <= state.counted
    {
      for k := 0 to |schedule|
        invariant RunAt(run, msg, phase) && old(steps) <= steps
        invariant state.mail[msg] == old(state.mail[msg]) && old(state.counted) <= state.counted
      {
        if RunOf(schedule[k]) != run && Enabled(state, schedule[k]) {
          Do(schedule[k]);
        }
      }
    }

    /** The dedup check.  When it fails, `lost` says that the key was set. */
    method Checks(run: nat, ghost msg: nat, fails: bool, lost: bool) returns (seen: bool, ok: bool)
      requires RunAt(run, msg, Started) && state.mail[msg].kind != FraudFlagged
      modifies this
      ensures old(steps) <= steps && state.mail == old(state.mail)
      ensures RunAt(run, msg, if !ok then Failed else if seen then Skipped else Claimed)
      ensures ok == !fails && (ok ==> seen == ClaimLive(old(state), msg))
      ensures seen ==> ok && msg in state.claims
      ensures state.flags == old(state.flags) && state.counted == old(state.counted)
    {
      if fails {
        Do(if lost then Check(run, false) else CheckFailed(run));
        return false, false;
      }
      seen := ClaimLive(state, state.runs[run].msg);
      ok := true;
      Do(Check(run, true));
    }

    /** The message's increment is the k-th, in that life of its user's counter,
        and was the n-th of that life. */
    ghost predicate CountedAs(k: nat, msg: nat, n: nat, birth: nat)
      reads this
    {
      && k < |state.counted|
      && state.counted[k].msg == msg && state.counted[k].birth == birth
      && n == Tally(state.counted[..k + 1], birth)
    }

    /** INCR on the user's key: what was read is the number of increments in the
        life of the key, this message's included. */
    method Counts(run: nat, ghost msg: nat, fails: bool, lost: bool) returns (n: nat, ghost birth: nat, ok: bool)
      requires RunAt(run, msg, Claimed)
      modifies this
      ensures old(steps) <= steps && state.mail == old(state.mail)
      ensures RunAt(run, msg, if ok then Counted(n, birth) else Failed)
      ensures ok == !fails
      ensures ok ==> CountedAs(old(|state.counted|), msg, n, birth)
      ensures ok ==>
        && state.mail[msg].user in state.counters
        && state.counters[state.mail[msg].user].birth == birth && state.counters[state.mail[msg].user].count == n
    {
      var user := MailOf(state, run).user;
      n := Incremented(state, user).count;
      birth := Incremented(state, user).birth;
      Do(Count(run, !fails || lost, !fails));
      ok := !fails;
      if ok {
        CountIsTally(user);
      }
    }

    /** A counter holds the number of increments in its life. */
    lemma CountIsTally(user: string)
      requires Valid() && user in state.counters
      ensures state.counters[user].count == Tally(state.counted[..|state.counted|], state.counters[user].birth)
    {
      Reachable();
      assert CounterAgrees(state, user);
      assert state.counted[..|state.counted|] == state.counted;
    }

    /** The expiry of a new key, then the comparison with the threshold.  A success
        on a first count has set the expiry of the key that is there. */
    method Judges(run: nat, ghost msg: nat, n: nat, ghost birth: nat, fails: bool, lost: bool)
      returns (over: bool, ok: bool)
      requires RunAt(run, msg, Counted(n, birth))
      modifies this
      ensures old(steps) <= steps && state.mail == old(state.mail) && state.counted == old(state.counted)
      ensures RunAt(run, msg, if !ok then Failed else if over then Over(n, birth) else Done)
      ensures ok ==> over == (n > config.threshold)
      ensures ok || (n == 1 && fails)
      ensures n == 1 && ok ==> steps == old(steps) + [Expire(run, true, true)]
      ensures n == 1 && ok && CounterLive(old(state), state.mail[msg].user) ==>
        var user := state.mail[msg].user;
        user in state.counters && state.counters[user].expiry == At(state.now + config.windowMs)
    {
      if n == 1 {
        Do(Expire(run, !fails || lost, !fails));
        return 1 > config.threshold, !fails;
      }
      Do(Decide(run));
      return n > config.threshold, true;
    }

    /** The publication of the flag. */
    method Flags(run: nat, ghost msg: nat, ghost n: nat, ghost birth: nat, accepted: bool, told: bool)
      requires RunAt(run, msg, Over(n, birth)) && (told ==> accepted)
      modifies this
      ensures RunAt(run, msg, if told then Done else Failed) && old(steps) <= steps
      ensures state.mail[msg] == old(state.mail[msg]) && state.counted == old(state.counted)
      ensures state.flags == old(state.flags) + if accepted then [Flag(state.mail[msg].user, n, birth)] else []
    {
      Do(Publish(run, accepted, told));
    }

    /** Since that step of the history the run has set the expiry of its key. */
    ghost predicate ExpirySet(run: nat, since: nat)
      reads this
    {
      exists i :: since <= i < |steps| && steps[i] == Expire(run, true, true)
    }

    lemma ExpiryStaysSet(run: nat, since: nat, before: seq<Step>)
      requires before <= steps && since < |before| && before[|before| - 1] == Expire(run, true, true)
      ensures ExpirySet(run, since)
    {
      assert steps[|before| - 1] == Expire(run, true, true);
    }

    /** What a success after the claim has done: the message is counted, not before
        that place in the history; if it was the first of its counter's life the
        key has been given its expiry; and if it was the n-th and n is over the
        threshold, that very count was flagged last of all. */
    ghost predicate Processed(run: nat, msg: nat, since: nat, k: nat, n: nat, birth: nat)
      reads this
    {
      && msg < |state.mail|
      && CountedAs(k, msg, n, birth)
      && (n == 1 ==> ExpirySet(run, since))
      && (n > config.threshold ==>
            state.flags != [] && state.flags[|state.flags| - 1] == Flag(state.mail[msg].user, n, birth))
    }

    /** INCR, expiry, comparison and flag. */
    method CountsAndFlags(run: nat, ghost msg: nat, fate: Fate, accepted: bool)
      returns (ghost k: nat, ghost n: nat, ghost birth: nat, ok: bool)
      requires RunAt(run, msg, Claimed)
      modifies this
      ensures RunAt(run, msg, if ok then Done else Failed) && old(steps) <= steps
      ensures ok ==> old(|state.counted|) <= k && Processed(run, msg, old(|steps|), k, n, birth)
      ensures ok || exists k :: fate.fails(k)
    {
      Others(fate.others(1), run, msg, Claimed);
      k := |state.counted|;
      var count, life, counted := Counts(run, msg, fate.fails(2), fate.fails(3));
      n, birth := count, life;
      if !counted {
        return k, n, birth, false;
      }
      ok := JudgesAndFlags(run, msg, count, k, birth, |old(steps)|, fate, accepted);
    }

    /** A count keeps its place and its number. */
    lemma StaysCounted(before: seq<Increment>, k: nat, msg: nat, n: nat, birth: nat)
      requires before <= state.counted && k < |before|
      requires before[k].msg == msg && before[k].birth == birth && n == Tally(before[..k + 1], birth)
      ensures CountedAs(k, msg, n, birth)
    {
      assert before[..k + 1] == state.counted[..k + 1];
    }

    /** What follows the count. */
    method JudgesAndFlags(run: nat, ghost msg: nat, n: nat, ghost k: nat, ghost birth: nat, ghost since: nat,
                          fate: Fate, accepted: bool)
      returns (ok: bool)
      requires RunAt(run, msg, Counted(n, birth)) && CountedAs(k, msg, n, birth) && since <= |steps|
      modifies this
      ensures RunAt(run, msg, if ok then Done else Failed) && old(steps) <= steps
      ensures ok ==> Processed(run, msg, since, k, n, birth)
      ensures ok || exists k :: fate.fails(k)
    {
      ghost var before := state.counted;
      Others(fate.others(2), run, msg, Counted(n, birth));
      var over, judged := Judges(run, msg, n, birth, fate.fails(4), fate.fails(5));
      ghost var expired := steps;
      if !judged {
        return false;
      }
      ok := true;
      if over {
        Others(fate.others(3), run, msg, Over(n, birth));
        Flags(run, msg, n, birth, accepted || !fate.fails(6), !fate.fails(6));
        ok := !fate.fails(6);
      }
      StaysCounted(before, k, msg, n, birth);
      if n == 1 {
        ExpiryStaysSet(run, since, expired);
      }
    }

    /** One delivery of a message.  Whatever fails and whatever the others do, the
        run ends.  A success means one of three things: the message was a flag
        itself, or an earlier run holds its claim, or it was counted and judged
        here.  A failure is that of an operation. */
    method Handle(run: nat, msg: nat, fate: Fate, accepted: bool)
      returns (seen: bool, ghost k: nat, ghost n: nat, ghost birth: nat, ok: bool)
      requires Valid() && run !in state.runs && Retained(state, msg)
      modifies this
      ensures old(steps) <= steps
      ensures RunAt(run, msg,
                    if !ok then Failed
                    else if old(state.mail[msg].kind) == FraudFlagged then Ignored
                    else if seen then Skipped else Done)
      ensures old(state.mail[msg].kind) == FraudFlagged ==>
        ok && state.flags == old(state.flags) && state.counted == old(state.counted)
      ensures old(state.mail[msg].kind) != FraudFlagged && ok && !seen ==>
        old(|state.counted|) <= k && Processed(run, msg, old(|steps|), k, n, birth)
      ensures seen ==> ok && msg in state.claims
      ensures ok || exists k :: fate.fails(k)
    {
      seen, k, n, birth := false, 0, 0, 0;
      Do(Receive(run, msg));
      if state.mail[msg].kind == FraudFlagged {
        Do(Ignore(run));
        return false, 0, 0, 0, true;
      }
      Others(fate.others(0), run, msg, Started);
      var checked;
      seen, checked := Checks(run, msg, fate.fails(0), fate.fails(1));
      if !checked || seen {
        return seen, 0, 0, 0, checked;
      }
      ghost var since := |steps|;
      k, n, birth, ok := CountsAndFlags(run, msg, fate, accepted);
      if ok && n == 1 {
        ExpirySetSooner(run, since, |old(steps)|);
      }
    }

    lemma ExpirySetSooner(run: nat, since: nat, earlier: nat)
      requires ExpirySet(run, since) && earlier <= since
      ensures ExpirySet(run, earlier)
    {
      var i :| since <= i < |steps| && steps[i] == Expire(run, true, true);
    }
  }
}
