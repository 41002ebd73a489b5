/** What a dedup check of the fraud detector does that comes after its message's
    retention. */
module FraudLate {
  import Dedup
  import opened Events
  import opened Fraud
  import opened FraudWindow
  import opened Wrappers

  /** Two messages make a flag, and a counter lives for two days. */
  const TWO_DAYS := Config(1, 2 * RETENTION_MS)

  /** The one message was counted, and its key given its expiry, at once. */
  lemma CountedAtOnce() returns (steps: seq<Step>)
    ensures Final(steps, TWO_DAYS, {}, 0) == Some(OneCounted(At(2 * RETENTION_MS), Done, 0))
  {
    steps := FirstCounts(TWO_DAYS, {}, 0);
    steps := Extend(steps, Expire(0, true, true), TWO_DAYS, {}, 0);
    assert Final(steps, TWO_DAYS, {}, 0).value == OneCounted(At(2 * RETENTION_MS), Done, 0);
  }

  /** Run 1 got it in the last millisecond of its retention, and claims it in the
      next one. */
  function ClaimedAgain(): State {
    OneCounted(At(2 * RETENTION_MS), Done, RETENTION_MS).(
      claims := map[0 := Dedup.Claim(1, RETENTION_MS + CLAIM_MS)],
      runs := map[0 := Run(0, Done), 1 := Run(0, Claimed)], punctual := false)
  }

  function ReceivedAgain(): State {
    OneCounted(At(2 * RETENTION_MS), Done, RETENTION_MS).(runs := map[0 := Run(0, Done), 1 := Run(0, Started)])
  }

  lemma ReceivesAgain() returns (steps: seq<Step>)
    ensures Final(steps, TWO_DAYS, {}, 0) == Some(ReceivedAgain())
  {
    steps := CountedAtOnce();
    steps := Extend(steps, Wait(RETENTION_MS - 1), TWO_DAYS, {}, 0);
    steps := Extend(steps, Receive(1, 0), TWO_DAYS, {}, 0);
    steps := Extend(steps, Wait(1), TWO_DAYS, {}, 0);
    assert Final(steps, TWO_DAYS, {}, 0).value == ReceivedAgain();
  }

  lemma ClaimsAgain() returns (steps: seq<Step>)
    ensures Final(steps, TWO_DAYS, {}, 0) == Some(ClaimedAgain())
  {
    steps := ReceivesAgain();
    steps := Extend(steps, Check(1, true), TWO_DAYS, {}, 0);
    assert Final(steps, TWO_DAYS, {}, 0).value == ClaimedAgain();
  }

  /** One message is counted twice, and flagged as if it were two, though no
      operation fails and no handlers overlap. */
  lemma LateCheckFlagsOneMessage() returns (steps: seq<Step>)
    ensures exists s ::
      && Final(steps, TWO_DAYS, {}, 0) == Some(s)
      && |s.flags| == 1 && !CountsOnce(s) && !Justified(s, 0, TWO_DAYS) && !AllJustified(s, TWO_DAYS)
  {
    steps := ClaimsAgain();
    steps := Extend(steps, Count(1, true, true), TWO_DAYS, {}, 0);
    assert Final(steps, TWO_DAYS, {}, 0).value.counted == [Increment(0, 0, 0), Increment(0, 0, RETENTION_MS)];
    assert Final(steps, TWO_DAYS, {}, 0).value.runs[1] == Run(0, Counted(2, 0));
    steps := Extend(steps, Decide(1), TWO_DAYS, {}, 0);
    assert Final(steps, TWO_DAYS, {}, 0).value.runs[1] == Run(0, Over(2, 0));
    steps := Extend(steps, Publish(1, true, true), TWO_DAYS, {}, 0);
    var s := After(EMPTY, steps, TWO_DAYS);
    assert s.flags == [Flag("u", 2, 0)];
    assert s.counted[0].msg == s.counted[1].msg;
    assert CountedIn(s.counted, 0) == {0};
  }

  /** Exactly when all flags are justified and no message is counted twice, in all
      runs: when the dedup checks that are allowed are those made while the
      message is retained. */
  lemma FlagsAreJustifiedExactly(late: bool)
    ensures !late <==>
      forall config, steps :: IsRun(EMPTY, steps, config) && (late || After(EMPTY, steps, config).punctual) ==>
        AllJustified(After(EMPTY, steps, config), config)
  {
    if late {
      var steps := LateCheckFlagsOneMessage();
      assert IsRun(EMPTY, steps, TWO_DAYS);
      assert !AllJustified(After(EMPTY, steps, TWO_DAYS), TWO_DAYS);
    } else {
      forall config, steps | IsRun(EMPTY, steps, config) && After(EMPTY, steps, config).punctual
        ensures AllJustified(After(EMPTY, steps, config), config)
      {
        FlagsAreJustified(steps, config);
      }
    }
  }
}
