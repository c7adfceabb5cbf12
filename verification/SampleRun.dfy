/** The network's assumptions can be met and its conclusions reached: a run of one
    validator that certifies and then orders a block. */
module SampleRun {
  import opened Wrappers
  import opened Quorum
  import opened ConsensusTypes
  import opened PendingVotes
  import opened PendingOrderVotes
  import opened SafetyRules
  import opened Network

  const SOLO: ValidatorVerifier := ValidatorVerifier([Validator(0, 1)], 1)
  const ROOT: Block := Genesis(1, 0)
  const SOLO_CONFIG: Config := Config(SOLO, 1, {0}, ROOT)
  const ROOT_QC: QuorumCert :=
    QuorumCert(VoteData(ROOT, ROOT), LedgerInfo(Some(ROOT), Some(VoteData(ROOT, ROOT))), {})
  const FIRST: Block := Block(1, 1, ROOT_QC, 0)
  const FIRST_VOTE: Vote := Vote(0, VoteData(FIRST, ROOT), VoteLedgerInfo(FIRST), None)
  const FIRST_QC: QuorumCert := QuorumCert(VoteData(FIRST, ROOT), VoteLedgerInfo(FIRST), {0})

  const STEPS: seq<Step> := [
    EnterRound(0, 1),
    CastVote(0, FIRST, true, None),
    ReceiveVote(0, FIRST_VOTE, true),
    CastOrderVote(0, FIRST, FIRST_QC),
    ReceiveOrderVote(0, OrderVote(0, OrderLedgerInfo(FIRST)), true)]

  lemma SoloPower()
    ensures SOLO.Authors() == {0} && SOLO.Power({0}) == 1 && SOLO.Power({}) == 0
    ensures SOLO_CONFIG.Valid()
  {
    assert SOLO.validators[0].author in SOLO.Authors();
    assert SOLO.validators[1..] == [];
    assert SOLO.Authors() - {0} == {};
  }

  lemma RunMore(c: Config, steps: seq<Step>, i: nat)
    requires c.Valid() && i < |steps|
    ensures Run(c, steps[..i + 1]) == Apply(c, Run(c, steps[..i]), steps[i])
  {
    assert steps[..i + 1][..i] == steps[..i];
  }

  lemma Voted()
    ensures SOLO_CONFIG.Valid()
    ensures var s := Run(SOLO_CONFIG, STEPS[..2]);
      && 0 in s.nodes && s.nodes[0].round == 1 && s.nodes[0].tally == EMPTY_TALLY
      && s.nodes[0].manager == NEW_MANAGER
      && s.nodes[0].safety.epoch == 1 && s.nodes[0].safety.highestTimeoutRound == 0
      && s.sigs == {OnLedger(0, VoteLedgerInfo(FIRST))}
  {
    SoloPower();
    RunMore(SOLO_CONFIG, STEPS, 0);
    RunMore(SOLO_CONFIG, STEPS, 1);
    assert STEPS[..0] == [];
    assert Collected(map[], 0) == map[];
  }

  lemma CertifiedAlone()
    ensures SOLO_CONFIG.Valid()
    ensures var s := Run(SOLO_CONFIG, STEPS[..3]);
      && 0 in s.nodes && FIRST_QC in s.nodes[0].qcs && s.nodes[0].manager == NEW_MANAGER
      && s.nodes[0].safety.epoch == 1 && s.nodes[0].safety.highestTimeoutRound == 0
      && s.sigs == {OnLedger(0, VoteLedgerInfo(FIRST))}
  {
    SoloPower();
    Voted();
    RunMore(SOLO_CONFIG, STEPS, 2);
    assert Recorded(EMPTY_TALLY, FIRST_VOTE).SignersOf(FIRST_VOTE.li) == {0};
  }

  lemma OrderVotedAlone()
    ensures SOLO_CONFIG.Valid()
    ensures var s := Run(SOLO_CONFIG, STEPS[..4]);
      && 0 in s.nodes && FIRST_QC in s.nodes[0].qcs && s.nodes[0].manager == NEW_MANAGER
      && OnLedger(0, OrderLedgerInfo(FIRST)) in s.sigs
  {
    SoloPower();
    CertifiedAlone();
    RunMore(SOLO_CONFIG, STEPS, 3);
  }

  /** The block is certified by the vote table and ordered by the order votes. */
  lemma OrderedAlone()
    ensures SOLO_CONFIG.Valid()
    ensures var s := Run(SOLO_CONFIG, STEPS);
      && 0 in s.nodes && FIRST_QC in s.nodes[0].qcs
      && OrderedCert(OrderLedgerInfo(FIRST), {0}) in s.nodes[0].ordered
  {
    SoloPower();
    OrderVotedAlone();
    RunMore(SOLO_CONFIG, STEPS, 4);
    assert STEPS[..5] == STEPS;
    assert PartialSigners(map[], OrderLedgerInfo(FIRST)) + {0} == {0};
  }

  // ---------------------------------------------------------------- after a timeout

  const LATE: Timeout := Timeout(1, 1, ROOT_QC)
  const LATE_TC: TimeoutCert := TimeoutCert(LATE, map[0 := 0])
  const SECOND: Block := Block(1, 2, ROOT_QC, 0)

  const LATE_STEPS: seq<Step> := [SignTimeout(0, LATE, None), CastVote(0, SECOND, true, Some(LATE_TC))]

  /** A validator that timed out in round one votes in round two for a block that skips
      it, with the timeout certificate as the reason. */
  lemma VotedAfterTimeout()
    ensures SOLO_CONFIG.Valid()
    ensures var s := Run(SOLO_CONFIG, LATE_STEPS);
      0 in s.nodes && s.nodes[0].safety.lastVotedRound == 2 && OnLedger(0, VoteLedgerInfo(SECOND)) in s.sigs
  {
    SoloPower();
    TimedOutAlone();
    RunMore(SOLO_CONFIG, LATE_STEPS, 1);
    assert LATE_STEPS[..2] == LATE_STEPS;
    assert LATE_TC.rounds.Keys == {0};
    assert IsHighest(LATE_TC.rounds, 0) by { assert 0 in LATE_TC.rounds; }
  }

  lemma TimedOutAlone()
    ensures SOLO_CONFIG.Valid()
    ensures var s := Run(SOLO_CONFIG, LATE_STEPS[..1]);
      && 0 in s.nodes && s.sigs == {OnTimeout(0, 1, 1, 0)}
      && s.nodes[0].safety == SafetyData(1, 1, 0, 0, None, 1)
  {
    SoloPower();
    RunMore(SOLO_CONFIG, LATE_STEPS, 0);
    assert LATE_STEPS[..0] == [];
  }
}
