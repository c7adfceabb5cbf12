/** When the safety rules sign and what they then record, in the fields of the blocks,
    certificates and stored data. What a correct validator signs verifies for others. */
module SafetyAnswers {
  import opened Wrappers
  import opened Quorum
  import opened ConsensusTypes
  import opened SafetyRules

  // ---------------------------------------------------------------- votes

  /** The proposal is one of the epoch whose parts verify. */
  predicate ProposalVerifies(
    v: ValidatorVerifier, sigs: set<Signature>, d: SafetyData, block: Block, otherChecks: bool)
  {
    && block.Block? && block.epoch == d.epoch && otherChecks
    && QcVerifies(v, sigs, block.qc)
    && block.qc.data.proposed.epoch == block.epoch && block.qc.data.proposed.GetRound() < block.round
  }

  /** The proposal directly follows its parent, or a timeout certificate of the round
      before it that saw nothing above its parent. Rounds are 64-bit: the largest has no
      successor. */
  predicate MayVoteFor(block: Block, tc: Option<TimeoutCert>)
    requires block.Block?
  {
    var parentRound := block.qc.data.proposed.GetRound();
    && parentRound < 0xFFFF_FFFF_FFFF_FFFF
    && (|| block.round == parentRound + 1
        || (&& tc.Some? && tc.value.timeout.round < 0xFFFF_FFFF_FFFF_FFFF
            && block.round == tc.value.timeout.round + 1
            && parentRound >= tc.value.timeout.qc.data.proposed.GetRound()))
  }

  predicate VotedIn(d: SafetyData, round: Round) {
    d.lastVote.Some? && d.lastVote.value.data.proposed.GetRound() == round
  }

  /** A vote is given exactly for verified proposals with an acceptable timeout
      certificate that were voted for already, or lie above the last voted round and
      follow their parent or the timeouts. */
  lemma VoteSignedIff(
    author: Author, v: ValidatorVerifier, sigs: set<Signature>, d: SafetyData,
    block: Block, otherChecks: bool, tc: Option<TimeoutCert>)
    ensures VoteOn(author, v, sigs, d, block, otherChecks, tc).Ok? <==>
      && ProposalVerifies(v, sigs, d, block, otherChecks)
      && (tc.Some? ==> TcVerifies(v, sigs, tc.value))
      && (VotedIn(d, block.round) || (block.round > d.lastVotedRound && MayVoteFor(block, tc)))
  {
  }

  /** Which error each refusal gives. */
  lemma VoteRefusals(
    author: Author, v: ValidatorVerifier, sigs: set<Signature>, d: SafetyData,
    block: Block, otherChecks: bool, tc: Option<TimeoutCert>)
    ensures var r := VoteOn(author, v, sigs, d, block, otherChecks, tc);
      var verified := ProposalVerifies(v, sigs, d, block, otherChecks);
      var accepted := verified && (tc.Some? ==> TcVerifies(v, sigs, tc.value));
      && (r == Err(IncorrectEpoch) <==> block.epoch != d.epoch)
      && (r == Err(InvalidQuorumCertificate) <==>
            block.Block? && block.epoch == d.epoch && !QcVerifies(v, sigs, block.qc))
      && (r == Err(InvalidProposal) <==>
            && block.epoch == d.epoch && (block.Block? ==> QcVerifies(v, sigs, block.qc)) && !verified)
      && (r == Err(InvalidTimeoutCertificate) <==> verified && !accepted)
      && (r == Err(IncorrectLastVotedRound) <==>
            accepted && !VotedIn(d, block.round) && block.round <= d.lastVotedRound)
      && (r == Err(NotSafeToVote) || r == Err(IncorrectRound) <==>
            accepted && !VotedIn(d, block.round) && block.round > d.lastVotedRound && !MayVoteFor(block, tc))
      && (r == Err(IncorrectRound) ==> block.qc.data.proposed.GetRound() >= 0xFFFF_FFFF_FFFF_FFFF
                                       || (tc.Some? && tc.value.timeout.round >= 0xFFFF_FFFF_FFFF_FFFF))
  {
  }

  /** A vote of the round is returned again and nothing changes; a new vote names the
      block, its parent and, exactly when the rounds are consecutive, the parent as
      committed, and the stored rounds rise to those of the block and its certificate. */
  lemma VoteEffect(
    author: Author, v: ValidatorVerifier, sigs: set<Signature>, d: SafetyData,
    block: Block, otherChecks: bool, tc: Option<TimeoutCert>)
    requires VoteOn(author, v, sigs, d, block, otherChecks, tc).Ok?
    ensures var (d', vote) := VoteOn(author, v, sigs, d, block, otherChecks, tc).value;
      if VotedIn(d, block.round) then d' == d && Some(vote) == d.lastVote
      else
        var parent := block.qc.data.proposed;
        && vote.author == author && vote.timeout.None?
        && vote.data.proposed == block && vote.data.parent == parent && vote.li.data == Some(vote.data)
        && (vote.li.commit == Some(parent) <==> block.round == parent.GetRound() + 1)
        && (vote.li.commit == None <==> block.round != parent.GetRound() + 1)
        && d'.lastVote == Some(vote) && d'.lastVotedRound == block.round
        && RaisedTo(d.oneChainRound, parent.GetRound(), d'.oneChainRound)
        && RaisedTo(d.preferredRound, block.qc.data.parent.GetRound(), d'.preferredRound)
        && d'.epoch == d.epoch && d'.highestTimeoutRound == d.highestTimeoutRound
  {
  }

  /** A stored round after seeing another: the larger of the two. */
  predicate RaisedTo(before: Round, seen: Round, after: Round) {
    before <= after && seen <= after && (after == before || after == seen)
  }

  // ---------------------------------------------------------------- timeouts

  predicate MayTimeOut(t: Timeout, tc: Option<TimeoutCert>) {
    var certified := t.qc.data.proposed.GetRound();
    && certified < 0xFFFF_FFFF_FFFF_FFFF
    && (|| t.round == certified + 1
        || (tc.Some? && tc.value.timeout.round < 0xFFFF_FFFF_FFFF_FFFF && t.round == tc.value.timeout.round + 1))
  }

  /** A timeout is signed exactly when it is of the epoch, verifies with its certificate
      and the timeout certificate, follows one of them, admits to the one-chain round and
      is not below the last voted round; signing it again in that round is allowed. */
  lemma TimeoutSignedIff(
    v: ValidatorVerifier, sigs: set<Signature>, d: SafetyData, t: Timeout, tc: Option<TimeoutCert>)
    ensures TimeoutOn(v, sigs, d, t, tc).Ok? <==>
      && t.epoch == d.epoch
      && t.qc.data.proposed.GetRound() < t.round && QcVerifies(v, sigs, t.qc)
      && (tc.Some? ==> TcVerifies(v, sigs, tc.value))
      && MayTimeOut(t, tc)
      && t.qc.data.proposed.GetRound() >= d.oneChainRound
      && t.round >= d.lastVotedRound
    ensures TimeoutOn(v, sigs, d, t, tc).Ok? ==>
      var d' := TimeoutOn(v, sigs, d, t, tc).value;
      && d'.lastVotedRound == t.round && RaisedTo(d.highestTimeoutRound, t.round, d'.highestTimeoutRound)
      && d'.epoch == d.epoch && d'.lastVote == d.lastVote
      && d'.oneChainRound == d.oneChainRound && d'.preferredRound == d.preferredRound
  {
  }

  lemma TimeoutRefusals(
    v: ValidatorVerifier, sigs: set<Signature>, d: SafetyData, t: Timeout, tc: Option<TimeoutCert>)
    ensures var r := TimeoutOn(v, sigs, d, t, tc);
      var verified := t.epoch == d.epoch && t.qc.data.proposed.GetRound() < t.round && QcVerifies(v, sigs, t.qc);
      var accepted := verified && (tc.Some? ==> TcVerifies(v, sigs, tc.value));
      var safe := MayTimeOut(t, tc) && t.qc.data.proposed.GetRound() >= d.oneChainRound;
      && (r == Err(IncorrectEpoch) <==> t.epoch != d.epoch)
      && (r == Err(InvalidTimeout) <==> t.epoch == d.epoch && !verified)
      && (r == Err(InvalidTimeoutCertificate) <==> verified && !accepted)
      && (r == Err(NotSafeToTimeout) || r == Err(IncorrectRound) <==> accepted && !safe)
      && (r == Err(IncorrectLastVotedRound) <==> accepted && safe && t.round < d.lastVotedRound)
  {
  }

  // ---------------------------------------------------------------- order votes

  /** An order vote is signed exactly for a block of the epoch with its own verified
      certificate, above every round the validator has timed out in. */
  lemma OrderVoteSignedIff(
    v: ValidatorVerifier, sigs: set<Signature>, d: SafetyData, block: Block, qc: QuorumCert)
    ensures OrderVoteOn(v, sigs, d, block, qc).Ok? <==>
      && block.epoch == d.epoch && qc.data.proposed == block && QcVerifies(v, sigs, qc)
      && block.GetRound() > d.highestTimeoutRound
    ensures OrderVoteOn(v, sigs, d, block, qc).Ok? ==>
      var d' := OrderVoteOn(v, sigs, d, block, qc).value;
      && RaisedTo(d.oneChainRound, block.GetRound(), d'.oneChainRound)
      && RaisedTo(d.preferredRound, qc.data.parent.GetRound(), d'.preferredRound)
      && d'.epoch == d.epoch && d'.lastVote == d.lastVote && d'.lastVotedRound == d.lastVotedRound
      && d'.highestTimeoutRound == d.highestTimeoutRound
    ensures var r := OrderVoteOn(v, sigs, d, block, qc);
      && (r == Err(IncorrectEpoch) <==> block.epoch != d.epoch)
      && (r == Err(InvalidOneChainQuorumCertificate) <==> block.epoch == d.epoch && qc.data.proposed != block)
      && (r == Err(InvalidQuorumCertificate) <==>
            block.epoch == d.epoch && qc.data.proposed == block && !QcVerifies(v, sigs, qc))
  {
  }

  // ---------------------------------------------------------------- what is signed is accepted

  /** A new vote verifies for every node that has the signatures. */
  lemma SignedVoteVerifies(
    author: Author, v: ValidatorVerifier, sigs: set<Signature>, d: SafetyData,
    block: Block, otherChecks: bool, tc: Option<TimeoutCert>)
    requires author in v.Authors() && !VotedIn(d, block.GetRound())
    requires VoteOn(author, v, sigs, d, block, otherChecks, tc).Ok?
    ensures var vote := VoteOn(author, v, sigs, d, block, otherChecks, tc).value.1;
      VoteVerifies(v, sigs + {OnLedger(author, vote.li)}, vote)
  {
  }

  /** The vote of a round with the timeout its author signed in that round verifies. */
  lemma SignedTimeoutVerifies(
    v: ValidatorVerifier, sigs: set<Signature>, d: SafetyData, t: Timeout, tc: Option<TimeoutCert>, vote: Vote)
    requires TimeoutOn(v, sigs, d, t, tc).Ok? && VoteVerifies(v, sigs, vote)
    requires t.epoch == vote.data.proposed.epoch && t.round == vote.data.proposed.GetRound()
    ensures VoteVerifies(v, sigs + {OnTimeout(vote.author, t.epoch, t.round, t.qc.data.proposed.GetRound())},
                         vote.(timeout := Some(t)))
  {
    var sigs' := sigs + {OnTimeout(vote.author, t.epoch, t.round, t.HqcRound())};
    assert QcVerifies(v, sigs', t.qc);
  }

  lemma SignedOrderVoteVerifies(
    author: Author, v: ValidatorVerifier, sigs: set<Signature>, d: SafetyData, block: Block, qc: QuorumCert)
    requires author in v.Authors() && OrderVoteOn(v, sigs, d, block, qc).Ok?
    ensures var ov := OrderVote(author, OrderLedgerInfo(block));
      && ov.li.commit == Some(block) && OrderVoteVerifies(v, sigs + {OnLedger(author, ov.li)}, ov)
  {
  }
}
