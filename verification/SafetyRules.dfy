/** The rules under which a validator signs votes, timeouts and order votes.

    The signatures that exist are passed in as `sigs`; a message verifies exactly
    when the signatures it claims are in that set. */
module SafetyRules {
  import opened Wrappers
  import opened Quorum
  import opened ConsensusTypes

  datatype SafetyError =
    | NotInitialized
    | IncorrectEpoch
    | InvalidProposal
    | InvalidQuorumCertificate
    | InvalidOneChainQuorumCertificate
    | InvalidTimeout
    | InvalidTimeoutCertificate
    | IncorrectLastVotedRound
    | IncorrectRound
    | NotSafeToVote
    | NotSafeToTimeout
    | NotSafeForOrderVote

  datatype SafetyData = SafetyData(
    epoch: nat,
    lastVotedRound: Round,
    preferredRound: Round,
    oneChainRound: Round,
    lastVote: Option<Vote>,
    highestTimeoutRound: Round)

  function NewEpoch(epoch: nat): SafetyData {
    SafetyData(epoch, 0, 0, 0, None, 0)
  }

  function Max(a: nat, b: nat): nat {
    if b > a then b else a
  }

  /** `next_round`: fails on the largest 64-bit round. */
  function NextRound(r: Round): Option<Round> {
    if r < MAX_ROUND then Some(r + 1) else None
  }

  function ObserveQc(d: SafetyData, qc: QuorumCert): SafetyData {
    d.(oneChainRound := Max(d.oneChainRound, qc.data.proposed.GetRound()),
       preferredRound := Max(d.preferredRound, qc.data.parent.GetRound()))
  }

  /** Either rule lets the round through; a failed increment is an error of its own. */
  function FollowsRound(round: Round, qcRound: Round, tcRound: Round, tcAllowed: bool, notSafe: SafetyError)
    : Result<(), SafetyError>
  {
    match NextRound(qcRound)
    case None => Err(IncorrectRound)
    case Some(afterQc) =>
      if round == afterQc then Ok(())
      else match NextRound(tcRound)
        case None => Err(IncorrectRound)
        case Some(afterTc) => if round == afterTc && tcAllowed then Ok(()) else Err(notSafe)
  }

  function TcRound(tc: Option<TimeoutCert>): Round {
    if tc.Some? then tc.value.timeout.round else 0
  }

  function TcHqcRound(tc: Option<TimeoutCert>): Round {
    if tc.Some? then tc.value.timeout.HqcRound() else 0
  }

  function SafeToVote(block: Block, tc: Option<TimeoutCert>): Result<(), SafetyError>
    requires block.Block?
  {
    var qcRound := block.Parent().GetRound();
    FollowsRound(block.round, qcRound, TcRound(tc), qcRound >= TcHqcRound(tc), NotSafeToVote)
  }

  function SafeToTimeout(t: Timeout, tc: Option<TimeoutCert>, d: SafetyData): Result<(), SafetyError> {
    match FollowsRound(t.round, t.HqcRound(), TcRound(tc), true, NotSafeToTimeout)
    case Err(e) => Err(e)
    case Ok(_) => if t.HqcRound() >= d.oneChainRound then Ok(()) else Err(NotSafeToTimeout)
  }

  predicate TcAcceptable(v: ValidatorVerifier, sigs: set<Signature>, tc: Option<TimeoutCert>) {
    tc.Some? ==> TcVerifies(v, sigs, tc.value)
  }

  /** The part of proposal verification that the model resolves. `otherChecks` is
      the outcome of the proposer's signature, the timestamps, the payload and the
      failed-author list. */
  function VerifyProposal(
    v: ValidatorVerifier, sigs: set<Signature>, d: SafetyData, block: Block, otherChecks: bool)
    : Result<VoteData, SafetyError>
  {
    if block.epoch != d.epoch then Err(IncorrectEpoch)
    else if block.Genesis? then Err(InvalidProposal)
    else if !QcVerifies(v, sigs, block.qc) then Err(InvalidQuorumCertificate)
    else if !(VoteDataVerifies(VoteData(block, block.Parent())) && otherChecks) then Err(InvalidProposal)
    else Ok(VoteData(block, block.Parent()))
  }

  /** Signing a vote: the data kept afterwards and the vote sent out. */
  function VoteOn(
    author: Author, v: ValidatorVerifier, sigs: set<Signature>, d: SafetyData,
    block: Block, otherChecks: bool, tc: Option<TimeoutCert>)
    : Result<(SafetyData, Vote), SafetyError>
  {
    match VerifyProposal(v, sigs, d, block, otherChecks)
    case Err(e) => Err(e)
    case Ok(data) =>
      if !TcAcceptable(v, sigs, tc) then Err(InvalidTimeoutCertificate)
      else if d.lastVote.Some? && d.lastVote.value.data.proposed.GetRound() == block.GetRound()
      then Ok((d, d.lastVote.value))
      else if block.GetRound() <= d.lastVotedRound then Err(IncorrectLastVotedRound)
      else match SafeToVote(block, tc)
        case Err(e) => Err(e)
        case Ok(_) =>
          var vote := Vote(author, data, VoteLedgerInfo(block), None);
          Ok((ObserveQc(d, block.qc).(lastVotedRound := block.GetRound(), lastVote := Some(vote)), vote))
  }

  /** Signing a timeout: the data kept afterwards. */
  function TimeoutOn(
    v: ValidatorVerifier, sigs: set<Signature>, d: SafetyData, t: Timeout, tc: Option<TimeoutCert>)
    : Result<SafetyData, SafetyError>
  {
    if t.epoch != d.epoch then Err(IncorrectEpoch)
    else if !TimeoutVerifies(v, sigs, t) then Err(InvalidTimeout)
    else if !TcAcceptable(v, sigs, tc) then Err(InvalidTimeoutCertificate)
    else match SafeToTimeout(t, tc, d)
      case Err(e) => Err(e)
      case Ok(_) =>
        if t.round < d.lastVotedRound then Err(IncorrectLastVotedRound)
        else Ok(d.(lastVotedRound := t.round,
                   highestTimeoutRound := Max(d.highestTimeoutRound, t.round)))
  }

  /** Signing an order vote: the data kept afterwards. */
  function OrderVoteOn(
    v: ValidatorVerifier, sigs: set<Signature>, d: SafetyData, block: Block, qc: QuorumCert)
    : Result<SafetyData, SafetyError>
  {
    if block.epoch != d.epoch then Err(IncorrectEpoch)
    else if qc.data.proposed != block then Err(InvalidOneChainQuorumCertificate)
    else if !QcVerifies(v, sigs, qc) then Err(InvalidQuorumCertificate)
    else if block.GetRound() <= d.highestTimeoutRound then Err(NotSafeForOrderVote)
    else Ok(ObserveQc(d, qc))
  }

  /** Every refused request leaves the stored data alone, because the data is
      written back only at the end. */
  class SafetyRules {
    var storage: SafetyData
    const author: Author
    var hasSigner: bool

    constructor (author: Author, epoch: nat)
      ensures storage == NewEpoch(epoch) && this.author == author && hasSigner
    {
      this.author := author;
      storage := NewEpoch(epoch);
      hasSigner := true;
    }

    method ConstructAndSignVoteTwoChain(
      v: ValidatorVerifier, sigs: set<Signature>, block: Block, otherChecks: bool, tc: Option<TimeoutCert>)
      returns (r: Result<Vote, SafetyError>)
      modifies this`storage
      ensures !hasSigner ==> r == Err(NotInitialized) && storage == old(storage)
      ensures hasSigner ==>
        match VoteOn(author, v, sigs, old(storage), block, otherChecks, tc)
        case Ok((d, vote)) => storage == d && r == Ok(vote)
        case Err(e) => storage == old(storage) && r == Err(e)
    {
      if !hasSigner {
        return Err(NotInitialized);
      }
      var voteData := VerifyProposal(v, sigs, storage, block, otherChecks);
      if voteData.Err? {
        return Err(voteData.error);
      }
      if !TcAcceptable(v, sigs, tc) {
        return Err(InvalidTimeoutCertificate);
      }
      var safetyData := storage;
      if safetyData.lastVote.Some? && safetyData.lastVote.value.data.proposed.GetRound() == block.GetRound() {
        return Ok(safetyData.lastVote.value);
      }
      if block.GetRound() <= safetyData.lastVotedRound {
        return Err(IncorrectLastVotedRound);
      }
      safetyData := safetyData.(lastVotedRound := block.GetRound());
      var safe := SafeToVote(block, tc);
      if safe.Err? {
        return Err(safe.error);
      }
      safetyData := ObserveQc(safetyData, block.qc);
      var vote := Vote(author, voteData.value, VoteLedgerInfo(block), None);
      safetyData := safetyData.(lastVote := Some(vote));
      storage := safetyData;
      return Ok(vote);
    }

    method SignTimeoutWithQc(
      v: ValidatorVerifier, sigs: set<Signature>, t: Timeout, tc: Option<TimeoutCert>)
      returns (r: Result<Signature, SafetyError>)
      modifies this`storage
      ensures !hasSigner ==> r == Err(NotInitialized) && storage == old(storage)
      ensures hasSigner ==>
        match TimeoutOn(v, sigs, old(storage), t, tc)
        case Ok(d) => storage == d && r == Ok(OnTimeout(author, t.epoch, t.round, t.HqcRound()))
        case Err(e) => storage == old(storage) && r == Err(e)
    {
      if !hasSigner {
        return Err(NotInitialized);
      }
      var safetyData := storage;
      if t.epoch != safetyData.epoch {
        return Err(IncorrectEpoch);
      }
      if !TimeoutVerifies(v, sigs, t) {
        return Err(InvalidTimeout);
      }
      if !TcAcceptable(v, sigs, tc) {
        return Err(InvalidTimeoutCertificate);
      }
      var safe := SafeToTimeout(t, tc, safetyData);
      if safe.Err? {
        return Err(safe.error);
      }
      if t.round < safetyData.lastVotedRound {
        return Err(IncorrectLastVotedRound);
      }
      if t.round > safetyData.lastVotedRound {
        safetyData := safetyData.(lastVotedRound := t.round);
      }
      if t.round > safetyData.highestTimeoutRound {
        safetyData := safetyData.(highestTimeoutRound := t.round);
      }
      storage := safetyData;
      return Ok(OnTimeout(author, t.epoch, t.round, t.HqcRound()));
    }

    method ConstructAndSignOrderVote(
      v: ValidatorVerifier, sigs: set<Signature>, block: Block, qc: QuorumCert)
      returns (r: Result<OrderVote, SafetyError>)
      modifies this`storage
      ensures !hasSigner ==> r == Err(NotInitialized) && storage == old(storage)
      ensures hasSigner ==>
        match OrderVoteOn(v, sigs, old(storage), block, qc)
        case Ok(d) => storage == d && r == Ok(OrderVote(author, OrderLedgerInfo(block)))
        case Err(e) => storage == old(storage) && r == Err(e)
    {
      if !hasSigner {
        return Err(NotInitialized);
      }
      if block.epoch != storage.epoch {
        return Err(IncorrectEpoch);
      }
      if qc.data.proposed != block {
        return Err(InvalidOneChainQuorumCertificate);
      }
      if !QcVerifies(v, sigs, qc) {
        return Err(InvalidQuorumCertificate);
      }
      var safetyData := ObserveQc(storage, qc);
      if block.GetRound() <= safetyData.highestTimeoutRound {
        return Err(NotSafeForOrderVote);
      }
      storage := safetyData;
      return Ok(OrderVote(author, OrderLedgerInfo(block)));
    }
  }
}
