/** Blocks, votes, timeouts and the certificates built from them.

    Hashes are taken to be collision free, so a digest is represented by the
    value it hashes: a block id by the block, a ledger-info digest by the ledger
    info, a consensus-data hash by the vote data (`None` is the zero hash).
    Signatures are represented by the set of messages signed so far: an author's
    signature on a message verifies exactly when that pair is in the set. */
module ConsensusTypes {
  import opened Wrappers
  import opened Quorum

  type Round = nat

  const MAX_ROUND: nat := 0xFFFF_FFFF_FFFF_FFFF

  /** A block names its parent through the quorum certificate it carries. */
  datatype Block =
    | Genesis(epoch: nat, seed: nat)
    | Block(epoch: nat, round: Round, qc: QuorumCert, payload: nat)
  {
    function GetRound(): Round {
      if Genesis? then 0 else round
    }

    function Parent(): Block
      requires Block?
    {
      qc.data.proposed
    }
  }

  datatype VoteData = VoteData(proposed: Block, parent: Block)

  /** `commit` is `None` for the empty block info. */
  datatype LedgerInfo = LedgerInfo(commit: Option<Block>, data: Option<VoteData>) {

    function Epoch(): nat {
      match data
      case Some(d) => d.proposed.epoch
      case None => if commit.Some? then commit.value.epoch else 0
    }

    function CommitRound(): Round {
      if commit.Some? then commit.value.GetRound() else 0
    }
  }

  datatype QuorumCert = QuorumCert(data: VoteData, li: LedgerInfo, signers: set<Author>)

  datatype Timeout = Timeout(epoch: nat, round: Round, qc: QuorumCert) {
    function HqcRound(): Round {
      qc.data.proposed.GetRound()
    }
  }

  /** The certificate keeps the timeout with the highest certified round and,
      for each signer, the certified round that signer signed. */
  datatype TimeoutCert = TimeoutCert(timeout: Timeout, rounds: map<Author, Round>)

  datatype Vote = Vote(author: Author, data: VoteData, li: LedgerInfo, timeout: Option<Timeout>)

  datatype OrderVote = OrderVote(author: Author, li: LedgerInfo)

  /** A ledger info together with the authors whose signatures were aggregated. */
  datatype OrderedCert = OrderedCert(li: LedgerInfo, signers: set<Author>)

  datatype Signature =
    | OnLedger(author: Author, li: LedgerInfo)
    | OnTimeout(author: Author, epoch: nat, round: Round, hqcRound: Round)
  {
    function Epoch(): nat {
      if OnLedger? then li.Epoch() else epoch
    }
  }

  /** The block and its ancestors, following the certificates they carry. */
  predicate Extends(b: Block, a: Block) {
    b == a || (b.Block? && Extends(b.Parent(), a))
  }

  /** The ledger info a correct validator signs when it votes for `b`: it commits
      the parent exactly when the two rounds are consecutive. */
  function VoteLedgerInfo(b: Block): LedgerInfo
    requires b.Block?
  {
    LedgerInfo(if b.Parent().GetRound() + 1 == b.round then Some(b.Parent()) else None,
               Some(VoteData(b, b.Parent())))
  }

  /** The ledger info of an order vote: the block itself, with a zero data hash. */
  function OrderLedgerInfo(b: Block): LedgerInfo {
    LedgerInfo(Some(b), None)
  }

  predicate VoteDataVerifies(d: VoteData) {
    d.parent.epoch == d.proposed.epoch && d.parent.GetRound() < d.proposed.GetRound()
  }

  predicate QuorumSigned(v: ValidatorVerifier, sigs: set<Signature>, li: LedgerInfo, signers: set<Author>) {
    && signers <= v.Authors()
    && v.Power(signers) >= v.quorum
    && (forall a :: a in signers ==> OnLedger(a, li) in sigs)
  }

  /** A round-zero certificate is implicit and carries no signatures. */
  predicate QcVerifies(v: ValidatorVerifier, sigs: set<Signature>, qc: QuorumCert) {
    && qc.li.data == Some(qc.data)
    && if qc.data.proposed.GetRound() == 0 then
         qc.data.parent == qc.data.proposed && qc.li.commit == Some(qc.data.proposed) && qc.signers == {}
       else
         QuorumSigned(v, sigs, qc.li, qc.signers) && VoteDataVerifies(qc.data)
  }

  predicate TimeoutVerifies(v: ValidatorVerifier, sigs: set<Signature>, t: Timeout) {
    t.HqcRound() < t.round && QcVerifies(v, sigs, t.qc)
  }

  /** The certified round of the certificate is the largest one signed. */
  predicate IsHighest(rounds: map<Author, Round>, h: Round) {
    && (exists a :: a in rounds && rounds[a] == h)
    && (forall a :: a in rounds ==> rounds[a] <= h)
  }

  predicate TcVerifies(v: ValidatorVerifier, sigs: set<Signature>, tc: TimeoutCert) {
    && TimeoutVerifies(v, sigs, tc.timeout)
    && tc.rounds.Keys <= v.Authors()
    && v.Power(tc.rounds.Keys) >= v.quorum
    && (forall a :: a in tc.rounds ==>
          OnTimeout(a, tc.timeout.epoch, tc.timeout.round, tc.rounds[a]) in sigs)
    && IsHighest(tc.rounds, tc.timeout.HqcRound())
  }

  predicate VoteVerifies(v: ValidatorVerifier, sigs: set<Signature>, vote: Vote) {
    && vote.li.data == Some(vote.data)
    && vote.author in v.Authors()
    && OnLedger(vote.author, vote.li) in sigs
    && (vote.timeout.Some? ==>
          var t := vote.timeout.value;
          && t.epoch == vote.data.proposed.epoch
          && t.round == vote.data.proposed.GetRound()
          && TimeoutVerifies(v, sigs, t)
          && OnTimeout(vote.author, t.epoch, t.round, t.HqcRound()) in sigs)
    && VoteDataVerifies(vote.data)
  }

  predicate OrderVoteVerifies(v: ValidatorVerifier, sigs: set<Signature>, ov: OrderVote) {
    && ov.li.data == None
    && ov.author in v.Authors()
    && OnLedger(ov.author, ov.li) in sigs
  }
}
