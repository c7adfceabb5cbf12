/** A network of validators in one epoch.

    Correct validators sign only what `SafetyRules` lets them sign and collect
    votes with `PendingVotes` and `PendingOrderVotes`. Faulty validators sign
    anything, and any validator's signatures from other epochs may be replayed.
    Messages are not stored: a vote, a certificate or a proposal can be presented
    to anyone at any time, any number of times or never, as long as the signatures
    it claims exist. */
module Network {
  import opened Wrappers
  import opened Quorum
  import opened ConsensusTypes
  import opened PendingVotes
  import opened PendingOrderVotes
  import opened SafetyRules

  datatype Config = Config(verifier: ValidatorVerifier, epoch: nat, honest: set<Author>, genesis: Block) {
    predicate Valid() {
      FaultBound(verifier, honest) && genesis.GetRound() == 0 && genesis.epoch == epoch
    }
  }

  /** One correct validator: its safety data, its vote table for the current round,
      its order votes, and the certificates its own tables have produced. */
  datatype Node = Node(
    safety: SafetyData,
    round: Round,
    tally: Tally,
    manager: Manager,
    qcs: set<QuorumCert>,
    tcs: set<TimeoutCert>,
    ordered: set<OrderedCert>)

  datatype Net = Net(nodes: map<Author, Node>, sigs: set<Signature>)

  datatype Step =
    | CastVote(who: Author, block: Block, otherChecks: bool, tc: Option<TimeoutCert>)
    | SignTimeout(who: Author, timeout: Timeout, tc: Option<TimeoutCert>)
    | CastOrderVote(who: Author, block: Block, qc: QuorumCert)
    | ReceiveVote(who: Author, vote: Vote, aggregates: bool)
    | ReceiveOrderVote(who: Author, orderVote: OrderVote, aggregates: bool)
    | EnterRound(who: Author, round: Round)
    | RaiseOrdered(who: Author, round: Round)
    | Forge(sig: Signature)

  function NewNode(epoch: nat): Node {
    Node(NewEpoch(epoch), 0, EMPTY_TALLY, NEW_MANAGER, {}, {}, {})
  }

  function Initial(c: Config): Net {
    Net(map a | a in c.honest :: NewNode(c.epoch), {})
  }

  /** What the block store adds to the safety rules: the only round-zero block is
      the genesis of the epoch, and timeout certificates belong to the epoch. */
  predicate KnownToBlockStore(c: Config, block: Block, tc: Option<TimeoutCert>) {
    && (block.Block? && block.Parent().GetRound() == 0 ==> block.Parent() == c.genesis)
    && (tc.Some? ==> tc.value.timeout.epoch == c.epoch)
  }

  function Set(s: Net, a: Author, n: Node): Net {
    s.(nodes := s.nodes[a := n])
  }

  function Sign(s: Net, a: Author, d: SafetyData, sig: Signature): Net
    requires a in s.nodes
  {
    Set(s, a, s.nodes[a].(safety := d)).(sigs := s.sigs + {sig})
  }

  function Received(n: Node, tally: Tally, r: Reception): Node {
    n.(tally := tally,
       qcs := if r.NewQuorumCertificate? then n.qcs + {r.qc} else n.qcs,
       tcs := if r.New2ChainTimeoutCertificate? then n.tcs + {r.tc} else n.tcs)
  }

  function Ordered(n: Node, m: Manager, cert: Option<OrderedCert>): Node {
    n.(manager := m, ordered := if cert.Some? then n.ordered + {cert.value} else n.ordered)
  }

  /** A step that is not enabled changes nothing. */
  function Apply(c: Config, s: Net, step: Step): Net
    requires c.Valid()
  {
    var v := c.verifier;
    if step.Forge? then
      if step.sig.author in c.honest && step.sig.Epoch() == c.epoch then s
      else s.(sigs := s.sigs + {step.sig})
    else if step.who !in s.nodes then s
    else
      var a, n := step.who, s.nodes[step.who];
      match step
      case CastVote(_, block, otherChecks, tc) =>
        (match VoteOn(a, v, s.sigs, n.safety, block, otherChecks, tc)
         case Ok((d, vote)) =>
           if KnownToBlockStore(c, block, tc) then Sign(s, a, d, OnLedger(a, vote.li)) else s
         case Err(_) => s)
      case SignTimeout(_, t, tc) =>
        (match TimeoutOn(v, s.sigs, n.safety, t, tc)
         case Ok(d) => Sign(s, a, d, OnTimeout(a, t.epoch, t.round, t.HqcRound()))
         case Err(_) => s)
      case CastOrderVote(_, block, qc) =>
        (match OrderVoteOn(v, s.sigs, n.safety, block, qc)
         case Ok(d) => Sign(s, a, d, OnLedger(a, OrderLedgerInfo(block)))
         case Err(_) => s)
      case ReceiveVote(_, vote, aggregates) =>
        if VoteVerifies(v, s.sigs, vote) && vote.data.proposed.epoch == c.epoch
           && vote.data.proposed.GetRound() == n.round
        then
          var (tally, r) := Insert(v, n.tally, vote, aggregates);
          Set(s, a, Received(n, tally, r))
        else s
      case ReceiveOrderVote(_, ov, aggregates) =>
        if OrderVoteVerifies(v, s.sigs, ov) && ov.li.Epoch() == c.epoch then
          var (m, cert) := Handle(v, n.manager, OrderVoteMsg(ov, aggregates));
          Set(s, a, Ordered(n, m, cert))
        else s
      case EnterRound(_, round) =>
        if round > n.round then
          Set(s, a, n.(round := round, tally := EMPTY_TALLY, manager := Handle(v, n.manager, NewRound).0))
        else s
      case RaiseOrdered(_, round) =>
        Set(s, a, n.(manager := Handle(v, n.manager, HighestOrdered(round)).0))
  }

  function Run(c: Config, steps: seq<Step>): Net
    requires c.Valid()
  {
    if steps == [] then Initial(c) else Apply(c, Run(c, steps[..|steps| - 1]), steps[|steps| - 1])
  }

  // ---------------------------------------------------------------- who signed what

  function SignersOf(sigs: set<Signature>, li: LedgerInfo): set<Author> {
    set s | s in sigs && s.OnLedger? && s.li == li :: s.author
  }

  function TimeoutSigners(sigs: set<Signature>, epoch: nat, round: Round, atMost: Round): set<Author> {
    set s | s in sigs && s.OnTimeout? && s.epoch == epoch && s.round == round && s.hqcRound <= atMost :: s.author
  }

  /** A quorum has signed this ledger info. */
  predicate QuorumOn(c: Config, sigs: set<Signature>, li: LedgerInfo) {
    c.verifier.Power(SignersOf(sigs, li)) >= c.verifier.quorum
  }

  predicate Certified(c: Config, sigs: set<Signature>, b: Block) {
    b.Block? && QuorumOn(c, sigs, VoteLedgerInfo(b))
  }

  /** A quorum timed out in `round`, all of them certified at most up to `atMost`. */
  predicate QuorumTimedOut(c: Config, sigs: set<Signature>, round: Round, atMost: Round) {
    c.verifier.Power(TimeoutSigners(sigs, c.epoch, round, atMost)) >= c.verifier.quorum
  }

  lemma SignerMembership(sigs: set<Signature>, li: LedgerInfo, a: Author)
    ensures a in SignersOf(sigs, li) <==> OnLedger(a, li) in sigs
  {
    assert OnLedger(a, li) in sigs ==> OnLedger(a, li).author in SignersOf(sigs, li);
  }

  lemma QuorumOnMonotone(c: Config, sigs: set<Signature>, sigs': set<Signature>, li: LedgerInfo)
    requires sigs <= sigs' && QuorumOn(c, sigs, li)
    ensures QuorumOn(c, sigs', li)
  {
    PowerMonotone(c.verifier.validators, SignersOf(sigs, li), SignersOf(sigs', li));
  }

  lemma QuorumTimedOutMonotone(c: Config, sigs: set<Signature>, sigs': set<Signature>, round: Round, atMost: Round)
    requires sigs <= sigs' && QuorumTimedOut(c, sigs, round, atMost)
    ensures QuorumTimedOut(c, sigs', round, atMost)
  {
    PowerMonotone(c.verifier.validators, TimeoutSigners(sigs, c.epoch, round, atMost),
                  TimeoutSigners(sigs', c.epoch, round, atMost));
  }

  lemma CertificatesMonotone(v: ValidatorVerifier, sigs: set<Signature>, sigs': set<Signature>)
    requires sigs <= sigs'
    ensures forall qc :: QcVerifies(v, sigs, qc) ==> QcVerifies(v, sigs', qc)
    ensures forall t :: TimeoutVerifies(v, sigs, t) ==> TimeoutVerifies(v, sigs', t)
    ensures forall tc :: TcVerifies(v, sigs, tc) ==> TcVerifies(v, sigs', tc)
    ensures forall li, q :: QuorumSigned(v, sigs, li, q) ==> QuorumSigned(v, sigs', li, q)
  {
  }
}
