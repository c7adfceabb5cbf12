/** Every run of the network keeps the rules of `Agreement`, and every certificate
    a correct node's own tables produce verifies. */
module NetworkRuns {
  import opened Wrappers
  import opened Quorum
  import opened ConsensusTypes
  import opened PendingVotes
  import opened PendingOrderVotes
  import opened SafetyRules
  import opened Network
  import opened Agreement

  function DataOf(s: Net): map<Author, SafetyData> {
    map a | a in s.nodes :: s.nodes[a].safety
  }

  // ---------------------------------------------------------------- signing

  lemma VoteKeptMonotone(
    c: Config, sigs: set<Signature>, sigs': set<Signature>, li: LedgerInfo, d: SafetyData, d': SafetyData)
    requires sigs <= sigs' && li.data.Some? && VoteKept(c, sigs, li, d)
    requires d.lastVotedRound <= d'.lastVotedRound && d.oneChainRound <= d'.oneChainRound
    ensures VoteKept(c, sigs', li, d')
  {
    var b := li.data.value.proposed;
    if b.Parent().GetRound() != 0 {
      QuorumOnMonotone(c, sigs, sigs', VoteLedgerInfo(b.Parent()));
    }
    if b.round != b.Parent().GetRound() + 1 {
      QuorumTimedOutMonotone(c, sigs, sigs', b.round - 1, b.Parent().GetRound());
    }
  }

  lemma OrderVoteKeptMonotone(
    c: Config, sigs: set<Signature>, sigs': set<Signature>, li: LedgerInfo, d: SafetyData, d': SafetyData)
    requires sigs <= sigs' && OrderVoteKept(c, sigs, li, d) && d.oneChainRound <= d'.oneChainRound
    ensures OrderVoteKept(c, sigs', li, d')
  {
    QuorumOnMonotone(c, sigs, sigs', VoteLedgerInfo(li.commit.value));
  }

  /** Signatures of others, and of other epochs, do not concern a validator. */
  lemma OthersSign(c: Config, sigs: set<Signature>, sigs': set<Signature>, a: Author, d: SafetyData)
    requires HonestSigner(c, sigs, a, d) && sigs <= sigs'
    requires forall s :: s in sigs' && s.author == a && s.Epoch() == c.epoch ==> s in sigs
    ensures HonestSigner(c, sigs', a, d)
  {
    forall li | OnLedger(a, li) in sigs' && IsVote(c, li)
      ensures VoteKept(c, sigs', li, d)
    {
      assert OnLedger(a, li) in sigs;
      VoteKeptMonotone(c, sigs, sigs', li, d, d);
    }
    forall li | OnLedger(a, li) in sigs' && IsOrderVote(c, li)
      ensures OrderVoteKept(c, sigs', li, d)
    {
      assert OnLedger(a, li) in sigs;
      OrderVoteKeptMonotone(c, sigs, sigs', li, d, d);
    }
    forall t: Round, h: Round | OnTimeout(a, c.epoch, t, h) in sigs'
      ensures OnTimeout(a, c.epoch, t, h) in sigs
    {
      assert OnTimeout(a, c.epoch, t, h).Epoch() == c.epoch;
    }
    forall li | OnLedger(a, li) in sigs' && li.Epoch() == c.epoch
      ensures OnLedger(a, li) in sigs
    {
      assert OnLedger(a, li).Epoch() == c.epoch;
    }
  }

  /** A freshly signed vote meets the rules. */
  lemma NewVoteKept(
    c: Config, sigs: set<Signature>, data: map<Author, SafetyData>, a: Author,
    block: Block, otherChecks: bool, tc: Option<TimeoutCert>)
    requires Honesty(c, sigs, data) && a in c.honest && KnownToBlockStore(c, block, tc)
    requires VoteOn(a, c.verifier, sigs, data[a], block, otherChecks, tc).Ok?
    requires VoteOn(a, c.verifier, sigs, data[a], block, otherChecks, tc).value.0 != data[a]
    ensures var (d, vote) := VoteOn(a, c.verifier, sigs, data[a], block, otherChecks, tc).value;
      && vote.li == VoteLedgerInfo(block) && IsVote(c, vote.li) && VoteKept(c, sigs, vote.li, d)
      && block.round > data[a].lastVotedRound
  {
    assert HonestSigner(c, sigs, a, data[a]);
    if block.Parent().GetRound() > 0 {
      VerifiedQcMeansCertified(c, sigs, data, block.qc);
    }
    if tc.Some? {
      VerifiedTcMeansTimeouts(c, sigs, tc.value);
      if block.round != block.Parent().GetRound() + 1 {
        MoreTimeouts(c, sigs, block.round - 1, tc.value.timeout.HqcRound(), block.Parent().GetRound());
      }
    }
  }

  lemma MoreTimeouts(c: Config, sigs: set<Signature>, round: Round, atMost: Round, atMost': Round)
    requires QuorumTimedOut(c, sigs, round, atMost) && atMost <= atMost'
    ensures QuorumTimedOut(c, sigs, round, atMost')
  {
    PowerMonotone(c.verifier.validators, TimeoutSigners(sigs, c.epoch, round, atMost),
                  TimeoutSigners(sigs, c.epoch, round, atMost'));
  }

  /** A validator that signs one more vote in a round above all its signatures. */
  lemma SignVote(c: Config, sigs: set<Signature>, a: Author, d: SafetyData, d': SafetyData, li: LedgerInfo)
    requires HonestSigner(c, sigs, a, d) && IsVote(c, li) && VoteKept(c, sigs, li, d')
    requires d'.epoch == d.epoch && d'.lastVote.Some? && d'.lastVote.value.li == li
    requires d.lastVotedRound < li.data.value.proposed.GetRound() == d'.lastVotedRound
    requires d.oneChainRound <= d'.oneChainRound && d.highestTimeoutRound == d'.highestTimeoutRound
    ensures HonestSigner(c, sigs + {OnLedger(a, li)}, a, d')
  {
    var sigs' := sigs + {OnLedger(a, li)};
    forall l | OnLedger(a, l) in sigs' && IsVote(c, l)
      ensures VoteKept(c, sigs', l, d')
    {
      if l == li { VoteKeptMonotone(c, sigs, sigs', l, d', d'); } else { VoteKeptMonotone(c, sigs, sigs', l, d, d'); }
    }
    forall l | OnLedger(a, l) in sigs' && IsOrderVote(c, l)
      ensures OrderVoteKept(c, sigs', l, d')
    {
      OrderVoteKeptMonotone(c, sigs, sigs', l, d, d');
    }
  }

  /** A validator that signs one more order vote, above all its timeouts. */
  lemma SignOrderVote(c: Config, sigs: set<Signature>, a: Author, d: SafetyData, d': SafetyData, li: LedgerInfo)
    requires HonestSigner(c, sigs, a, d) && IsOrderVote(c, li) && OrderVoteKept(c, sigs, li, d')
    requires d'.epoch == d.epoch && d'.lastVote == d.lastVote && d'.lastVotedRound == d.lastVotedRound
    requires d.highestTimeoutRound == d'.highestTimeoutRound < li.CommitRound()
    requires d.oneChainRound <= d'.oneChainRound
    ensures HonestSigner(c, sigs + {OnLedger(a, li)}, a, d')
  {
    var sigs' := sigs + {OnLedger(a, li)};
    forall l | OnLedger(a, l) in sigs' && IsVote(c, l)
      ensures VoteKept(c, sigs', l, d')
    {
      VoteKeptMonotone(c, sigs, sigs', l, d, d');
    }
    forall l | OnLedger(a, l) in sigs' && IsOrderVote(c, l)
      ensures OrderVoteKept(c, sigs', l, d')
    {
      if l == li { OrderVoteKeptMonotone(c, sigs, sigs', l, d', d'); }
      else { OrderVoteKeptMonotone(c, sigs, sigs', l, d, d'); }
    }
  }

  /** A validator that signs one more timeout, admitting to all it has certified. */
  lemma SignOneTimeout(
    c: Config, sigs: set<Signature>, a: Author, d: SafetyData, d': SafetyData, t: Round, h: Round)
    requires HonestSigner(c, sigs, a, d) && h >= d.oneChainRound
    requires d' == d.(lastVotedRound := t, highestTimeoutRound := Max(d.highestTimeoutRound, t))
    requires d.lastVotedRound <= t
    ensures HonestSigner(c, sigs + {OnTimeout(a, c.epoch, t, h)}, a, d')
  {
    var sigs' := sigs + {OnTimeout(a, c.epoch, t, h)};
    forall l | OnLedger(a, l) in sigs' && IsVote(c, l)
      ensures VoteKept(c, sigs', l, d')
    {
      VoteKeptMonotone(c, sigs, sigs', l, d, d');
    }
    forall l | OnLedger(a, l) in sigs' && IsOrderVote(c, l)
      ensures OrderVoteKept(c, sigs', l, d')
    {
      OrderVoteKeptMonotone(c, sigs, sigs', l, d, d');
    }
  }

  lemma SignerStep(c: Config, s: Net, step: Step)
    requires c.Valid() && Honesty(c, s.sigs, DataOf(s)) && !step.Forge? && step.who in c.honest
    ensures var s' := Apply(c, s, step);
      step.who in s'.nodes && HonestSigner(c, s'.sigs, step.who, s'.nodes[step.who].safety)
  {
    var a, v, data := step.who, c.verifier, DataOf(s);
    var d := data[a];
    assert HonestSigner(c, s.sigs, a, d);
    match step
    case CastVote(_, block, otherChecks, tc) =>
      var r := VoteOn(a, v, s.sigs, d, block, otherChecks, tc);
      if r.Ok? && KnownToBlockStore(c, block, tc) {
        if r.value.0 == d {
          assert s.sigs + {OnLedger(a, r.value.1.li)} == s.sigs;
        } else {
          NewVoteKept(c, s.sigs, data, a, block, otherChecks, tc);
          SignVote(c, s.sigs, a, d, r.value.0, r.value.1.li);
        }
      }
    case SignTimeout(_, t, tc) =>
      var r := TimeoutOn(v, s.sigs, d, t, tc);
      if r.Ok? {
        SignOneTimeout(c, s.sigs, a, d, r.value, t.round, t.HqcRound());
      }
    case CastOrderVote(_, block, qc) =>
      var r := OrderVoteOn(v, s.sigs, d, block, qc);
      if r.Ok? {
        VerifiedQcMeansCertified(c, s.sigs, data, qc);
        SignOrderVote(c, s.sigs, a, d, r.value, OrderLedgerInfo(block));
      }
    case _ =>
  }

  /** A step adds at most one signature, by the validator that takes it or a forged one. */
  lemma StepSigns(c: Config, s: Net, step: Step)
    requires c.Valid() && s.nodes.Keys == c.honest
    ensures var s' := Apply(c, s, step);
      && s.sigs <= s'.sigs && s'.nodes.Keys == s.nodes.Keys
      && (forall sig :: sig in s'.sigs && sig !in s.sigs ==>
            if step.Forge? then sig.author !in c.honest || sig.Epoch() != c.epoch else sig.author == step.who)
      && (forall a :: a in s.nodes && (step.Forge? || a != step.who) ==> s'.nodes[a] == s.nodes[a])
  {
  }

  lemma StepKeepsHonesty(c: Config, s: Net, step: Step)
    requires c.Valid() && Honesty(c, s.sigs, DataOf(s))
    ensures Honesty(c, Apply(c, s, step).sigs, DataOf(Apply(c, s, step)))
  {
    var s' := Apply(c, s, step);
    assert DataOf(s).Keys == s.nodes.Keys;
    StepSigns(c, s, step);
    forall a | a in c.honest
      ensures HonestSigner(c, s'.sigs, a, DataOf(s')[a])
    {
      if !step.Forge? && a == step.who {
        SignerStep(c, s, step);
      } else {
        assert HonestSigner(c, s.sigs, a, DataOf(s)[a]);
        OthersSign(c, s.sigs, s'.sigs, a, DataOf(s)[a]);
      }
    }
  }

  // ---------------------------------------------------------------- tables

  /** Every signature a node's tables hold exists, and for the right thing. */
  ghost predicate VotesBacked(c: Config, sigs: set<Signature>, round: Round, tally: Tally) {
    Consistent(tally) && SignersBacked(c, sigs, tally.signers) && TimeoutsBacked(c, sigs, round, tally.partialTc)
  }

  ghost predicate SignersBacked(c: Config, sigs: set<Signature>, signers: map<LedgerInfo, set<Author>>) {
    forall li, a :: a in Signers(signers, li) ==> a in c.verifier.Authors() && OnLedger(a, li) in sigs
  }

  ghost predicate TimeoutsBacked(c: Config, sigs: set<Signature>, round: Round, partial: Option<PartialTc>) {
    partial.Some? ==>
      var p := partial.value;
      && p.timeout.epoch == c.epoch && p.timeout.round == round
      && TimeoutVerifies(c.verifier, sigs, p.timeout)
      && (forall a :: a in p.rounds ==>
            a in c.verifier.Authors() && OnTimeout(a, c.epoch, round, p.rounds[a]) in sigs)
  }

  ghost predicate OrdersBacked(c: Config, sigs: set<Signature>, t: OrderTable) {
    forall li :: li in t ==>
      && IsOrderVote(c, li)
      && t[li].signers <= c.verifier.Authors()
      && (forall a :: a in t[li].signers ==> OnLedger(a, li) in sigs)
      && (t[li].EnoughVotes? ==> c.verifier.Power(t[li].signers) >= c.verifier.quorum)
  }

  /** The certificates a node has produced verify for anyone. */
  ghost predicate QcsVerify(c: Config, sigs: set<Signature>, qcs: set<QuorumCert>) {
    forall qc :: qc in qcs ==>
      && QcVerifies(c.verifier, sigs, qc)
      && qc.data.proposed.epoch == c.epoch && qc.data.proposed.GetRound() > 0
  }

  ghost predicate TcsVerify(c: Config, sigs: set<Signature>, tcs: set<TimeoutCert>) {
    forall tc :: tc in tcs ==> TcVerifies(c.verifier, sigs, tc) && tc.timeout.epoch == c.epoch
  }

  ghost predicate OrderedVerify(c: Config, sigs: set<Signature>, ordered: set<OrderedCert>) {
    forall oc :: oc in ordered ==> IsOrderVote(c, oc.li) && QuorumSigned(c.verifier, sigs, oc.li, oc.signers)
  }

  ghost predicate NodeBacked(c: Config, sigs: set<Signature>, n: Node) {
    && VotesBacked(c, sigs, n.round, n.tally) && OrdersBacked(c, sigs, n.manager.table)
    && QcsVerify(c, sigs, n.qcs) && TcsVerify(c, sigs, n.tcs) && OrderedVerify(c, sigs, n.ordered)
  }

  lemma BackedMonotone(c: Config, sigs: set<Signature>, sigs': set<Signature>, n: Node)
    requires sigs <= sigs' && NodeBacked(c, sigs, n)
    ensures NodeBacked(c, sigs', n)
  {
    CertificatesMonotone(c.verifier, sigs, sigs');
  }

  /** Inserting a verified vote keeps the vote table backed, and what it answers
      with verifies. */
  lemma VoteInserted(c: Config, sigs: set<Signature>, round: Round, tally: Tally, vote: Vote, aggregates: bool)
    requires c.Valid() && VotesBacked(c, sigs, round, tally) && VoteVerifies(c.verifier, sigs, vote)
    requires vote.data.proposed.epoch == c.epoch && vote.data.proposed.GetRound() == round
    ensures var (tally', r) := Insert(c.verifier, tally, vote, aggregates);
      && VotesBacked(c, sigs, round, tally')
      && (r.NewQuorumCertificate? ==> QcVerifies(c.verifier, sigs, r.qc) && r.qc.data == vote.data)
      && (r.New2ChainTimeoutCertificate? ==>
            TcVerifies(c.verifier, sigs, r.tc) && r.tc.timeout.epoch == c.epoch)
  {
    InsertConsistent(c.verifier, tally, vote, aggregates);
    InsertTables(c.verifier, tally, vote, aggregates);
    InsertTimeouts(c.verifier, tally, vote, aggregates);
    SignerBacked(c, sigs, tally.signers, vote);
    TimeoutBacked(c, sigs, round, tally.partialTc, vote);
  }

  lemma SignerBacked(c: Config, sigs: set<Signature>, signers: map<LedgerInfo, set<Author>>, vote: Vote)
    requires SignersBacked(c, sigs, signers) && VoteVerifies(c.verifier, sigs, vote)
    ensures SignersBacked(c, sigs, signers[vote.li := Signers(signers, vote.li) + {vote.author}])
  {
    var signers' := signers[vote.li := Signers(signers, vote.li) + {vote.author}];
    forall li, a | a in Signers(signers', li)
      ensures a in c.verifier.Authors() && OnLedger(a, li) in sigs
    {
      if li != vote.li || a != vote.author { assert a in Signers(signers, li); }
    }
  }

  lemma TimeoutBacked(c: Config, sigs: set<Signature>, round: Round, partial: Option<PartialTc>, vote: Vote)
    requires TimeoutsBacked(c, sigs, round, partial) && VoteVerifies(c.verifier, sigs, vote)
    requires vote.data.proposed.epoch == c.epoch && vote.data.proposed.GetRound() == round
    ensures vote.timeout.Some? ==>
              TimeoutsBacked(c, sigs, round, Some(WithTimeout(partial, vote.author, vote.timeout.value)))
  {
  }

  lemma OrderVoteInserted(c: Config, sigs: set<Signature>, m: Manager, ov: OrderVote, aggregates: bool)
    requires c.Valid() && OrdersBacked(c, sigs, m.table) && OrderVoteVerifies(c.verifier, sigs, ov)
    requires ov.li.Epoch() == c.epoch
    ensures var (m', cert) := Handle(c.verifier, m, OrderVoteMsg(ov, aggregates));
      && OrdersBacked(c, sigs, m'.table)
      && (cert.Some? ==> IsOrderVote(c, cert.value.li)
                         && QuorumSigned(c.verifier, sigs, cert.value.li, cert.value.signers))
  {
  }

  lemma VoteReceived(c: Config, sigs: set<Signature>, n: Node, tally: Tally, r: Reception)
    requires NodeBacked(c, sigs, n) && VotesBacked(c, sigs, n.round, tally)
    requires r.NewQuorumCertificate? ==> QcsVerify(c, sigs, {r.qc})
    requires r.New2ChainTimeoutCertificate? ==> TcsVerify(c, sigs, {r.tc})
    ensures NodeBacked(c, sigs, Received(n, tally, r))
  {
  }

  /** Signing changes nothing but the safety data of the signer. */
  lemma SigningStep(c: Config, s: Net, step: Step)
    requires c.Valid() && (step.CastVote? || step.SignTimeout? || step.CastOrderVote?) && step.who in s.nodes
    ensures var s' := Apply(c, s, step);
      && step.who in s'.nodes && s.sigs <= s'.sigs
      && s'.nodes[step.who] == s.nodes[step.who].(safety := s'.nodes[step.who].safety)
  {
  }

  lemma NodeStep(c: Config, s: Net, step: Step)
    requires c.Valid() && !step.Forge? && step.who in s.nodes && NodeBacked(c, s.sigs, s.nodes[step.who])
    ensures step.who in Apply(c, s, step).nodes
    ensures NodeBacked(c, Apply(c, s, step).sigs, Apply(c, s, step).nodes[step.who])
  {
    var n := s.nodes[step.who];
    if step.ReceiveVote? {
      if Apply(c, s, step) != s {
        VoteInserted(c, s.sigs, n.round, n.tally, step.vote, step.aggregates);
        var (tally, r) := Insert(c.verifier, n.tally, step.vote, step.aggregates);
        VoteReceived(c, s.sigs, n, tally, r);
      }
    } else if step.ReceiveOrderVote? {
      if Apply(c, s, step) != s { OrderVoteInserted(c, s.sigs, n.manager, step.orderVote, step.aggregates); }
    } else if step.EnterRound? || step.RaiseOrdered? {
    } else {
      SigningStep(c, s, step);
      BackedMonotone(c, s.sigs, Apply(c, s, step).sigs, n);
    }
  }

  // ---------------------------------------------------------------- runs

  ghost predicate Inv(c: Config, s: Net) {
    && Honesty(c, s.sigs, DataOf(s))
    && (forall a :: a in s.nodes ==> NodeBacked(c, s.sigs, s.nodes[a]))
  }

  lemma {:induction false} RunKeepsInv(c: Config, steps: seq<Step>)
    requires c.Valid()
    ensures Inv(c, Run(c, steps))
  {
    if steps != [] {
      var s, step := Run(c, steps[..|steps| - 1]), steps[|steps| - 1];
      RunKeepsInv(c, steps[..|steps| - 1]);
      StepKeepsInv(c, s, step);
    }
  }

  lemma StepKeepsInv(c: Config, s: Net, step: Step)
    requires c.Valid() && Inv(c, s)
    ensures Inv(c, Apply(c, s, step))
  {
    StepKeepsHonesty(c, s, step);
    assert DataOf(s).Keys == s.nodes.Keys;
    StepSigns(c, s, step);
    var s' := Apply(c, s, step);
    forall a | a in s'.nodes
      ensures NodeBacked(c, s'.sigs, s'.nodes[a])
    {
      if !step.Forge? && a == step.who {
        NodeStep(c, s, step);
      } else {
        BackedMonotone(c, s.sigs, s'.sigs, s.nodes[a]);
      }
    }
  }

  /** Quorum certificates agree: two certificates of the epoch for one round, formed
      by anyone in any run, certify the same block with the same ledger info. */
  lemma QuorumCertificatesAgree(c: Config, steps: seq<Step>, qc: QuorumCert, qc': QuorumCert)
    requires c.Valid()
    requires QcVerifies(c.verifier, Run(c, steps).sigs, qc) && QcVerifies(c.verifier, Run(c, steps).sigs, qc')
    requires qc.data.proposed.epoch == qc'.data.proposed.epoch == c.epoch
    requires qc.data.proposed.GetRound() == qc'.data.proposed.GetRound() > 0
    ensures qc.li == qc'.li && qc.data == qc'.data
  {
    RunKeepsInv(c, steps);
    var s := Run(c, steps);
    VerifiedQcMeansCertified(c, s.sigs, DataOf(s), qc);
    VerifiedQcMeansCertified(c, s.sigs, DataOf(s), qc');
    CertifiedOncePerRound(c, s.sigs, DataOf(s), qc.data.proposed, qc'.data.proposed);
  }

  /** The certificates that any two correct nodes' own vote tables returned for one
      round agree, whatever the order, loss or repetition of messages. */
  lemma NodesCertifyTheSame(
    c: Config, steps: seq<Step>, a: Author, a': Author, qc: QuorumCert, qc': QuorumCert)
    requires c.Valid() && a in c.honest && a' in c.honest
    requires a in Run(c, steps).nodes && a' in Run(c, steps).nodes
    requires qc in Run(c, steps).nodes[a].qcs && qc' in Run(c, steps).nodes[a'].qcs
    requires qc.data.proposed.GetRound() == qc'.data.proposed.GetRound()
    ensures qc.li == qc'.li && qc.data == qc'.data
  {
    RunKeepsInv(c, steps);
    assert NodeBacked(c, Run(c, steps).sigs, Run(c, steps).nodes[a]);
    assert NodeBacked(c, Run(c, steps).sigs, Run(c, steps).nodes[a']);
    QuorumCertificatesAgree(c, steps, qc, qc');
  }

  /** The law of the protocol: in every run, any two blocks that quorums finalized
      lie on one chain. */
  lemma OneChain(c: Config, steps: seq<Step>, li: LedgerInfo, li': LedgerInfo)
    requires c.Valid() && Final(c, Run(c, steps).sigs, li) && Final(c, Run(c, steps).sigs, li')
    ensures Extends(li'.commit.value, li.commit.value) || Extends(li.commit.value, li'.commit.value)
    ensures li.CommitRound() == li'.CommitRound() ==> li.commit == li'.commit
  {
    RunKeepsInv(c, steps);
    var s := Run(c, steps);
    if li.CommitRound() <= li'.CommitRound() {
      FinalBlocksOnOneChain(c, s.sigs, DataOf(s), li, li');
    }
    if li'.CommitRound() <= li.CommitRound() {
      FinalBlocksOnOneChain(c, s.sigs, DataOf(s), li', li);
    }
    if li.CommitRound() == li'.CommitRound() {
      ExtendsAntisymmetric(li.commit.value, li'.commit.value);
    }
  }

  lemma {:induction false} ExtendsIsSmaller(b: Block, a: Block)
    requires Extends(b, a) && b != a
    ensures a < b
  {
    if b.Parent() != a { ExtendsIsSmaller(b.Parent(), a); }
  }

  lemma ExtendsAntisymmetric(a: Block, b: Block)
    requires Extends(a, b) && Extends(b, a)
    ensures a == b
  {
    if a != b {
      ExtendsIsSmaller(a, b);
      ExtendsIsSmaller(b, a);
    }
  }

  /** Ordered certificates that correct nodes formed from order votes name blocks on
      one chain; in one round they name one block. */
  lemma OrderedCertificatesAgree(
    c: Config, steps: seq<Step>, a: Author, a': Author, oc: OrderedCert, oc': OrderedCert)
    requires c.Valid() && a in Run(c, steps).nodes && a' in Run(c, steps).nodes
    requires oc in Run(c, steps).nodes[a].ordered && oc' in Run(c, steps).nodes[a'].ordered
    ensures oc.li.commit.Some? && oc'.li.commit.Some?
    ensures Extends(oc.li.commit.value, oc'.li.commit.value) || Extends(oc'.li.commit.value, oc.li.commit.value)
    ensures oc.li.CommitRound() == oc'.li.CommitRound() ==> oc.li == oc'.li
  {
    RunKeepsInv(c, steps);
    var s := Run(c, steps);
    assert NodeBacked(c, s.sigs, s.nodes[a]) && NodeBacked(c, s.sigs, s.nodes[a']);
    SignedQuorum(c, s.sigs, oc.li, oc.signers);
    SignedQuorum(c, s.sigs, oc'.li, oc'.signers);
    OrderedIsAnchored(c, s.sigs, DataOf(s), oc.li);
    OrderedIsAnchored(c, s.sigs, DataOf(s), oc'.li);
    OneChain(c, steps, oc.li, oc'.li);
  }
}
