/** What correct validators' signatures guarantee, and why it makes any two
    finalized blocks lie on one chain. Everything here is about one set of
    signatures; `NetworkRuns` shows that every run keeps `Honesty`. */
module Agreement {
  import opened Wrappers
  import opened Quorum
  import opened ConsensusTypes
  import opened SafetyRules
  import opened Network

  // ---------------------------------------------------------------- what one validator keeps

  predicate IsVote(c: Config, li: LedgerInfo) {
    li.data.Some? && li.Epoch() == c.epoch
  }

  predicate IsOrderVote(c: Config, li: LedgerInfo) {
    li.data.None? && li.Epoch() == c.epoch
  }

  /** The parent is the genesis of the epoch or was certified by a quorum. */
  predicate ParentSettled(c: Config, sigs: set<Signature>, b: Block)
    requires b.Block?
  {
    if b.Parent().GetRound() == 0 then b.Parent() == c.genesis else Certified(c, sigs, b.Parent())
  }

  /** The block directly follows its parent's round, or a quorum timed out in the
      round before it without having seen a certificate above its parent. */
  predicate RoundJustified(c: Config, sigs: set<Signature>, b: Block)
    requires b.Block?
  {
    || b.round == b.Parent().GetRound() + 1
    || (b.round > 0 && QuorumTimedOut(c, sigs, b.round - 1, b.Parent().GetRound()))
  }

  ghost predicate VoteKept(c: Config, sigs: set<Signature>, li: LedgerInfo, d: SafetyData)
    requires li.data.Some?
  {
    var b := li.data.value.proposed;
    && b.Block? && li == VoteLedgerInfo(b)
    && b.Parent().epoch == c.epoch
    && b.Parent().GetRound() < b.round <= d.lastVotedRound
    && b.Parent().GetRound() <= d.oneChainRound
    && ParentSettled(c, sigs, b) && RoundJustified(c, sigs, b)
  }

  ghost predicate OrderVoteKept(c: Config, sigs: set<Signature>, li: LedgerInfo, d: SafetyData) {
    li.commit.Some? && 0 < li.CommitRound() <= d.oneChainRound && Certified(c, sigs, li.commit.value)
  }

  /** A validator's signatures in the epoch, against its safety data: what it voted
      for, that it voted once per round, and that a timeout at or after a vote or an
      order vote admits to the certificate that vote was based on. */
  ghost predicate HonestSigner(c: Config, sigs: set<Signature>, a: Author, d: SafetyData) {
    && d.epoch == c.epoch
    && (d.lastVote.Some? ==> OnLedger(a, d.lastVote.value.li) in sigs)
    && (forall li :: OnLedger(a, li) in sigs && IsVote(c, li) ==> VoteKept(c, sigs, li, d))
    && (forall li :: OnLedger(a, li) in sigs && IsOrderVote(c, li) ==> OrderVoteKept(c, sigs, li, d))
    && (forall t: Round, h: Round ::
          OnTimeout(a, c.epoch, t, h) in sigs ==> t <= d.lastVotedRound && t <= d.highestTimeoutRound)
    && OneVotePerRound(c, sigs, a)
    && TimeoutsAdmitVotes(c, sigs, a)
    && TimeoutsAdmitOrders(c, sigs, a)
  }

  ghost predicate OneVotePerRound(c: Config, sigs: set<Signature>, a: Author) {
    forall li, li' ::
      && OnLedger(a, li) in sigs && OnLedger(a, li') in sigs && IsVote(c, li) && IsVote(c, li')
      && li.data.value.proposed.GetRound() == li'.data.value.proposed.GetRound()
      ==> li == li'
  }

  ghost predicate TimeoutsAdmitVotes(c: Config, sigs: set<Signature>, a: Author) {
    forall li, t: Round, h: Round ::
      && OnLedger(a, li) in sigs && OnTimeout(a, c.epoch, t, h) in sigs && IsVote(c, li)
      && t >= li.data.value.proposed.GetRound()
      ==> h >= li.data.value.parent.GetRound()
  }

  ghost predicate TimeoutsAdmitOrders(c: Config, sigs: set<Signature>, a: Author) {
    forall li, t: Round, h: Round ::
      && OnLedger(a, li) in sigs && OnTimeout(a, c.epoch, t, h) in sigs && IsOrderVote(c, li)
      && t >= li.CommitRound()
      ==> h >= li.CommitRound()
  }

  /** Every correct validator keeps the rules, for some safety data of its own. */
  ghost predicate Honesty(c: Config, sigs: set<Signature>, data: map<Author, SafetyData>) {
    && c.Valid()
    && data.Keys == c.honest
    && (forall a :: a in c.honest ==> HonestSigner(c, sigs, a, data[a]))
  }

  // ---------------------------------------------------------------- certificates

  /** A quorum's vote names a block the way correct validators do. */
  lemma QuorumVoteIsGenuine(c: Config, sigs: set<Signature>, data: map<Author, SafetyData>, li: LedgerInfo)
    returns (h: Author)
    requires Honesty(c, sigs, data) && IsVote(c, li) && QuorumOn(c, sigs, li)
    ensures h in c.honest && OnLedger(h, li) in sigs && VoteKept(c, sigs, li, data[h])
    ensures Certified(c, sigs, li.data.value.proposed)
  {
    h := QuorumHasHonest(c.verifier, SignersOf(sigs, li), c.honest);
    SignerMembership(sigs, li, h);
  }

  /** A certificate that verifies, for a block of the epoch past round zero, means
      that a quorum voted for exactly that block. */
  lemma VerifiedQcMeansCertified(c: Config, sigs: set<Signature>, data: map<Author, SafetyData>, qc: QuorumCert)
    requires Honesty(c, sigs, data) && QcVerifies(c.verifier, sigs, qc)
    requires qc.data.proposed.epoch == c.epoch && qc.data.proposed.GetRound() > 0
    ensures Certified(c, sigs, qc.data.proposed) && qc.li == VoteLedgerInfo(qc.data.proposed)
  {
    SignedQuorum(c, sigs, qc.li, qc.signers);
    var h := QuorumVoteIsGenuine(c, sigs, data, qc.li);
  }

  lemma SignedQuorum(c: Config, sigs: set<Signature>, li: LedgerInfo, signers: set<Author>)
    requires QuorumSigned(c.verifier, sigs, li, signers)
    ensures QuorumOn(c, sigs, li)
  {
    forall a | a in signers
      ensures a in SignersOf(sigs, li)
    {
      SignerMembership(sigs, li, a);
    }
    PowerMonotone(c.verifier.validators, signers, SignersOf(sigs, li));
  }

  lemma VerifiedTcMeansTimeouts(c: Config, sigs: set<Signature>, tc: TimeoutCert)
    requires TcVerifies(c.verifier, sigs, tc) && tc.timeout.epoch == c.epoch
    ensures QuorumTimedOut(c, sigs, tc.timeout.round, tc.timeout.HqcRound())
  {
    var all := TimeoutSigners(sigs, c.epoch, tc.timeout.round, tc.timeout.HqcRound());
    forall a | a in tc.rounds
      ensures a in all
    {
      var sig := OnTimeout(a, c.epoch, tc.timeout.round, tc.rounds[a]);
      assert sig in sigs && sig.author == a;
    }
    PowerMonotone(c.verifier.validators, tc.rounds.Keys, all);
  }

  /** Two quorums that vote in one round vote for one ledger info. */
  lemma CertifiedOncePerRound(
    c: Config, sigs: set<Signature>, data: map<Author, SafetyData>, b: Block, b': Block)
    requires Honesty(c, sigs, data) && Certified(c, sigs, b) && Certified(c, sigs, b')
    requires b.epoch == b'.epoch == c.epoch && b.round == b'.round
    ensures b == b'
  {
    var li, li' := VoteLedgerInfo(b), VoteLedgerInfo(b');
    var h := QuorumsShareHonest(c.verifier, SignersOf(sigs, li), SignersOf(sigs, li'), c.honest);
    SignerMembership(sigs, li, h);
    SignerMembership(sigs, li', h);
    assert HonestSigner(c, sigs, h, data[h]);
  }

  // ---------------------------------------------------------------- anchors

  /** Any quorum that times out at or after the round of `b` admits to a certificate
      for a round no lower than `b`'s. */
  ghost predicate Anchored(c: Config, sigs: set<Signature>, b: Block) {
    forall t: Round, h: Round :: t >= b.GetRound() && QuorumTimedOut(c, sigs, t, h) ==> h >= b.GetRound()
  }

  lemma SharedTimeout(c: Config, sigs: set<Signature>, li: LedgerInfo, t: Round, h: Round)
    returns (u: Author, hu: Round)
    requires c.Valid() && QuorumOn(c, sigs, li) && QuorumTimedOut(c, sigs, t, h)
    ensures u in c.honest && OnLedger(u, li) in sigs && OnTimeout(u, c.epoch, t, hu) in sigs && hu <= h
  {
    var timeouts := TimeoutSigners(sigs, c.epoch, t, h);
    u := QuorumsShareHonest(c.verifier, SignersOf(sigs, li), timeouts, c.honest);
    SignerMembership(sigs, li, u);
    var sig :| sig in sigs && sig.OnTimeout? && sig.epoch == c.epoch && sig.round == t && sig.hqcRound <= h
               && sig.author == u;
    hu := sig.hqcRound;
    assert sig == OnTimeout(u, c.epoch, t, hu);
  }

  /** A quorum of order votes anchors its block, which is itself certified. */
  lemma OrderedIsAnchored(c: Config, sigs: set<Signature>, data: map<Author, SafetyData>, li: LedgerInfo)
    requires Honesty(c, sigs, data) && IsOrderVote(c, li) && QuorumOn(c, sigs, li)
    ensures li.commit.Some? && li.commit.value.epoch == c.epoch
    ensures Certified(c, sigs, li.commit.value) && Anchored(c, sigs, li.commit.value)
  {
    var u := QuorumHasHonest(c.verifier, SignersOf(sigs, li), c.honest);
    SignerMembership(sigs, li, u);
    assert HonestSigner(c, sigs, u, data[u]);
    forall t: Round, h: Round | t >= li.CommitRound() && QuorumTimedOut(c, sigs, t, h)
      ensures h >= li.CommitRound()
    {
      var w, hw := SharedTimeout(c, sigs, li, t, h);
      assert HonestSigner(c, sigs, w, data[w]);
    }
  }

  /** A vote quorum that commits the parent anchors the parent from the round after
      the voted block on; the voted block itself extends it. */
  lemma CommittedIsAnchored(
    c: Config, sigs: set<Signature>, data: map<Author, SafetyData>, b: Block, t: Round, h: Round)
    requires Honesty(c, sigs, data) && Certified(c, sigs, b) && b.epoch == c.epoch
    requires t >= b.round && QuorumTimedOut(c, sigs, t, h)
    ensures h >= b.Parent().GetRound()
  {
    var u, hu := SharedTimeout(c, sigs, VoteLedgerInfo(b), t, h);
    assert HonestSigner(c, sigs, u, data[u]);
  }

  // ---------------------------------------------------------------- chains

  lemma {:induction false} CertifiedExtendsGenesis(
    c: Config, sigs: set<Signature>, data: map<Author, SafetyData>, b: Block)
    requires Honesty(c, sigs, data) && Certified(c, sigs, b) && b.epoch == c.epoch
    ensures Extends(b, c.genesis)
    decreases b
  {
    var h := QuorumVoteIsGenuine(c, sigs, data, VoteLedgerInfo(b));
    if b.Parent().GetRound() > 0 {
      CertifiedExtendsGenesis(c, sigs, data, b.Parent());
    }
  }

  /** Every block certified at or after the round of an ordered block extends it. */
  lemma {:induction false} CertifiedExtendsOrdered(
    c: Config, sigs: set<Signature>, data: map<Author, SafetyData>, b: Block, b': Block)
    requires Honesty(c, sigs, data) && b.epoch == b'.epoch == c.epoch
    requires Certified(c, sigs, b) && Anchored(c, sigs, b)
    requires Certified(c, sigs, b') && b'.round >= b.round > 0
    ensures Extends(b', b)
    decreases b'
  {
    if b'.round == b.round {
      CertifiedOncePerRound(c, sigs, data, b, b');
    } else {
      var h := QuorumVoteIsGenuine(c, sigs, data, VoteLedgerInfo(b'));
      assert b'.Parent().GetRound() >= b.round;
      CertifiedExtendsOrdered(c, sigs, data, b, b'.Parent());
    }
  }

  /** Every block certified at or after the round of a committed parent extends it. */
  lemma {:induction false} CertifiedExtendsCommitted(
    c: Config, sigs: set<Signature>, data: map<Author, SafetyData>, b1: Block, b': Block)
    requires Honesty(c, sigs, data) && b1.epoch == b'.epoch == c.epoch
    requires Certified(c, sigs, b1) && b1.round == b1.Parent().GetRound() + 1
    requires Certified(c, sigs, b') && b'.round >= b1.Parent().GetRound()
    ensures Extends(b', b1.Parent())
    decreases b'
  {
    var b0 := b1.Parent();
    var h := QuorumVoteIsGenuine(c, sigs, data, VoteLedgerInfo(b1));
    if b0.GetRound() == 0 {
      CertifiedExtendsGenesis(c, sigs, data, b');
    } else if b'.round == b0.round {
      CertifiedOncePerRound(c, sigs, data, b0, b');
    } else if b'.round == b1.round {
      CertifiedOncePerRound(c, sigs, data, b1, b');
    } else {
      var w := QuorumVoteIsGenuine(c, sigs, data, VoteLedgerInfo(b'));
      if b'.round != b'.Parent().GetRound() + 1 {
        CommittedIsAnchored(c, sigs, data, b1, b'.round - 1, b'.Parent().GetRound());
      }
      CertifiedExtendsCommitted(c, sigs, data, b1, b'.Parent());
    }
  }

  /** A block is final when a quorum signed a ledger info that names it, whether the
      quorum voted for a child in the next round or order-voted the block. */
  predicate Final(c: Config, sigs: set<Signature>, li: LedgerInfo) {
    li.commit.Some? && li.Epoch() == c.epoch && QuorumOn(c, sigs, li)
  }

  /** Safety: everything certified from a final block's round on extends it. */
  lemma CertifiedExtendsFinal(
    c: Config, sigs: set<Signature>, data: map<Author, SafetyData>, li: LedgerInfo, b': Block)
    requires Honesty(c, sigs, data) && Final(c, sigs, li)
    requires Certified(c, sigs, b') && b'.epoch == c.epoch && b'.round >= li.CommitRound()
    ensures Extends(b', li.commit.value)
  {
    if li.data.None? {
      OrderedIsAnchored(c, sigs, data, li);
      var u := QuorumHasHonest(c.verifier, SignersOf(sigs, li), c.honest);
      SignerMembership(sigs, li, u);
      assert HonestSigner(c, sigs, u, data[u]);
      CertifiedExtendsOrdered(c, sigs, data, li.commit.value, b');
    } else {
      var h := QuorumVoteIsGenuine(c, sigs, data, li);
      CertifiedExtendsCommitted(c, sigs, data, li.data.value.proposed, b');
    }
  }

  /** A final block is the genesis of the epoch or is certified. */
  lemma FinalIsSettled(c: Config, sigs: set<Signature>, data: map<Author, SafetyData>, li: LedgerInfo)
    requires Honesty(c, sigs, data) && Final(c, sigs, li)
    ensures li.commit.value == c.genesis
         || (Certified(c, sigs, li.commit.value) && li.commit.value.epoch == c.epoch)
  {
    if li.data.None? {
      OrderedIsAnchored(c, sigs, data, li);
    } else {
      var h := QuorumVoteIsGenuine(c, sigs, data, li);
    }
  }

  /** Agreement: any two final blocks lie on one chain, whatever their rounds and
      whichever of the two rules finalized them. */
  lemma FinalBlocksOnOneChain(
    c: Config, sigs: set<Signature>, data: map<Author, SafetyData>, li: LedgerInfo, li': LedgerInfo)
    requires Honesty(c, sigs, data) && Final(c, sigs, li) && Final(c, sigs, li')
    requires li.CommitRound() <= li'.CommitRound()
    ensures Extends(li'.commit.value, li.commit.value)
  {
    FinalIsSettled(c, sigs, data, li);
    FinalIsSettled(c, sigs, data, li');
    if li'.commit.value == c.genesis {
      GenesisRoundIsGenesis(c, sigs, data, li);
    } else {
      CertifiedExtendsFinal(c, sigs, data, li, li'.commit.value);
    }
  }

  lemma GenesisRoundIsGenesis(c: Config, sigs: set<Signature>, data: map<Author, SafetyData>, li: LedgerInfo)
    requires Honesty(c, sigs, data) && Final(c, sigs, li) && li.CommitRound() == 0
    ensures li.commit.value == c.genesis
  {
    FinalIsSettled(c, sigs, data, li);
    if li.commit.value != c.genesis {
      var h := QuorumVoteIsGenuine(c, sigs, data, VoteLedgerInfo(li.commit.value));
    }
  }
}
