/** Whole runs of one node's vote table: every sequence of deliveries, with any
    equivocation, repetition and aggregation outcome. */
module VoteRuns {
  import opened Wrappers
  import opened Quorum
  import opened ConsensusTypes
  import opened PendingVotes

  datatype Delivery = Delivery(vote: Vote, aggregates: bool)

  function Run(v: ValidatorVerifier, ds: seq<Delivery>): Tally
    requires v.quorum <= v.Total()
  {
    if ds == [] then EMPTY_TALLY
    else
      var d := ds[|ds| - 1];
      Insert(v, Run(v, ds[..|ds| - 1]), d.vote, d.aggregates).0
  }

  function Answer(v: ValidatorVerifier, ds: seq<Delivery>, i: nat): Reception
    requires v.quorum <= v.Total() && i < |ds|
  {
    Insert(v, Run(v, ds[..i]), ds[i].vote, ds[i].aggregates).1
  }

  /** Who has signed for `li` once the first `i` deliveries are in. */
  function SignersAfter(v: ValidatorVerifier, ds: seq<Delivery>, i: nat, li: LedgerInfo): set<Author>
    requires v.quorum <= v.Total() && i <= |ds|
  {
    Run(v, ds[..i]).SignersOf(li)
  }

  lemma RunStep(v: ValidatorVerifier, ds: seq<Delivery>, i: nat)
    requires v.quorum <= v.Total() && i < |ds|
    ensures Run(v, ds[..i + 1]) == Insert(v, Run(v, ds[..i]), ds[i].vote, ds[i].aggregates).0
  {
    assert ds[..i + 1][..i] == ds[..i];
  }

  lemma {:induction false} RunConsistent(v: ValidatorVerifier, ds: seq<Delivery>)
    requires v.quorum <= v.Total()
    ensures Consistent(Run(v, ds))
  {
    if ds != [] {
      RunConsistent(v, ds[..|ds| - 1]);
      InsertConsistent(v, Run(v, ds[..|ds| - 1]), ds[|ds| - 1].vote, ds[|ds| - 1].aggregates);
    }
  }

  lemma {:induction false} SignersGrow(v: ValidatorVerifier, ds: seq<Delivery>, i: nat, j: nat, li: LedgerInfo)
    requires v.quorum <= v.Total() && i <= j <= |ds|
    ensures SignersAfter(v, ds, i, li) <= SignersAfter(v, ds, j, li)
    decreases j
  {
    if i < j {
      SignersGrow(v, ds, i, j - 1, li);
      RunStep(v, ds, j - 1);
      SignersKept(v, Run(v, ds[..j - 1]), ds[j - 1].vote, ds[j - 1].aggregates, li);
    }
  }

  lemma SignersKept(v: ValidatorVerifier, s: Tally, vote: Vote, aggregates: bool, li: LedgerInfo)
    requires v.quorum <= v.Total()
    ensures s.SignersOf(li) <= Insert(v, s, vote, aggregates).0.SignersOf(li)
  {
    InsertTables(v, s, vote, aggregates);
  }

  lemma ConsistentDisjoint(s: Tally, li: LedgerInfo, li': LedgerInfo)
    requires Consistent(s) && li != li'
    ensures s.SignersOf(li) !! s.SignersOf(li')
  {
    forall a | a in Signers(s.signers, li)
      ensures a !in Signers(s.signers, li')
    {
      assert s.byAuthor[a].li == li;
    }
  }

  /** However much is equivocated, no author is counted for two ledger infos. */
  lemma SignerSetsDisjoint(v: ValidatorVerifier, ds: seq<Delivery>, li: LedgerInfo, li': LedgerInfo)
    requires v.quorum <= v.Total() && li != li'
    ensures Run(v, ds).SignersOf(li) !! Run(v, ds).SignersOf(li')
  {
    RunConsistent(v, ds);
    ConsistentDisjoint(Run(v, ds), li, li');
  }

  lemma AtMostOneQuorum(v: ValidatorVerifier, ds: seq<Delivery>, li: LedgerInfo, li': LedgerInfo)
    requires v.quorum <= v.Total() < 2 * v.quorum
    requires v.Power(Run(v, ds).SignersOf(li)) >= v.quorum
    requires v.Power(Run(v, ds).SignersOf(li')) >= v.quorum
    ensures li == li'
  {
    if li != li' {
      SignerSetsDisjoint(v, ds, li, li');
      var a, b := Run(v, ds).SignersOf(li), Run(v, ds).SignersOf(li');
      Overlap(v, a, b);
      assert a * b == {};
      NoPower(v.validators);
    }
  }

  // ---------------------------------------------------------------- certificates

  ghost predicate Certifies(v: ValidatorVerifier, ds: seq<Delivery>, i: nat, li: LedgerInfo)
    requires v.quorum <= v.Total() && i < |ds|
  {
    Answer(v, ds, i).NewQuorumCertificate? && Answer(v, ds, i).qc.li == li
  }

  /** A returned certificate names the delivered ledger info and exactly the
      recorded signers, which weigh a quorum. */
  lemma CertificateIsRecorded(v: ValidatorVerifier, ds: seq<Delivery>, i: nat)
    requires v.quorum <= v.Total() && i < |ds|
    requires Answer(v, ds, i).NewQuorumCertificate?
    ensures var qc := Answer(v, ds, i).qc;
      && qc.li == ds[i].vote.li && qc.data == ds[i].vote.data
      && qc.signers == SignersAfter(v, ds, i + 1, qc.li)
      && qc.signers <= v.Authors() && v.Power(qc.signers) >= v.quorum
  {
    RunStep(v, ds, i);
    InsertTimeouts(v, Run(v, ds[..i]), ds[i].vote, ds[i].aggregates);
  }

  /** One node never certifies two ledger infos, whatever it is sent. */
  lemma OneCertifiedLedgerInfo(v: ValidatorVerifier, ds: seq<Delivery>, i: nat, j: nat)
    requires v.quorum <= v.Total() < 2 * v.quorum && i < |ds| && j < |ds|
    requires Answer(v, ds, i).NewQuorumCertificate? && Answer(v, ds, j).NewQuorumCertificate?
    ensures Answer(v, ds, i).qc.li == Answer(v, ds, j).qc.li
  {
    CertificateIsRecorded(v, ds, i);
    CertificateIsRecorded(v, ds, j);
    QuorumStays(v, ds, i + 1, Answer(v, ds, i).qc.li);
    QuorumStays(v, ds, j + 1, Answer(v, ds, j).qc.li);
    AtMostOneQuorum(v, ds, Answer(v, ds, i).qc.li, Answer(v, ds, j).qc.li);
  }

  lemma QuorumStays(v: ValidatorVerifier, ds: seq<Delivery>, i: nat, li: LedgerInfo)
    requires v.quorum <= v.Total() && i <= |ds|
    ensures v.Power(SignersAfter(v, ds, i, li)) <= v.Power(Run(v, ds).SignersOf(li))
  {
    SignersGrow(v, ds, i, |ds|, li);
    assert ds[..|ds|] == ds;
    PowerMonotone(v.validators, SignersAfter(v, ds, i, li), Run(v, ds).SignersOf(li));
  }

  ghost predicate FromValidators(v: ValidatorVerifier, ds: seq<Delivery>) {
    forall i :: 0 <= i < |ds| ==> ds[i].vote.author in v.Authors() && ds[i].aggregates
  }

  /** Soundness and completeness: the run certifies `li` exactly when the authors
      recorded for it weigh a quorum. */
  lemma {:induction false} CertifiedIffQuorum(v: ValidatorVerifier, ds: seq<Delivery>, li: LedgerInfo)
    requires 0 < v.quorum <= v.Total() && FromValidators(v, ds)
    ensures (exists i :: 0 <= i < |ds| && Certifies(v, ds, i, li))
            <==> v.Power(Run(v, ds).SignersOf(li)) >= v.quorum
  {
    if i :| 0 <= i < |ds| && Certifies(v, ds, i, li) {
      CertificateIsRecorded(v, ds, i);
      QuorumStays(v, ds, i + 1, li);
    }
    if v.Power(Run(v, ds).SignersOf(li)) >= v.quorum {
      var i := FirstCertificate(v, ds, li);
    }
  }

  lemma {:induction false} SignersAreValidators(v: ValidatorVerifier, ds: seq<Delivery>, li: LedgerInfo)
    requires v.quorum <= v.Total() && FromValidators(v, ds)
    ensures Run(v, ds).SignersOf(li) <= v.Authors()
  {
    if ds != [] {
      var n := |ds| - 1;
      SignersAreValidators(v, ds[..n], li);
      InsertTables(v, Run(v, ds[..n]), ds[n].vote, ds[n].aggregates);
    }
  }

  lemma {:induction false} FirstCertificate(v: ValidatorVerifier, ds: seq<Delivery>, li: LedgerInfo)
    returns (i: nat)
    requires 0 < v.quorum <= v.Total() && FromValidators(v, ds)
    requires v.Power(Run(v, ds).SignersOf(li)) >= v.quorum
    ensures i < |ds| && Certifies(v, ds, i, li)
  {
    NoPower(v.validators);
    var n := |ds| - 1;
    if v.Power(Run(v, ds[..n]).SignersOf(li)) >= v.quorum {
      i := FirstCertificate(v, ds[..n], li);
      assert ds[..n][..i] == ds[..i];
    } else {
      SignersAreValidators(v, ds, li);
      CrossingCertifies(v, Run(v, ds[..n]), ds[n].vote, li);
      i := n;
    }
  }

  /** The insertion that takes known signers to a quorum returns the certificate. */
  lemma CrossingCertifies(v: ValidatorVerifier, s: Tally, vote: Vote, li: LedgerInfo)
    requires v.quorum <= v.Total() && v.Power(s.SignersOf(li)) < v.quorum
    requires var s' := Insert(v, s, vote, true).0;
      v.Power(s'.SignersOf(li)) >= v.quorum && s'.SignersOf(li) <= v.Authors()
    ensures var r := Insert(v, s, vote, true).1;
      r.NewQuorumCertificate? && r.qc.li == li
  {
    InsertTables(v, s, vote, true);
  }

  /** A plain acknowledgement reports the exact power recorded, always below a quorum. */
  lemma AcknowledgedPower(v: ValidatorVerifier, ds: seq<Delivery>, i: nat)
    requires v.quorum <= v.Total() && i < |ds|
    requires Answer(v, ds, i).VoteAdded?
    ensures Answer(v, ds, i).power == v.Power(SignersAfter(v, ds, i + 1, ds[i].vote.li)) < v.quorum
  {
    RunStep(v, ds, i);
  }

  // ---------------------------------------------------------------- delivery order

  ghost predicate NoEquivocation(ds: seq<Delivery>) {
    forall i, j :: 0 <= i < |ds| && 0 <= j < |ds| && ds[i].vote.author == ds[j].vote.author
      ==> ds[i].vote.li == ds[j].vote.li
  }

  ghost function VotersFor(ds: seq<Delivery>, li: LedgerInfo): set<Author> {
    set d | d in ds && d.vote.li == li :: d.vote.author
  }

  lemma {:induction false} SignersAreVoters(v: ValidatorVerifier, ds: seq<Delivery>)
    requires v.quorum <= v.Total() && NoEquivocation(ds)
    ensures TableOf(Run(v, ds), ds)
  {
    if ds != [] {
      var n := |ds| - 1;
      SignersAreVoters(v, ds[..n]);
      RunConsistent(v, ds[..n]);
      InsertTables(v, Run(v, ds[..n]), ds[n].vote, ds[n].aggregates);
      VoterAdded(Run(v, ds[..n]), Run(v, ds), ds);
    }
  }

  ghost function Voters(ds: seq<Delivery>): set<Author> {
    set d | d in ds :: d.vote.author
  }

  ghost function Choices(ds: seq<Delivery>): set<LedgerInfo> {
    set d | d in ds :: d.vote.li
  }

  /** The tables hold exactly the votes delivered. */
  ghost predicate TableOf(s: Tally, ds: seq<Delivery>) {
    && s.byAuthor.Keys == Voters(ds)
    && s.signers.Keys == Choices(ds)
    && forall li :: Signers(s.signers, li) == VotersFor(ds, li)
  }

  lemma OneMoreDelivery(pre: seq<Delivery>, d: Delivery)
    ensures Voters(pre + [d]) == Voters(pre) + {d.vote.author}
    ensures Choices(pre + [d]) == Choices(pre) + {d.vote.li}
    ensures forall li :: VotersFor(pre + [d], li)
                      == VotersFor(pre, li) + (if d.vote.li == li then {d.vote.author} else {})
  {
    forall e: Delivery
      ensures e in pre + [d] <==> e in pre || e == d
    {
    }
  }

  lemma VoterAdded(s: Tally, s': Tally, ds: seq<Delivery>)
    requires ds != [] && NoEquivocation(ds)
    requires TablesMatch(s.byAuthor, s.signers) && TableOf(s, ds[..|ds| - 1])
    requires var vote := ds[|ds| - 1].vote;
      if Repeats(s, vote).Some? then s'.byAuthor == s.byAuthor && s'.signers == s.signers
      else && s'.byAuthor == s.byAuthor[vote.author := vote]
           && s'.signers == s.signers[vote.li := s.SignersOf(vote.li) + {vote.author}]
    ensures TableOf(s', ds)
  {
    var pre, vote := ds[..|ds| - 1], ds[|ds| - 1].vote;
    assert ds == pre + [ds[|ds| - 1]];
    if vote.author in s.byAuthor {
      NoSecondChoice(s, ds);
    }
    OneMoreSigner(s, s', vote);
    TableGrows(s, s', pre, ds[|ds| - 1]);
  }

  lemma TableGrows(s: Tally, s': Tally, pre: seq<Delivery>, d: Delivery)
    requires TableOf(s, pre)
    requires s'.byAuthor.Keys == s.byAuthor.Keys + {d.vote.author}
    requires s'.signers.Keys == s.signers.Keys + {d.vote.li}
    requires forall li :: Signers(s'.signers, li)
                       == Signers(s.signers, li) + (if d.vote.li == li then {d.vote.author} else {})
    ensures TableOf(s', pre + [d])
  {
    OneMoreDelivery(pre, d);
    forall li
      ensures Signers(s'.signers, li) == VotersFor(pre + [d], li)
    {
      assert Signers(s.signers, li) == VotersFor(pre, li);
    }
  }

  lemma OneMoreSigner(s: Tally, s': Tally, vote: Vote)
    requires vote.author in s.byAuthor ==>
      s.byAuthor[vote.author].li == vote.li && vote.author in Signers(s.signers, vote.li)
    requires
      if Repeats(s, vote).Some? then s'.byAuthor == s.byAuthor && s'.signers == s.signers
      else && s'.byAuthor == s.byAuthor[vote.author := vote]
           && s'.signers == s.signers[vote.li := s.SignersOf(vote.li) + {vote.author}]
    ensures s'.byAuthor.Keys == s.byAuthor.Keys + {vote.author}
    ensures s'.signers.Keys == s.signers.Keys + {vote.li}
    ensures forall li :: Signers(s'.signers, li)
                      == Signers(s.signers, li) + (if vote.li == li then {vote.author} else {})
  {
  }

  lemma NoSecondChoice(s: Tally, ds: seq<Delivery>)
    requires ds != [] && NoEquivocation(ds)
    requires TablesMatch(s.byAuthor, s.signers) && TableOf(s, ds[..|ds| - 1])
    requires ds[|ds| - 1].vote.author in s.byAuthor
    ensures s.byAuthor[ds[|ds| - 1].vote.author].li == ds[|ds| - 1].vote.li
    ensures ds[|ds| - 1].vote.author in Signers(s.signers, ds[|ds| - 1].vote.li)
  {
    var pre, vote := ds[..|ds| - 1], ds[|ds| - 1].vote;
    var li := s.byAuthor[vote.author].li;
    assert vote.author in VotersFor(pre, li);
    var k :| 0 <= k < |pre| && pre[k].vote.li == li && pre[k].vote.author == vote.author;
    assert ds[k] == pre[k];
  }

  /** Without equivocation the final signer table depends only on which votes
      arrive, not on their order, their repetition or the aggregation outcomes. */
  lemma DeliveryOrderIrrelevant(v: ValidatorVerifier, ds: seq<Delivery>, ds': seq<Delivery>)
    requires v.quorum <= v.Total() && NoEquivocation(ds) && NoEquivocation(ds')
    requires (set d | d in ds :: d.vote) == (set d | d in ds' :: d.vote)
    ensures Run(v, ds).signers == Run(v, ds').signers
  {
    SignersAreVoters(v, ds);
    SignersAreVoters(v, ds');
    var s, s' := Run(v, ds).signers, Run(v, ds').signers;
    SameVotes(ds, ds');
    SameVotes(ds', ds);
    forall li | li in s
      ensures s[li] == s'[li]
    {
      assert Signers(s, li) == Signers(s', li);
    }
  }

  lemma SameVotes(ds: seq<Delivery>, ds': seq<Delivery>)
    requires (set d | d in ds :: d.vote) <= (set d | d in ds' :: d.vote)
    ensures (set d | d in ds :: d.vote.li) <= (set d | d in ds' :: d.vote.li)
    ensures forall li :: VotersFor(ds, li) <= VotersFor(ds', li)
  {
    forall d | d in ds
      ensures exists d' :: d' in ds' && d'.vote == d.vote
    {
      var votes := set e | e in ds :: e.vote;
      assert d.vote in votes;
    }
  }

  // ---------------------------------------------------------------- timeouts

  ghost function TimeoutsHeard(s: Tally): set<Author> {
    if s.partialTc.Some? then s.partialTc.value.rounds.Keys else {}
  }

  /** A timeout certificate has a quorum of signers, each with a stored timeout vote
      whose certified round it carries, and names the largest of those rounds. */
  lemma TimeoutCertificateIsRecorded(v: ValidatorVerifier, ds: seq<Delivery>, i: nat)
    requires v.quorum <= v.Total() && i < |ds|
    requires Answer(v, ds, i).New2ChainTimeoutCertificate?
    ensures var tc, s := Answer(v, ds, i).tc, Run(v, ds[..i + 1]);
      && tc.rounds.Keys <= v.Authors() && v.Power(tc.rounds.Keys) >= v.quorum
      && (forall a :: a in tc.rounds ==>
            && a in s.byAuthor && s.byAuthor[a].timeout.Some?
            && s.byAuthor[a].timeout.value.HqcRound() == tc.rounds[a])
      && IsHighest(tc.rounds, tc.timeout.HqcRound())
  {
    RunStep(v, ds, i);
    InsertTimeouts(v, Run(v, ds[..i]), ds[i].vote, ds[i].aggregates);
    RunConsistent(v, ds[..i + 1]);
  }

  /** The echo reports the power of the timeout signers: f+1 but not a quorum. */
  lemma EchoPower(v: ValidatorVerifier, ds: seq<Delivery>, i: nat)
    requires v.quorum <= v.Total() && i < |ds|
    requires Answer(v, ds, i).EchoTimeout?
    ensures var s := Run(v, ds[..i + 1]);
      && Answer(v, ds, i).power == v.Power(TimeoutsHeard(s))
      && v.Total() - v.quorum + 1 <= Answer(v, ds, i).power < v.quorum
      && (forall a :: a in TimeoutsHeard(s) ==> a in s.byAuthor && s.byAuthor[a].timeout.Some?)
  {
    RunStep(v, ds, i);
    InsertEcho(v, Run(v, ds[..i]), ds[i].vote, ds[i].aggregates);
    RunConsistent(v, ds[..i + 1]);
  }

  lemma {:induction false} EchoedStays(v: ValidatorVerifier, ds: seq<Delivery>, i: nat, j: nat)
    requires v.quorum <= v.Total() && i <= j <= |ds| && Run(v, ds[..i]).echoed
    ensures Run(v, ds[..j]).echoed
    decreases j
  {
    if i < j {
      EchoedStays(v, ds, i, j - 1);
      RunStep(v, ds, j - 1);
      InsertEcho(v, Run(v, ds[..j - 1]), ds[j - 1].vote, ds[j - 1].aggregates);
    }
  }

  lemma EchoAtMostOnce(v: ValidatorVerifier, ds: seq<Delivery>, i: nat, j: nat)
    requires v.quorum <= v.Total() && i < j < |ds| && Answer(v, ds, i).EchoTimeout?
    ensures !Answer(v, ds, j).EchoTimeout?
  {
    RunStep(v, ds, i);
    InsertEcho(v, Run(v, ds[..i]), ds[i].vote, ds[i].aggregates);
    EchoedStays(v, ds, i + 1, j);
    InsertEcho(v, Run(v, ds[..j]), ds[j].vote, ds[j].aggregates);
  }

  /** The set behind an echo meets every quorum and has an honest member. */
  lemma EchoSetIsHeard(v: ValidatorVerifier, ds: seq<Delivery>, i: nat, q: set<Author>, honest: set<Author>)
    returns (common: Author, h: Author)
    requires FaultBound(v, honest) && i < |ds| && Answer(v, ds, i).EchoTimeout?
    requires v.Power(q) >= v.quorum
    ensures common in TimeoutsHeard(Run(v, ds[..i + 1])) && common in q
    ensures h in TimeoutsHeard(Run(v, ds[..i + 1])) && h in honest
  {
    EchoPower(v, ds, i);
    var e := TimeoutsHeard(Run(v, ds[..i + 1]));
    Overlap(v, e, q);
    NoPower(v.validators);
    assert e * q != {};
    common :| common in e * q;
    h := HonestMember(v, e, honest);
  }
}
