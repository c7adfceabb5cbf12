/** Votes of one epoch and round at one node: equivocation, quorum certificates,
    timeout certificates and the f+1 timeout echo. */
module PendingVotes {
  import opened Wrappers
  import opened Quorum
  import opened ConsensusTypes

  datatype Reception =
    | VoteAdded(power: nat)
    | DuplicateVote
    | EquivocateVote
    | NewQuorumCertificate(qc: QuorumCert)
    | New2ChainTimeoutCertificate(tc: TimeoutCert)
    | ErrorAddingVote
    | ErrorAggregatingSignature
    | ErrorAggregatingTimeoutCertificate
    | EchoTimeout(power: nat)

  /** Timeout signatures gathered so far, with the timeout of highest certified round. */
  datatype PartialTc = PartialTc(timeout: Timeout, rounds: map<Author, Round>)

  datatype Tally = Tally(
    byAuthor: map<Author, Vote>,
    signers: map<LedgerInfo, set<Author>>,
    partialTc: Option<PartialTc>,
    echoed: bool)
  {
    function SignersOf(li: LedgerInfo): set<Author> {
      Signers(signers, li)
    }
  }

  function Signers(signers: map<LedgerInfo, set<Author>>, li: LedgerInfo): set<Author> {
    if li in signers then signers[li] else {}
  }

  const EMPTY_TALLY: Tally := Tally(map[], map[], None, false)

  // ---------------------------------------------------------------- specification

  /** A vote is looked at again only when it adds a timeout to the same vote. */
  function Repeats(s: Tally, vote: Vote): Option<Reception> {
    if vote.author !in s.byAuthor then None
    else if s.byAuthor[vote.author].li != vote.li then Some(EquivocateVote)
    else if vote.timeout.Some? && s.byAuthor[vote.author].timeout.None? then None
    else Some(DuplicateVote)
  }

  function Recorded(s: Tally, vote: Vote): Tally {
    s.(byAuthor := s.byAuthor[vote.author := vote],
       signers := s.signers[vote.li := s.SignersOf(vote.li) + {vote.author}])
  }

  /** The first timeout of an author is kept; the stored timeout only rises. */
  function WithTimeout(p: Option<PartialTc>, author: Author, t: Timeout): PartialTc {
    var base := if p.Some? then p.value else PartialTc(t, map[]);
    PartialTc(if t.HqcRound() > base.timeout.HqcRound() then t else base.timeout,
              if author in base.rounds then base.rounds else base.rounds[author := t.HqcRound()])
  }

  function AfterTimeout(v: ValidatorVerifier, s: Tally, vote: Vote, votePower: nat, aggregates: bool)
    : (Tally, Reception)
    requires vote.timeout.Some? && v.quorum <= v.Total()
  {
    var p := WithTimeout(s.partialTc, vote.author, vote.timeout.value);
    var s' := s.(partialTc := Some(p));
    match CheckVotingPower(v, p.rounds.Keys)
    case Enough(_) =>
      (s', if aggregates then New2ChainTimeoutCertificate(TimeoutCert(p.timeout, p.rounds))
           else ErrorAggregatingTimeoutCertificate)
    case UnknownAuthor => (s', ErrorAddingVote)
    case TooLittle(power) =>
      if !s.echoed && power >= v.Total() - v.quorum + 1
      then (s'.(echoed := true), EchoTimeout(power))
      else (s', VoteAdded(votePower))
  }

  /** The new tally and the answer for one delivered vote. `aggregates` is whether
      the signature shares combine, which the cryptography decides. */
  function Insert(v: ValidatorVerifier, s: Tally, vote: Vote, aggregates: bool): (Tally, Reception)
    requires v.quorum <= v.Total()
  {
    match Repeats(s, vote)
    case Some(r) => (s, r)
    case None =>
      var s1 := Recorded(s, vote);
      match CheckVotingPower(v, s1.SignersOf(vote.li))
      case Enough(_) =>
        (s1, if aggregates then NewQuorumCertificate(QuorumCert(vote.data, vote.li, s1.SignersOf(vote.li)))
             else ErrorAggregatingSignature)
      case UnknownAuthor => (s1, ErrorAddingVote)
      case TooLittle(power) =>
        if vote.timeout.None? then (s1, VoteAdded(power))
        else AfterTimeout(v, s1, vote, power, aggregates)
  }

  // ---------------------------------------------------------------- implementation

  class PendingVotes {
    var liDigestToVotes: map<LedgerInfo, set<Author>>
    var partialTc: Option<PartialTc>
    var authorToVote: map<Author, Vote>
    var echoTimeout: bool

    function Contents(): Tally
      reads this
    {
      Tally(authorToVote, liDigestToVotes, partialTc, echoTimeout)
    }

    constructor ()
      ensures Contents() == EMPTY_TALLY
    {
      liDigestToVotes := map[];
      partialTc := None;
      authorToVote := map[];
      echoTimeout := false;
    }

    method InsertVote(v: ValidatorVerifier, vote: Vote, aggregates: bool) returns (r: Reception)
      requires v.quorum <= v.Total()
      modifies this
      ensures (Contents(), r) == Insert(v, old(Contents()), vote, aggregates)
    {
      // 1. Has the author already voted in this round?
      if vote.author in authorToVote {
        var previous := authorToVote[vote.author];
        if previous.li != vote.li {
          return EquivocateVote;
        }
        var newTimeoutVote := vote.timeout.Some? && previous.timeout.None?;
        if !newTimeoutVote {
          return DuplicateVote;
        }
      }
      // 2. Store the vote.
      authorToVote := authorToVote[vote.author := vote];
      // 3. Can a quorum certificate be formed?
      if vote.li !in liDigestToVotes {
        liDigestToVotes := liDigestToVotes[vote.li := {}];
      }
      liDigestToVotes := liDigestToVotes[vote.li := liDigestToVotes[vote.li] + {vote.author}];
      assert liDigestToVotes == Recorded(old(Contents()), vote).signers;
      var votingPower;
      match CheckVotingPower(v, liDigestToVotes[vote.li]) {
        case Enough(power) =>
          r := HandleAggregatedQc(v, power, vote, liDigestToVotes[vote.li], aggregates);
          return;
        case UnknownAuthor =>
          return ErrorAddingVote;
        case TooLittle(power) =>
          votingPower := power;
      }
      // 4. Can a timeout certificate be formed?
      if vote.timeout.Some? {
        var t := vote.timeout.value;
        if partialTc.None? {
          partialTc := Some(PartialTc(t, map[]));
        }
        partialTc := Some(WithTimeout(partialTc, vote.author, t));
        match CheckVotingPower(v, partialTc.value.rounds.Keys) {
          case Enough(_) =>
            return if aggregates
              then New2ChainTimeoutCertificate(TimeoutCert(partialTc.value.timeout, partialTc.value.rounds))
              else ErrorAggregatingTimeoutCertificate;
          case UnknownAuthor =>
            return ErrorAddingVote;
          case TooLittle(tcPower) =>
            if !echoTimeout {
              var fPlusOne := v.Total() - v.quorum + 1;
              if tcPower >= fPlusOne {
                echoTimeout := true;
                return EchoTimeout(tcPower);
              }
            }
        }
      }
      // 5. Neither could be formed.
      return VoteAdded(votingPower);
    }

    /** The aggregator that never delays. Its caller has already seen a quorum: when
        that is the power of the signers handed over, the certificate passes quorum
        verification wherever their signatures do. */
    static method HandleAggregatedQc(
      v: ValidatorVerifier, power: nat, vote: Vote, signers: set<Author>, aggregates: bool)
      returns (r: Reception)
      requires power >= v.quorum
      ensures r.NewQuorumCertificate? <==> aggregates
      ensures !aggregates ==> r == ErrorAggregatingSignature
      ensures aggregates ==> r.qc.li == vote.li && r.qc.data == vote.data && r.qc.signers == signers
      ensures aggregates && CheckVotingPower(v, signers) == Enough(power) ==>
        forall sigs: set<Signature> :: (forall a :: a in signers ==> OnLedger(a, vote.li) in sigs)
          ==> QuorumSigned(v, sigs, r.qc.li, r.qc.signers)
    {
      r := if aggregates then NewQuorumCertificate(QuorumCert(vote.data, vote.li, signers))
           else ErrorAggregatingSignature;
    }

    /** A delayed certificate is built from the table, never from the message. */
    method ProcessDelayedQc(v: ValidatorVerifier, vote: Vote, aggregates: bool) returns (r: Reception)
      ensures r.NewQuorumCertificate? <==>
              aggregates && vote.li in liDigestToVotes
              && CheckVotingPower(v, liDigestToVotes[vote.li]).Enough?
      ensures r.NewQuorumCertificate? ==>
              r.qc == QuorumCert(vote.data, vote.li, Contents().SignersOf(vote.li))
              && v.Power(r.qc.signers) >= v.quorum
      ensures r.ErrorAggregatingSignature? <==>
              !aggregates && vote.li in liDigestToVotes
              && CheckVotingPower(v, liDigestToVotes[vote.li]).Enough?
      ensures r.NewQuorumCertificate? || r.ErrorAddingVote? || r.ErrorAggregatingSignature?
    {
      if vote.li !in liDigestToVotes {
        return ErrorAddingVote;
      }
      match CheckVotingPower(v, liDigestToVotes[vote.li]) {
        case Enough(power) =>
          r := HandleAggregatedQc(v, power, vote, liDigestToVotes[vote.li], aggregates);
        case UnknownAuthor => r := ErrorAddingVote;
        case TooLittle(_) => r := ErrorAddingVote;
      }
    }

    /** Hands over both tables at the end of a round and keeps the per-author votes. */
    method DrainVotes() returns (votes: map<LedgerInfo, set<Author>>, tc: Option<PartialTc>)
      modifies this
      ensures votes == old(liDigestToVotes) && tc == old(partialTc)
      ensures Contents() == old(Contents()).(signers := map[], partialTc := None)
    {
      votes, tc := liDigestToVotes, partialTc;
      liDigestToVotes, partialTc := map[], None;
    }
  }

  // ---------------------------------------------------------------- one step

  /** The signer sets and the per-author votes say the same thing. */
  ghost predicate TablesMatch(byAuthor: map<Author, Vote>, signers: map<LedgerInfo, set<Author>>) {
    && (forall a :: a in byAuthor ==> byAuthor[a].author == a && a in Signers(signers, byAuthor[a].li))
    && (forall li, a :: a in Signers(signers, li) ==> a in byAuthor && byAuthor[a].li == li)
  }

  /** Timeout signatures come from stored timeout votes, and the timeout kept for
      the certificate has the largest certified round among them. */
  ghost predicate TimeoutsMatch(byAuthor: map<Author, Vote>, p: Option<PartialTc>) {
    p.Some? ==>
      && (forall a :: a in p.value.rounds ==>
            && a in byAuthor && byAuthor[a].timeout.Some?
            && byAuthor[a].timeout.value.HqcRound() == p.value.rounds[a])
      && IsHighest(p.value.rounds, p.value.timeout.HqcRound())
  }

  /** What every insertion keeps. */
  ghost predicate Consistent(s: Tally) {
    TablesMatch(s.byAuthor, s.signers) && TimeoutsMatch(s.byAuthor, s.partialTc)
  }

  lemma RecordedMatches(s: Tally, vote: Vote)
    requires Consistent(s) && Repeats(s, vote).None?
    ensures Consistent(Recorded(s, vote))
    ensures vote.author in s.byAuthor && s.partialTc.Some? ==> vote.author !in s.partialTc.value.rounds
  {
    var s' := Recorded(s, vote);
    forall li, a | a in Signers(s'.signers, li)
      ensures a in s'.byAuthor && s'.byAuthor[a].li == li
    {
      if a != vote.author || li != vote.li { assert a in Signers(s.signers, li); }
    }
  }

  lemma WithTimeoutMatches(byAuthor: map<Author, Vote>, p: Option<PartialTc>, vote: Vote)
    requires TimeoutsMatch(byAuthor, p) && vote.timeout.Some?
    requires vote.author in byAuthor && byAuthor[vote.author] == vote
    requires p.Some? ==> vote.author !in p.value.rounds
    ensures TimeoutsMatch(byAuthor, Some(WithTimeout(p, vote.author, vote.timeout.value)))
  {
    var q := WithTimeout(p, vote.author, vote.timeout.value);
    assert vote.author in q.rounds;
    if p.Some? && vote.timeout.value.HqcRound() <= p.value.timeout.HqcRound() {
      var a :| a in p.value.rounds && p.value.rounds[a] == p.value.timeout.HqcRound();
      assert a in q.rounds && q.rounds[a] == q.timeout.HqcRound();
    }
  }

  lemma InsertConsistent(v: ValidatorVerifier, s: Tally, vote: Vote, aggregates: bool)
    requires v.quorum <= v.Total() && Consistent(s)
    ensures Consistent(Insert(v, s, vote, aggregates).0)
  {
    if Repeats(s, vote).None? {
      RecordedMatches(s, vote);
      if vote.timeout.Some? {
        WithTimeoutMatches(Recorded(s, vote).byAuthor, s.partialTc, vote);
      }
      InsertTables(v, s, vote, aggregates);
      InsertTimeouts(v, s, vote, aggregates);
    }
  }

  /** The voting tables after one insertion: unchanged by a repeat, one entry more
      otherwise. */
  lemma InsertTables(v: ValidatorVerifier, s: Tally, vote: Vote, aggregates: bool)
    requires v.quorum <= v.Total()
    ensures var s', kept := Insert(v, s, vote, aggregates).0, Repeats(s, vote).Some?;
      && s'.byAuthor == (if kept then s.byAuthor else s.byAuthor[vote.author := vote])
      && s'.signers == (if kept then s.signers
                        else s.signers[vote.li := s.SignersOf(vote.li) + {vote.author}])
  {
  }

  /** The echo flag is raised by the echo and never lowered. */
  lemma InsertEcho(v: ValidatorVerifier, s: Tally, vote: Vote, aggregates: bool)
    requires v.quorum <= v.Total()
    ensures var (s', r) := Insert(v, s, vote, aggregates);
      && (s.echoed ==> s'.echoed && !r.EchoTimeout?)
      && (r.EchoTimeout? ==>
            && s'.echoed && s'.partialTc.Some?
            && r.power == v.Power(s'.partialTc.value.rounds.Keys)
            && v.Total() - v.quorum + 1 <= r.power < v.quorum)
  {
  }

  /** The timeout table after one insertion, and what the two certificates hold. */
  lemma InsertTimeouts(v: ValidatorVerifier, s: Tally, vote: Vote, aggregates: bool)
    requires v.quorum <= v.Total()
    ensures var (s', r) := Insert(v, s, vote, aggregates);
      && (s'.partialTc != s.partialTc ==>
            vote.timeout.Some? && s'.partialTc == Some(WithTimeout(s.partialTc, vote.author, vote.timeout.value)))
      && (r.New2ChainTimeoutCertificate? ==>
            && s'.partialTc == Some(PartialTc(r.tc.timeout, r.tc.rounds))
            && r.tc.rounds.Keys <= v.Authors() && v.Power(r.tc.rounds.Keys) >= v.quorum)
      && (r.NewQuorumCertificate? ==>
            && r.qc == QuorumCert(vote.data, vote.li, s'.SignersOf(vote.li))
            && r.qc.signers <= v.Authors() && v.Power(r.qc.signers) >= v.quorum)
  {
  }
}
