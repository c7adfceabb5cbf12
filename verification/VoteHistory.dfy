/** What a node's vote table remembers and answers, read off the deliveries: first
    votes, repetitions, and when timeouts make a certificate or an echo. */
module VoteHistory {
  import opened Wrappers
  import opened Quorum
  import opened ConsensusTypes
  import opened PendingVotes
  import opened VoteRuns

  // ---------------------------------------------------------------- the deliveries

  /** What an author's first delivered vote is for. */
  function FirstChoice(ds: seq<Delivery>, a: Author): Option<LedgerInfo> {
    if ds == [] then None
    else if ds[0].vote.author == a then Some(ds[0].vote.li)
    else FirstChoice(ds[1..], a)
  }

  /** The author delivered a timeout with a vote for its first choice. */
  predicate TimedOut(ds: seq<Delivery>, a: Author) {
    exists i :: 0 <= i < |ds| && ds[i].vote.author == a && ds[i].vote.timeout.Some?
             && FirstChoice(ds, a) == Some(ds[i].vote.li)
  }

  function TimedOutIn(ds: seq<Delivery>): set<Author> {
    set d | d in ds && TimedOut(ds, d.vote.author) :: d.vote.author
  }

  lemma {:induction false} FirstChoiceAppend(ds: seq<Delivery>, d: Delivery, a: Author)
    ensures FirstChoice(ds + [d], a) ==
      var before := FirstChoice(ds, a);
      if before.Some? then before else if d.vote.author == a then Some(d.vote.li) else None
  {
    if ds != [] {
      assert (ds + [d])[1..] == ds[1..] + [d];
      FirstChoiceAppend(ds[1..], d, a);
    }
  }

  lemma {:induction false} ChoiceOfDelivered(ds: seq<Delivery>, i: nat)
    requires i < |ds|
    ensures FirstChoice(ds, ds[i].vote.author).Some?
  {
    if ds[0].vote.author != ds[i].vote.author { ChoiceOfDelivered(ds[1..], i - 1); }
  }

  lemma TimedOutAppend(ds: seq<Delivery>, d: Delivery, a: Author)
    ensures TimedOut(ds + [d], a) <==>
      || TimedOut(ds, a)
      || (d.vote.author == a && d.vote.timeout.Some?
          && (FirstChoice(ds, a) == None || FirstChoice(ds, a) == Some(d.vote.li)))
  {
    var all := ds + [d];
    FirstChoiceAppend(ds, d, a);
    if TimedOut(ds, a) {
      var i :| 0 <= i < |ds| && ds[i].vote.author == a && ds[i].vote.timeout.Some?
               && FirstChoice(ds, a) == Some(ds[i].vote.li);
      assert all[i] == ds[i];
    }
    if TimedOut(all, a) && !TimedOut(ds, a) {
      var i :| 0 <= i < |all| && all[i].vote.author == a && all[i].vote.timeout.Some?
               && FirstChoice(all, a) == Some(all[i].vote.li);
      if i < |ds| { ChoiceOfDelivered(ds, i); }
    }
    if d.vote.author == a && d.vote.timeout.Some? && FirstChoice(all, a) == Some(d.vote.li) {
      assert all[|ds|] == d;
    }
  }

  lemma TimedOutMembers(ds: seq<Delivery>, a: Author)
    ensures a in TimedOutIn(ds) <==> TimedOut(ds, a)
  {
    if TimedOut(ds, a) {
      var i :| 0 <= i < |ds| && ds[i].vote.author == a && ds[i].vote.timeout.Some?
               && FirstChoice(ds, a) == Some(ds[i].vote.li);
      assert ds[i] in ds;
    }
  }

  // ---------------------------------------------------------------- what the table remembers

  /** The per-author votes are the first choices, with a timeout once one came. */
  ghost predicate Remembers(byAuthor: map<Author, Vote>, ds: seq<Delivery>) {
    forall a :: RemembersVote(byAuthor, ds, a)
  }

  predicate RemembersVote(byAuthor: map<Author, Vote>, ds: seq<Delivery>, a: Author) {
    && (a in byAuthor <==> FirstChoice(ds, a).Some?)
    && (a in byAuthor ==>
          && Some(byAuthor[a].li) == FirstChoice(ds, a)
          && (byAuthor[a].timeout.Some? <==> TimedOut(ds, a)))
  }

  lemma RememberOne(s: Tally, ds: seq<Delivery>, d: Delivery)
    requires Remembers(s.byAuthor, ds)
    ensures Remembers(if Repeats(s, d.vote).Some? then s.byAuthor else s.byAuthor[d.vote.author := d.vote], ds + [d])
  {
    var after := if Repeats(s, d.vote).Some? then s.byAuthor else s.byAuthor[d.vote.author := d.vote];
    forall a: Author
      ensures RemembersVote(after, ds + [d], a)
    {
      assert RemembersVote(s.byAuthor, ds, a);
      FirstChoiceAppend(ds, d, a);
      TimedOutAppend(ds, d, a);
      if FirstChoice(ds, a).None? { NeverTimedOut(ds, a); }
    }
  }

  lemma NeverTimedOut(ds: seq<Delivery>, a: Author)
    requires FirstChoice(ds, a).None?
    ensures !TimedOut(ds, a)
  {
  }

  /** Over every run, with no assumption on the votes. */
  lemma {:induction false} RunRemembers(v: ValidatorVerifier, ds: seq<Delivery>)
    requires v.quorum <= v.Total()
    ensures Remembers(Run(v, ds).byAuthor, ds)
  {
    if ds == [] {
    } else {
      var n := |ds| - 1;
      var s := Run(v, ds[..n]);
      RunRemembers(v, ds[..n]);
      InsertTables(v, s, ds[n].vote, ds[n].aggregates);
      RememberOne(s, ds[..n], ds[n]);
      assert ds[..n] + [ds[n]] == ds;
    }
  }

  /** A vote is answered as equivocation exactly when its author's first vote was for
      something else, and as a duplicate exactly when it repeats the first choice and
      adds no timeout or a timeout came before. */
  lemma RepeatAnswers(v: ValidatorVerifier, ds: seq<Delivery>, i: nat)
    requires v.quorum <= v.Total() && i < |ds|
    ensures var vote := ds[i].vote;
      var first := FirstChoice(ds[..i], vote.author);
      && (Answer(v, ds, i).EquivocateVote? <==> first.Some? && first.value != vote.li)
      && (Answer(v, ds, i).DuplicateVote? <==>
            first == Some(vote.li) && (vote.timeout.None? || TimedOut(ds[..i], vote.author)))
  {
    RunRemembers(v, ds[..i]);
    assert RemembersVote(Run(v, ds[..i]).byAuthor, ds[..i], ds[i].vote.author);
    RepeatsAnswered(v, Run(v, ds[..i]), ds[i].vote, ds[i].aggregates);
  }

  lemma RepeatsAnswered(v: ValidatorVerifier, s: Tally, vote: Vote, aggregates: bool)
    requires v.quorum <= v.Total()
    ensures var r := Insert(v, s, vote, aggregates).1;
      && (r.EquivocateVote? <==> Repeats(s, vote) == Some(EquivocateVote))
      && (r.DuplicateVote? <==> Repeats(s, vote) == Some(DuplicateVote))
  {
  }

  /** The signers of a ledger info are exactly the authors whose first vote is for it,
      over every run, however much is equivocated. */
  lemma SignersAreFirstVoters(v: ValidatorVerifier, ds: seq<Delivery>, li: LedgerInfo, a: Author)
    requires v.quorum <= v.Total()
    ensures a in Run(v, ds).SignersOf(li) <==> FirstChoice(ds, a) == Some(li)
  {
    RunRemembers(v, ds);
    RunConsistent(v, ds);
    var s := Run(v, ds);
    assert RemembersVote(s.byAuthor, ds, a);
    if a in s.byAuthor { assert a in Signers(s.signers, s.byAuthor[a].li); }
    if a in Signers(s.signers, li) { assert s.byAuthor[a].li == li; }
  }

  // ---------------------------------------------------------------- timeouts

  /** The validators vote, shares aggregate, and no quorum certificate comes out. */
  ghost predicate NoQuorumYet(v: ValidatorVerifier, ds: seq<Delivery>)
    requires v.quorum <= v.Total()
  {
    FromValidators(v, ds) && forall i :: 0 <= i < |ds| ==> !Answer(v, ds, i).NewQuorumCertificate?
  }

  lemma NoQuorumBefore(v: ValidatorVerifier, ds: seq<Delivery>, n: nat)
    requires v.quorum <= v.Total() && n <= |ds| && NoQuorumYet(v, ds)
    ensures NoQuorumYet(v, ds[..n])
  {
    forall i | 0 <= i < n
      ensures !Answer(v, ds[..n], i).NewQuorumCertificate?
    {
      assert ds[..n][..i] == ds[..i];
      assert !Answer(v, ds, i).NewQuorumCertificate?;
    }
  }

  /** One insertion that is not a repetition and does not complete a quorum: the author
      of a timeout is heard, and the power then heard decides the answer. */
  lemma InsertHears(v: ValidatorVerifier, s: Tally, vote: Vote)
    requires v.quorum <= v.Total() && Repeats(s, vote).None?
    requires !Insert(v, s, vote, true).1.NewQuorumCertificate?
    requires s.SignersOf(vote.li) + {vote.author} <= v.Authors() && TimeoutsHeard(s) + {vote.author} <= v.Authors()
    ensures var (s', r) := Insert(v, s, vote, true);
      if vote.timeout.None? then TimeoutsHeard(s') == TimeoutsHeard(s) && s'.echoed == s.echoed && r.VoteAdded?
      else
        var heard := v.Power(TimeoutsHeard(s'));
        && TimeoutsHeard(s') == TimeoutsHeard(s) + {vote.author}
        && (r.New2ChainTimeoutCertificate? <==> heard >= v.quorum)
        && (r.EchoTimeout? <==> !s.echoed && v.Total() - v.quorum + 1 <= heard < v.quorum)
        && (s'.echoed <==> s.echoed || r.EchoTimeout?)
  {
    var s1 := Recorded(s, vote);
    assert s1.SignersOf(vote.li) == s.SignersOf(vote.li) + {vote.author};
    if vote.timeout.Some? {
      var p := WithTimeout(s1.partialTc, vote.author, vote.timeout.value);
      assert p.rounds.Keys == TimeoutsHeard(s) + {vote.author};
    }
  }

  /** Every answer to a vote that is not a repetition, by the authors then recorded: a
      quorum of known signers decides first, then a quorum of known timeout signers,
      then the echo; an unknown author is an error. */
  lemma FreshAnswers(v: ValidatorVerifier, s: Tally, vote: Vote, aggregates: bool)
    requires v.quorum <= v.Total() && Repeats(s, vote).None?
    ensures var r := Insert(v, s, vote, aggregates).1;
      var signers, heard := s.SignersOf(vote.li) + {vote.author}, TimeoutsHeard(s) + {vote.author};
      var quorum := signers <= v.Authors() && v.Power(signers) >= v.quorum;
      var below := signers <= v.Authors() && v.Power(signers) < v.quorum;
      var late := below && vote.timeout.Some?;
      var timeouts := heard <= v.Authors() && v.Power(heard) >= v.quorum;
      && (r.NewQuorumCertificate? <==> quorum && aggregates)
      && (r.ErrorAggregatingSignature? <==> quorum && !aggregates)
      && (r.New2ChainTimeoutCertificate? <==> late && timeouts && aggregates)
      && (r.ErrorAggregatingTimeoutCertificate? <==> late && timeouts && !aggregates)
      && (r.ErrorAddingVote? <==> !(signers <= v.Authors()) || (late && !(heard <= v.Authors())))
      && (r.VoteAdded? ==> below && r.power == v.Power(signers))
      && (r.EchoTimeout? ==> late && r.power == v.Power(heard))
      && !r.EquivocateVote? && !r.DuplicateVote?
  {
    var s1 := Recorded(s, vote);
    assert s1.SignersOf(vote.li) == s.SignersOf(vote.li) + {vote.author};
    if vote.timeout.Some? {
      var p := WithTimeout(s1.partialTc, vote.author, vote.timeout.value);
      assert p.rounds.Keys == TimeoutsHeard(s) + {vote.author};
    }
  }

  /** The timeout kept for the certificate is replaced only by one with a strictly
      higher certified round, and a signer keeps the round it was first heard with. */
  lemma TimeoutReplacedIff(v: ValidatorVerifier, s: Tally, vote: Vote, aggregates: bool)
    requires v.quorum <= v.Total() && s.partialTc.Some?
    ensures var (kept, after) := (s.partialTc.value, Insert(v, s, vote, aggregates).0.partialTc);
      && after.Some?
      && (after.value.timeout == kept.timeout
          || (&& vote.timeout == Some(after.value.timeout)
              && vote.timeout.value.qc.data.proposed.GetRound() > kept.timeout.qc.data.proposed.GetRound()))
      && (forall a :: a in kept.rounds ==> a in after.value.rounds && after.value.rounds[a] == kept.rounds[a])
      && after.value.timeout.qc.data.proposed.GetRound() >= kept.timeout.qc.data.proposed.GetRound()
  {
    InsertTimeouts(v, s, vote, aggregates);
  }

  /** A repetition changes nothing. */
  lemma RepeatKeeps(v: ValidatorVerifier, s: Tally, vote: Vote, aggregates: bool)
    requires v.quorum <= v.Total() && Repeats(s, vote).Some?
    ensures Insert(v, s, vote, aggregates) == (s, Repeats(s, vote).value)
  {
  }

  lemma HeardKnown(v: ValidatorVerifier, ds: seq<Delivery>, i: nat)
    requires v.quorum <= v.Total() && i < |ds| && FromValidators(v, ds)
    requires TimeoutsHeard(Run(v, ds[..i])) == TimedOutIn(ds[..i])
    ensures Run(v, ds[..i]).SignersOf(ds[i].vote.li) + {ds[i].vote.author} <= v.Authors()
    ensures TimeoutsHeard(Run(v, ds[..i])) + {ds[i].vote.author} <= v.Authors()
  {
    SignersAreValidators(v, ds[..i], ds[i].vote.li);
  }

  lemma TimedOutOneMore(ds: seq<Delivery>, d: Delivery)
    ensures TimedOutIn(ds + [d]) == TimedOutIn(ds) +
      if d.vote.timeout.Some? && (FirstChoice(ds, d.vote.author) == None
                                  || FirstChoice(ds, d.vote.author) == Some(d.vote.li))
      then {d.vote.author} else {}
  {
    forall a: Author
      ensures a in TimedOutIn(ds + [d]) <==>
        || a in TimedOutIn(ds)
        || (&& a == d.vote.author && d.vote.timeout.Some?
            && (FirstChoice(ds, a) == None || FirstChoice(ds, a) == Some(d.vote.li)))
    {
      TimedOutMembers(ds, a);
      TimedOutMembers(ds + [d], a);
      TimedOutAppend(ds, d, a);
    }
  }

  /** Until a quorum certificate comes out, the timeout table holds exactly the authors
      who delivered a timeout with their first choice. */
  lemma {:induction false} HeardAreTimedOut(v: ValidatorVerifier, ds: seq<Delivery>)
    requires v.quorum <= v.Total() && NoQuorumYet(v, ds)
    ensures TimeoutsHeard(Run(v, ds)) == TimedOutIn(ds)
  {
    if ds != [] {
      var n := |ds| - 1;
      NoQuorumBefore(v, ds, n);
      HeardAreTimedOut(v, ds[..n]);
      HeardOneMore(v, ds);
    }
  }

  lemma HeardOneMore(v: ValidatorVerifier, ds: seq<Delivery>)
    requires v.quorum <= v.Total() && ds != [] && NoQuorumYet(v, ds)
    requires TimeoutsHeard(Run(v, ds[..|ds| - 1])) == TimedOutIn(ds[..|ds| - 1])
    ensures TimeoutsHeard(Run(v, ds)) == TimedOutIn(ds)
  {
    var n := |ds| - 1;
    var pre, s, vote := ds[..n], Run(v, ds[..n]), ds[n].vote;
    assert pre + [ds[n]] == ds;
    TimedOutOneMore(pre, ds[n]);
    RunRemembers(v, pre);
    assert RemembersVote(s.byAuthor, pre, vote.author);
    assert !Answer(v, ds, n).NewQuorumCertificate? && ds[n].aggregates;
    if Repeats(s, vote).None? {
      HeardKnown(v, ds, n);
      InsertHears(v, s, vote);
    } else {
      RepeatKeeps(v, s, vote, true);
      TimedOutMembers(pre, vote.author);
    }
  }

  /** Without equivocation those are all authors of delivered votes with a timeout. */
  lemma TimedOutAreSenders(ds: seq<Delivery>, a: Author)
    requires NoEquivocation(ds)
    ensures a in TimedOutIn(ds) <==>
      exists i :: 0 <= i < |ds| && ds[i].vote.author == a && ds[i].vote.timeout.Some?
  {
    TimedOutMembers(ds, a);
    forall i | 0 <= i < |ds| && ds[i].vote.author == a
      ensures FirstChoice(ds, a) == Some(ds[i].vote.li)
    {
      ChoiceIsDelivered(ds, i);
    }
  }

  lemma {:induction false} ChoiceIsDelivered(ds: seq<Delivery>, i: nat)
    requires NoEquivocation(ds) && i < |ds|
    ensures FirstChoice(ds, ds[i].vote.author) == Some(ds[i].vote.li)
  {
    if ds[0].vote.author != ds[i].vote.author {
      ChoiceIsDelivered(ds[1..], i - 1);
    }
  }

  // ---------------------------------------------------------------- timeout certificates

  lemma HeardStays(v: ValidatorVerifier, ds: seq<Delivery>, n: nat)
    requires v.quorum <= v.Total() && n <= |ds| && NoQuorumYet(v, ds)
    ensures v.Power(TimedOutIn(ds[..n])) <= v.Power(TimedOutIn(ds))
    decreases |ds|
  {
    if n < |ds| {
      var m := |ds| - 1;
      NoQuorumBefore(v, ds, m);
      HeardStays(v, ds[..m], n);
      assert ds[..m][..n] == ds[..n] && ds[..m] + [ds[m]] == ds;
      TimedOutOneMore(ds[..m], ds[m]);
      PowerMonotone(v.validators, TimedOutIn(ds[..m]), TimedOutIn(ds));
    } else {
      assert ds[..n] == ds;
    }
  }

  /** Enough timeouts to echo, too few for a certificate. */
  ghost predicate InEchoRange(v: ValidatorVerifier, ds: seq<Delivery>) {
    v.Total() - v.quorum + 1 <= v.Power(TimedOutIn(ds)) < v.quorum
  }

  /** What the last delivery does to the authors heard, and its answer. */
  lemma LastDelivery(v: ValidatorVerifier, ds: seq<Delivery>)
    requires v.quorum <= v.Total() && ds != [] && NoQuorumYet(v, ds)
    ensures var n := |ds| - 1;
      var heard, r := v.Power(TimedOutIn(ds)), Answer(v, ds, n);
      && (TimedOutIn(ds) != TimedOutIn(ds[..n]) && heard >= v.quorum ==> r.New2ChainTimeoutCertificate?)
      && (r.New2ChainTimeoutCertificate? ==> heard >= v.quorum)
      && (TimedOutIn(ds) != TimedOutIn(ds[..n]) && !Run(v, ds[..n]).echoed && InEchoRange(v, ds) ==> r.EchoTimeout?)
      && (r.EchoTimeout? ==> InEchoRange(v, ds))
      && (Run(v, ds).echoed ==> Run(v, ds[..n]).echoed || r.EchoTimeout?)
  {
    var n := |ds| - 1;
    var s, vote := Run(v, ds[..n]), ds[n].vote;
    NoQuorumBefore(v, ds, n);
    HeardAreTimedOut(v, ds[..n]);
    HeardAreTimedOut(v, ds);
    assert !Answer(v, ds, n).NewQuorumCertificate? && ds[n].aggregates;
    if Repeats(s, vote).None? {
      HeardKnown(v, ds, n);
      InsertHears(v, s, vote);
    } else {
      RepeatKeeps(v, s, vote, true);
    }
  }

  lemma NoneYet(v: ValidatorVerifier)
    ensures v.Power(TimedOutIn([])) == 0
  {
    assert TimedOutIn([]) == {};
    NoPower(v.validators);
  }

  ghost predicate CertifiesTimeout(v: ValidatorVerifier, ds: seq<Delivery>, i: nat)
    requires v.quorum <= v.Total() && i < |ds|
  {
    Answer(v, ds, i).New2ChainTimeoutCertificate?
  }

  ghost predicate Echoes(v: ValidatorVerifier, ds: seq<Delivery>, i: nat)
    requires v.quorum <= v.Total() && i < |ds|
  {
    Answer(v, ds, i).EchoTimeout?
  }

  lemma AnswerOfPrefix(v: ValidatorVerifier, ds: seq<Delivery>, n: nat, i: nat)
    requires v.quorum <= v.Total() && i < n <= |ds|
    ensures Answer(v, ds[..n], i) == Answer(v, ds, i)
  {
    assert ds[..n][..i] == ds[..i];
  }

  lemma {:induction false} SomeTimeoutCertificate(v: ValidatorVerifier, ds: seq<Delivery>) returns (i: nat)
    requires 0 < v.quorum <= v.Total() && NoQuorumYet(v, ds) && v.Power(TimedOutIn(ds)) >= v.quorum
    ensures i < |ds| && CertifiesTimeout(v, ds, i)
  {
    NoneYet(v);
    var n := |ds| - 1;
    NoQuorumBefore(v, ds, n);
    if TimedOutIn(ds) == TimedOutIn(ds[..n]) {
      i := SomeTimeoutCertificate(v, ds[..n]);
      AnswerOfPrefix(v, ds, n, i);
    } else {
      LastDelivery(v, ds);
      i := n;
    }
  }

  /** A timeout certificate is returned exactly when the authors who delivered a timeout
      weigh a quorum. */
  lemma TimeoutCertifiedIff(v: ValidatorVerifier, ds: seq<Delivery>)
    requires 0 < v.quorum <= v.Total() && NoQuorumYet(v, ds)
    ensures (exists i :: 0 <= i < |ds| && CertifiesTimeout(v, ds, i)) <==> v.Power(TimedOutIn(ds)) >= v.quorum
  {
    if i :| 0 <= i < |ds| && CertifiesTimeout(v, ds, i) {
      NoQuorumBefore(v, ds, i + 1);
      AnswerOfPrefix(v, ds, i + 1, i);
      LastDelivery(v, ds[..i + 1]);
      HeardStays(v, ds, i + 1);
    }
    if v.Power(TimedOutIn(ds)) >= v.quorum {
      var i := SomeTimeoutCertificate(v, ds);
    }
  }

  // ---------------------------------------------------------------- the echo

  lemma {:induction false} EchoedWasAnswered(v: ValidatorVerifier, ds: seq<Delivery>) returns (i: nat)
    requires v.quorum <= v.Total() && NoQuorumYet(v, ds) && Run(v, ds).echoed
    ensures i < |ds| && Echoes(v, ds, i)
  {
    var n := |ds| - 1;
    NoQuorumBefore(v, ds, n);
    LastDelivery(v, ds);
    if Run(v, ds[..n]).echoed {
      i := EchoedWasAnswered(v, ds[..n]);
      AnswerOfPrefix(v, ds, n, i);
    } else {
      i := n;
    }
  }

  lemma {:induction false} SomeEcho(v: ValidatorVerifier, ds: seq<Delivery>) returns (i: nat)
    requires v.quorum <= v.Total() && NoQuorumYet(v, ds) && InEchoRange(v, ds)
    ensures i < |ds| && Echoes(v, ds, i)
  {
    NoneYet(v);
    var n := |ds| - 1;
    NoQuorumBefore(v, ds, n);
    if TimedOutIn(ds) == TimedOutIn(ds[..n]) {
      i := SomeEcho(v, ds[..n]);
      AnswerOfPrefix(v, ds, n, i);
    } else if Run(v, ds[..n]).echoed {
      i := EchoedWasAnswered(v, ds[..n]);
      AnswerOfPrefix(v, ds, n, i);
    } else {
      LastDelivery(v, ds);
      i := n;
    }
  }

  /** The echo fires exactly when at some moment the authors who delivered a timeout
      weigh at least T - q + 1 and less than q. */
  lemma EchoedIff(v: ValidatorVerifier, ds: seq<Delivery>)
    requires v.quorum <= v.Total() && NoQuorumYet(v, ds)
    ensures (exists i :: 0 <= i < |ds| && Echoes(v, ds, i))
       <==> exists n :: 0 <= n <= |ds| && InEchoRange(v, ds[..n])
  {
    if i :| 0 <= i < |ds| && Echoes(v, ds, i) {
      NoQuorumBefore(v, ds, i + 1);
      AnswerOfPrefix(v, ds, i + 1, i);
      LastDelivery(v, ds[..i + 1]);
      assert InEchoRange(v, ds[..i + 1]);
    }
    if n :| 0 <= n <= |ds| && InEchoRange(v, ds[..n]) {
      NoQuorumBefore(v, ds, n);
      var i := SomeEcho(v, ds[..n]);
      AnswerOfPrefix(v, ds, n, i);
      assert Echoes(v, ds, i);
    }
  }
}
