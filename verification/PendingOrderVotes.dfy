/** Order votes across rounds at one node, and the round manager's use of them. */
module PendingOrderVotes {
  import opened Wrappers
  import opened Quorum
  import opened ConsensusTypes

  datatype OrderReception =
    | OrderVoteAdded(power: nat)
    | NewLedgerInfoWithSignatures(cert: OrderedCert)
    | OrderErrorAddingVote
    | OrderErrorAggregatingSignature
    | UnknownOrderAuthor(author: Author)

  datatype OrderStatus =
    | EnoughVotes(signers: set<Author>)
    | NotEnoughVotes(signers: set<Author>)

  type OrderTable = map<LedgerInfo, OrderStatus>

  predicate HasEnough(t: OrderTable, li: LedgerInfo) {
    li in t && t[li].EnoughVotes?
  }

  function PartialSigners(t: OrderTable, li: LedgerInfo): set<Author> {
    if li in t then t[li].signers else {}
  }

  function InsertOrder(v: ValidatorVerifier, t: OrderTable, ov: OrderVote, aggregates: bool)
    : (OrderTable, OrderReception)
  {
    var before := PartialSigners(t, ov.li);
    if HasEnough(t, ov.li) then (t, NewLedgerInfoWithSignatures(OrderedCert(ov.li, before)))
    else if ov.author !in v.Authors() then
      (t[ov.li := NotEnoughVotes(before)], UnknownOrderAuthor(ov.author))
    else
      var signers := before + {ov.author};
      match CheckVotingPower(v, signers)
      case Enough(_) =>
        if aggregates
        then (t[ov.li := EnoughVotes(signers)], NewLedgerInfoWithSignatures(OrderedCert(ov.li, signers)))
        else (t[ov.li := NotEnoughVotes(signers)], OrderErrorAggregatingSignature)
      case TooLittle(power) => (t[ov.li := NotEnoughVotes(signers)], OrderVoteAdded(power))
      case UnknownAuthor => (t[ov.li := NotEnoughVotes(signers)], OrderErrorAddingVote)
  }

  function Collected(t: OrderTable, highestOrderedRound: Round): OrderTable {
    map li | li in t && li.CommitRound() > highestOrderedRound :: t[li]
  }

  class PendingOrderVotes {
    var liDigestToVotes: OrderTable

    constructor ()
      ensures liDigestToVotes == map[]
    {
      liDigestToVotes := map[];
    }

    method InsertOrderVote(v: ValidatorVerifier, ov: OrderVote, aggregates: bool) returns (r: OrderReception)
      modifies this
      ensures (liDigestToVotes, r) == InsertOrder(v, old(liDigestToVotes), ov, aggregates)
    {
      if ov.li !in liDigestToVotes {
        liDigestToVotes := liDigestToVotes[ov.li := NotEnoughVotes({})];
      }
      match liDigestToVotes[ov.li] {
        case EnoughVotes(signers) =>
          r := NewLedgerInfoWithSignatures(OrderedCert(ov.li, signers));
        case NotEnoughVotes(partial) =>
          assert liDigestToVotes == old(liDigestToVotes)[ov.li := NotEnoughVotes(partial)];
          if ov.author !in v.Authors() {
            return UnknownOrderAuthor(ov.author);
          }
          var signers := partial + {ov.author};
          liDigestToVotes := liDigestToVotes[ov.li := NotEnoughVotes(signers)];
          assert liDigestToVotes == old(liDigestToVotes)[ov.li := NotEnoughVotes(signers)];
          match CheckVotingPower(v, signers) {
            case Enough(power) =>
              assert power >= v.quorum;
              if aggregates {
                liDigestToVotes := liDigestToVotes[ov.li := EnoughVotes(signers)];
                assert liDigestToVotes == old(liDigestToVotes)[ov.li := EnoughVotes(signers)];
                r := NewLedgerInfoWithSignatures(OrderedCert(ov.li, signers));
              } else {
                r := OrderErrorAggregatingSignature;
              }
            case TooLittle(power) => r := OrderVoteAdded(power);
            case UnknownAuthor => r := OrderErrorAddingVote;
          }
      }
    }

    method GarbageCollect(highestOrderedRound: Round)
      modifies this
      ensures liDigestToVotes == Collected(old(liDigestToVotes), highestOrderedRound)
    {
      liDigestToVotes := map li | li in liDigestToVotes && li.CommitRound() > highestOrderedRound
        :: liDigestToVotes[li];
    }

    predicate HasEnoughOrderVotes(li: LedgerInfo)
      reads this
    {
      HasEnough(liDigestToVotes, li)
    }
  }

  // ---------------------------------------------------------------- round manager

  /** The part of the round manager that order votes touch. The block store only
      ever raises the highest ordered round. */
  datatype Manager = Manager(table: OrderTable, highestOrderedRound: Round)

  const NEW_MANAGER: Manager := Manager(map[], 0)

  datatype Event =
    | OrderVoteMsg(vote: OrderVote, aggregates: bool)
    | NewRound
    | HighestOrdered(round: Round)

  /** The new state and the ordered certificate handed to the block store, if any. */
  function Handle(v: ValidatorVerifier, m: Manager, e: Event): (Manager, Option<OrderedCert>) {
    match e
    case NewRound => (m.(table := Collected(m.table, m.highestOrderedRound)), None)
    case HighestOrdered(r) =>
      (if r > m.highestOrderedRound then m.(highestOrderedRound := r) else m, None)
    case OrderVoteMsg(ov, aggregates) =>
      if HasEnough(m.table, ov.li) || ov.li.CommitRound() <= m.highestOrderedRound then (m, None)
      else
        var (t, r) := InsertOrder(v, m.table, ov, aggregates);
        (m.(table := t), if r.NewLedgerInfoWithSignatures? then Some(r.cert) else None)
  }

  class RoundManager {
    const pendingOrderVotes: PendingOrderVotes
    var highestOrderedRound: Round

    function State(): Manager
      reads this, pendingOrderVotes
    {
      Manager(pendingOrderVotes.liDigestToVotes, highestOrderedRound)
    }

    constructor ()
      ensures State() == NEW_MANAGER && fresh(pendingOrderVotes)
    {
      pendingOrderVotes := new PendingOrderVotes();
      highestOrderedRound := 0;
    }

    method ProcessOrderVoteMsg(v: ValidatorVerifier, ov: OrderVote, aggregates: bool)
      returns (inserted: Option<OrderedCert>)
      modifies this, pendingOrderVotes
      ensures (State(), inserted) == Handle(v, old(State()), OrderVoteMsg(ov, aggregates))
    {
      inserted := None;
      if pendingOrderVotes.HasEnoughOrderVotes(ov.li) {
        return;
      }
      if ov.li.CommitRound() > highestOrderedRound {
        var r := pendingOrderVotes.InsertOrderVote(v, ov, aggregates);
        if r.NewLedgerInfoWithSignatures? {
          inserted := Some(r.cert);
        }
      }
    }

    method ProcessNewRoundEvent()
      modifies pendingOrderVotes
      ensures (State(), None) == Handle(ValidatorVerifier([], 0), old(State()), NewRound)
    {
      pendingOrderVotes.GarbageCollect(highestOrderedRound);
    }
  }

  // ---------------------------------------------------------------- runs

  function RunManager(v: ValidatorVerifier, es: seq<Event>): Manager {
    if es == [] then NEW_MANAGER
    else Handle(v, RunManager(v, es[..|es| - 1]), es[|es| - 1]).0
  }

  function Inserted(v: ValidatorVerifier, es: seq<Event>, i: nat): Option<OrderedCert>
    requires i < |es|
  {
    Handle(v, RunManager(v, es[..i]), es[i]).1
  }

  ghost predicate InsertedFor(v: ValidatorVerifier, es: seq<Event>, i: nat, li: LedgerInfo)
    requires i < |es|
  {
    Inserted(v, es, i).Some? && Inserted(v, es, i).value.li == li
  }

  ghost predicate EverInserted(v: ValidatorVerifier, es: seq<Event>, li: LedgerInfo) {
    exists i :: 0 <= i < |es| && InsertedFor(v, es, i, li)
  }

  lemma ManagerStep(v: ValidatorVerifier, es: seq<Event>, i: nat)
    requires i < |es|
    ensures RunManager(v, es[..i + 1]) == Handle(v, RunManager(v, es[..i]), es[i]).0
  {
    assert es[..i + 1][..i] == es[..i];
  }

  /** Finished: the table still remembers the certificate, or its round is history. */
  ghost predicate Finished(m: Manager, li: LedgerInfo) {
    HasEnough(m.table, li) || li.CommitRound() <= m.highestOrderedRound
  }

  lemma {:induction false} FinishedStays(v: ValidatorVerifier, es: seq<Event>, i: nat, j: nat, li: LedgerInfo)
    requires i <= j <= |es| && Finished(RunManager(v, es[..i]), li)
    ensures Finished(RunManager(v, es[..j]), li)
    decreases j
  {
    if i < j {
      FinishedStays(v, es, i, j - 1, li);
      ManagerStep(v, es, j - 1);
    }
  }

  /** A ledger info is handed to the block store at most once in a whole run, even
      though completed entries are forgotten. */
  lemma InsertedAtMostOnce(v: ValidatorVerifier, es: seq<Event>, i: nat, j: nat, li: LedgerInfo)
    requires i < j < |es| && InsertedFor(v, es, i, li)
    ensures !InsertedFor(v, es, j, li)
  {
    ManagerStep(v, es, i);
    FinishedStays(v, es, i + 1, j, li);
  }

  /** The distinct authors whose order votes for `li` were delivered. */
  ghost function OrderVoters(es: seq<Event>, li: LedgerInfo): set<Author> {
    set e | e in es && e.OrderVoteMsg? && e.vote.li == li :: e.vote.author
  }

  ghost predicate OrderVotesFromValidators(v: ValidatorVerifier, es: seq<Event>) {
    forall e :: e in es && e.OrderVoteMsg? ==> e.vote.author in v.Authors() && e.aggregates
  }

  /** While the round of `li` is still open its entry tells the whole story: the
      authors heard so far, and whether the certificate went out. */
  ghost predicate Open(v: ValidatorVerifier, es: seq<Event>, li: LedgerInfo) {
    var m := RunManager(v, es);
    && PartialSigners(m.table, li) <= OrderVoters(es, li) <= v.Authors()
    && (HasEnough(m.table, li) <==> EverInserted(v, es, li))
    && if HasEnough(m.table, li) then v.Power(PartialSigners(m.table, li)) >= v.quorum
       else PartialSigners(m.table, li) == OrderVoters(es, li) && v.Power(OrderVoters(es, li)) < v.quorum
  }

  lemma OneMoreOrderVoter(pre: seq<Event>, e: Event, li: LedgerInfo)
    ensures OrderVoters(pre + [e], li)
         == OrderVoters(pre, li) + (if e.OrderVoteMsg? && e.vote.li == li then {e.vote.author} else {})
  {
  }

  lemma {:induction false} StaysOpen(v: ValidatorVerifier, es: seq<Event>, li: LedgerInfo)
    requires 0 < v.quorum && OrderVotesFromValidators(v, es)
    requires li.CommitRound() > RunManager(v, es).highestOrderedRound
    ensures Open(v, es, li)
  {
    if es == [] {
      NoPower(v.validators);
    } else {
      var n := |es| - 1;
      var pre, e := es[..n], es[n];
      assert es == pre + [e];
      StaysOpen(v, pre, li);
      OneMoreOrderVoter(pre, e, li);
      InsertedPrefix(v, es, li);
    }
  }

  lemma InsertedPrefix(v: ValidatorVerifier, es: seq<Event>, li: LedgerInfo)
    requires es != []
    ensures EverInserted(v, es, li)
       <==> EverInserted(v, es[..|es| - 1], li) || InsertedFor(v, es, |es| - 1, li)
  {
    var n := |es| - 1;
    forall i | 0 <= i < n
      ensures InsertedFor(v, es, i, li) <==> InsertedFor(v, es[..n], i, li)
    {
      assert es[..n][..i] == es[..i];
    }
    if EverInserted(v, es[..n], li) {
      var i :| 0 <= i < n && InsertedFor(v, es[..n], i, li);
      assert InsertedFor(v, es, i, li);
    }
  }

  /** While a round is open, its certificate has gone out exactly when the distinct
      voters heard from weigh a quorum. */
  lemma InsertedIffQuorum(v: ValidatorVerifier, es: seq<Event>, li: LedgerInfo)
    requires 0 < v.quorum && OrderVotesFromValidators(v, es)
    requires li.CommitRound() > RunManager(v, es).highestOrderedRound
    ensures EverInserted(v, es, li) <==> v.Power(OrderVoters(es, li)) >= v.quorum
  {
    StaysOpen(v, es, li);
    PowerMonotone(v.validators, PartialSigners(RunManager(v, es).table, li), OrderVoters(es, li));
  }

  /** A new round forgets exactly the entries at or below the highest ordered round. */
  lemma GarbageIsGone(v: ValidatorVerifier, es: seq<Event>, li: LedgerInfo)
    ensures var before, after := RunManager(v, es), RunManager(v, es + [NewRound]);
      && after.highestOrderedRound == before.highestOrderedRound
      && (li in after.table <==> li in before.table && li.CommitRound() > before.highestOrderedRound)
      && (li in after.table ==> after.table[li] == before.table[li])
  {
    assert (es + [NewRound])[..|es|] == es;
  }

  /** Every answer to an order vote, by the authors recorded before it: a finished entry
      returns its certificate, an unknown author is refused and not recorded, and
      otherwise the power with the new author decides. */
  lemma OrderAnswers(v: ValidatorVerifier, t: OrderTable, ov: OrderVote, aggregates: bool)
    requires PartialSigners(t, ov.li) <= v.Authors()
    ensures var (t', r) := InsertOrder(v, t, ov, aggregates);
      var open, known := !HasEnough(t, ov.li), ov.author in v.Authors();
      var signers := PartialSigners(t, ov.li) + {ov.author};
      && (!open ==> t' == t && r == NewLedgerInfoWithSignatures(OrderedCert(ov.li, t[ov.li].signers)))
      && (open && !known ==>
            r == UnknownOrderAuthor(ov.author) && PartialSigners(t', ov.li) == PartialSigners(t, ov.li))
      && (open && known ==>
            && PartialSigners(t', ov.li) == signers
            && (HasEnough(t', ov.li) <==> v.Power(signers) >= v.quorum && aggregates)
            && (r == NewLedgerInfoWithSignatures(OrderedCert(ov.li, signers)) <==> HasEnough(t', ov.li))
            && (r == OrderErrorAggregatingSignature <==> v.Power(signers) >= v.quorum && !aggregates)
            && (r == OrderVoteAdded(v.Power(signers)) <==> v.Power(signers) < v.quorum))
      && (forall li :: li != ov.li ==> (li in t' <==> li in t) && (li in t ==> t'[li] == t[li]))
  {
  }
}
