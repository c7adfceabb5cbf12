/** Weighted validator sets and the arithmetic of quorums.

    A `ValidatorVerifier` holds one entry per validator. The power of a set of
    authors is the sum of the entries whose author is in the set. */
module Quorum {

  type Author = nat

  datatype Validator = Validator(author: Author, power: nat)

  datatype ValidatorVerifier = ValidatorVerifier(validators: seq<Validator>, quorum: nat) {

    function Power(s: set<Author>): nat {
      PowerOf(validators, s)
    }

    function Authors(): set<Author> {
      set i | 0 <= i < |validators| :: validators[i].author
    }

    function Total(): nat {
      PowerOf(validators, Authors())
    }

    /** The threshold `ValidatorVerifier` is built with: more than two thirds. */
    predicate Standard() {
      quorum == Total() * 2 / 3 + 1 && Total() > 0
    }
  }

  function PowerOf(vs: seq<Validator>, s: set<Author>): nat {
    if vs == [] then 0
    else (if vs[0].author in s then vs[0].power else 0) + PowerOf(vs[1..], s)
  }

  datatype PowerCheck = Enough(power: nat) | TooLittle(power: nat) | UnknownAuthor

  /** `check_voting_power` with the super-majority flag. */
  function CheckVotingPower(v: ValidatorVerifier, keys: set<Author>): PowerCheck {
    if !(keys <= v.Authors()) then UnknownAuthor
    else if v.Power(keys) >= v.quorum then Enough(v.Power(keys))
    else TooLittle(v.Power(keys))
  }

  lemma {:induction false} PowerMonotone(vs: seq<Validator>, a: set<Author>, b: set<Author>)
    requires a <= b
    ensures PowerOf(vs, a) <= PowerOf(vs, b)
  {
    if vs != [] { PowerMonotone(vs[1..], a, b); }
  }

  lemma {:induction false} NoPower(vs: seq<Validator>)
    ensures PowerOf(vs, {}) == 0
  {
    if vs != [] { NoPower(vs[1..]); }
  }

  lemma {:induction false} PowerInclusionExclusion(vs: seq<Validator>, a: set<Author>, b: set<Author>)
    ensures PowerOf(vs, a) + PowerOf(vs, b) == PowerOf(vs, a + b) + PowerOf(vs, a * b)
  {
    if vs != [] { PowerInclusionExclusion(vs[1..], a, b); }
  }

  predicate DistinctAuthors(vs: seq<Validator>) {
    forall i, j :: 0 <= i < j < |vs| ==> vs[i].author != vs[j].author
  }

  /** Power is the sum of the weights: one more validator adds its own. */
  lemma {:induction false} PowerAddsUp(vs: seq<Validator>, s: set<Author>, i: nat)
    requires DistinctAuthors(vs) && i < |vs| && vs[i].author !in s
    ensures PowerOf(vs, s + {vs[i].author}) == PowerOf(vs, s) + vs[i].power
  {
    if i == 0 {
      PowerElsewhere(vs[1..], s, vs[0].author);
    } else {
      PowerAddsUp(vs[1..], s, i - 1);
      assert vs[1..][i - 1] == vs[i];
    }
  }

  lemma {:induction false} PowerElsewhere(vs: seq<Validator>, s: set<Author>, a: Author)
    requires forall i :: 0 <= i < |vs| ==> vs[i].author != a
    ensures PowerOf(vs, s + {a}) == PowerOf(vs, s)
  {
    if vs != [] { PowerElsewhere(vs[1..], s, a); }
  }

  /** The three outcomes of the quorum check. */
  lemma PowerChecked(v: ValidatorVerifier, keys: set<Author>)
    ensures var r := CheckVotingPower(v, keys);
      && (r.UnknownAuthor? <==> exists a :: a in keys && a !in v.Authors())
      && (r.Enough? <==> keys <= v.Authors() && v.Power(keys) >= v.quorum)
      && (!r.UnknownAuthor? ==> r.power == v.Power(keys))
  {
  }

  /** Only the known authors of a set carry power. */
  lemma {:induction false} PowerOfKnown(vs: seq<Validator>, a: set<Author>, known: set<Author>)
    requires forall i :: 0 <= i < |vs| ==> vs[i].author in known
    ensures PowerOf(vs, a) == PowerOf(vs, a * known)
    ensures PowerOf(vs, a) <= PowerOf(vs, known)
  {
    if vs != [] { PowerOfKnown(vs[1..], a, known); }
  }

  lemma PowerAtMostTotal(v: ValidatorVerifier, a: set<Author>)
    ensures v.Power(a) <= v.Total()
    ensures v.Power(a * v.Authors()) == v.Power(a)
  {
    PowerOfKnown(v.validators, a, v.Authors());
  }

  /** Two sets whose powers add up to more than the total share power. */
  lemma Overlap(v: ValidatorVerifier, a: set<Author>, b: set<Author>)
    ensures v.Power(a * b) >= v.Power(a) + v.Power(b) - v.Total()
  {
    PowerInclusionExclusion(v.validators, a, b);
    PowerAtMostTotal(v, a + b);
  }

  /** A set with more power than the faulty validators has an honest member. */
  lemma HonestMember(v: ValidatorVerifier, a: set<Author>, honest: set<Author>) returns (h: Author)
    requires v.Power(a) > v.Power(v.Authors() - honest)
    ensures h in a && h in honest && h in v.Authors()
  {
    if a * v.Authors() <= v.Authors() - honest {
      PowerMonotone(v.validators, a * v.Authors(), v.Authors() - honest);
      PowerAtMostTotal(v, a);
      assert false;
    }
    h :| h in a * v.Authors() && h !in v.Authors() - honest;
  }

  /** What the consensus results assume of faults: they weigh at most `T - q`. */
  predicate FaultBound(v: ValidatorVerifier, honest: set<Author>) {
    && v.quorum <= v.Total()
    && 3 * v.quorum > 2 * v.Total()
    && v.Power(v.Authors() - honest) <= v.Total() - v.quorum
  }

  lemma StandardMeetsFaultBound(v: ValidatorVerifier, honest: set<Author>)
    requires v.Standard()
    ensures FaultBound(v, honest) <==> 3 * v.Power(v.Authors() - honest) < v.Total()
  {
  }

  lemma QuorumHasHonest(v: ValidatorVerifier, a: set<Author>, honest: set<Author>) returns (h: Author)
    requires FaultBound(v, honest) && v.Power(a) >= v.quorum
    ensures h in a && h in honest && h in v.Authors()
  {
    h := HonestMember(v, a, honest);
  }

  /** Weighted quorum intersection: two quorums share an honest validator. */
  lemma QuorumsShareHonest(v: ValidatorVerifier, a: set<Author>, b: set<Author>, honest: set<Author>)
    returns (h: Author)
    requires FaultBound(v, honest) && v.Power(a) >= v.quorum && v.Power(b) >= v.quorum
    ensures h in a && h in b && h in honest && h in v.Authors()
  {
    Overlap(v, a, b);
    h := HonestMember(v, a * b, honest);
  }
}
