/** Fetching the batches of a block: requested ahead of time, awaited when the block
    is executed, requested again after a failure, and cached after a success. */
module PayloadManager {
  import opened Wrappers

  type Digest = nat
  type Txn = nat

  datatype BatchInfo = BatchInfo(digest: Digest, expiration: nat)

  datatype FetchError = NotInitialized | DataNotFound(digest: Digest) | BatchError(code: nat)

  /** How one awaited batch turns out. A batch that arrives has the content its
      digest names. */
  datatype Outcome = Arrives | SenderDropped | Fails(code: nat)

  datatype DataStatus = Requested(receivers: seq<Digest>) | Cached(data: seq<Txn>)

  /** What a block asks for: its batches, its timestamp, and the batch contents. */
  datatype Payload = Payload(batches: seq<BatchInfo>, timestamp: nat, content: Digest -> seq<Txn>)

  // ---------------------------------------------------------------- reference

  /** The batches still alive at the block's timestamp, in order. */
  function Unexpired(batches: seq<BatchInfo>, timestamp: nat): seq<Digest> {
    if batches == [] then []
    else
      var n := |batches| - 1;
      Unexpired(batches[..n], timestamp) +
      (if timestamp <= batches[n].expiration then [batches[n].digest] else [])
  }

  function Concat(content: Digest -> seq<Txn>, digests: seq<Digest>): seq<Txn> {
    if digests == [] then []
    else Concat(content, digests[..|digests| - 1]) + content(digests[|digests| - 1])
  }

  /** One fetch in which nothing goes wrong. */
  function PerfectFetch(p: Payload): seq<Txn> {
    Concat(p.content, Unexpired(p.batches, p.timestamp))
  }

  // ---------------------------------------------------------------- awaiting

  /** The first receiver at or after `i` that does not deliver. */
  function FirstFailure(receivers: seq<Digest>, outcomes: nat -> Outcome, i: nat): Option<FetchError>
    requires i <= |receivers|
    decreases |receivers| - i
  {
    if i == |receivers| then None
    else match outcomes(i)
      case Arrives => FirstFailure(receivers, outcomes, i + 1)
      case SenderDropped => Some(DataNotFound(receivers[i]))
      case Fails(code) => Some(BatchError(code))
  }

  function Gather(p: Payload, receivers: seq<Digest>, outcomes: nat -> Outcome): Result<seq<Txn>, FetchError> {
    match FirstFailure(receivers, outcomes, 0)
    case Some(e) => Err(e)
    case None => Ok(Concat(p.content, receivers))
  }

  /** The status left behind: everything is asked for again, or the data is kept. */
  function StatusAfter(p: Payload, r: Result<seq<Txn>, FetchError>): DataStatus {
    if r.Ok? then Cached(r.value) else Requested(Unexpired(p.batches, p.timestamp))
  }

  method RequestTransactions(batches: seq<BatchInfo>, timestamp: nat) returns (receivers: seq<Digest>)
    ensures receivers == Unexpired(batches, timestamp)
  {
    receivers := [];
    for i := 0 to |batches|
      invariant receivers == Unexpired(batches[..i], timestamp)
    {
      assert batches[..i + 1][..i] == batches[..i];
      if timestamp <= batches[i].expiration {
        receivers := receivers + [batches[i].digest];
      }
    }
    assert batches[..|batches|] == batches;
  }

  class BatchPointer {
    const payload: Payload
    var status: Option<DataStatus>

    constructor (payload: Payload)
      ensures this.payload == payload && status == None
    {
      this.payload := payload;
      status := None;
    }

    /** Looks at the cell and stores into it under two separate locks. `meanwhile` is
        what other callers leave in the cell between the two. */
    method Prefetch(meanwhile: Option<DataStatus>)
      modifies this
      ensures status == if old(status).Some? then old(status)
                        else Some(Requested(Unexpired(payload.batches, payload.timestamp)))
    {
      if status.Some? {
        return;
      }
      var receivers := RequestTransactions(payload.batches, payload.timestamp);
      status := meanwhile;
      status := Some(Requested(receivers));
    }

    method ProcessPayload(outcomes: nat -> Outcome) returns (r: Result<seq<Txn>, FetchError>)
      modifies this
      ensures match old(status)
        case None => r == Err(NotInitialized) && status == None
        case Some(Cached(data)) => r == Ok(data) && status == Some(Cached(data))
        case Some(Requested(receivers)) =>
          r == Gather(payload, receivers, outcomes) && status == Some(StatusAfter(payload, r))
    {
      var taken := status;
      status := None;
      match taken {
        case None =>
          return Err(NotInitialized);
        case Some(Cached(data)) =>
          status := Some(Cached(data));
          return Ok(data);
        case Some(Requested(receivers)) =>
          var all: seq<Txn> := [];
          for i := 0 to |receivers|
            invariant all == Concat(payload.content, receivers[..i])
            invariant FirstFailure(receivers, outcomes, 0) == FirstFailure(receivers, outcomes, i)
          {
            match outcomes(i) {
              case Arrives =>
                assert receivers[..i + 1][..i] == receivers[..i];
                all := all + payload.content(receivers[i]);
              case SenderDropped =>
                var again := RequestTransactions(payload.batches, payload.timestamp);
                status := Some(Requested(again));
                return Err(DataNotFound(receivers[i]));
              case Fails(code) =>
                var again := RequestTransactions(payload.batches, payload.timestamp);
                status := Some(Requested(again));
                return Err(BatchError(code));
            }
          }
          assert receivers[..|receivers|] == receivers;
          status := Some(Cached(all));
          return Ok(all);
      }
    }
  }

  // ---------------------------------------------------------------- interleavings

  /** The status is out of the cell while a caller waits, so other callers run
      against an empty cell. Each waiting caller holds what it took, and each
      prefetcher that saw an empty cell will store whatever it then finds there. */
  datatype State = State(status: Option<DataStatus>, waiting: seq<DataStatus>, prefetching: nat)

  datatype Move =
    | CheckEmpty
    | StoreRequest
    | TakeStatus
    | Finish(caller: nat, outcomes: nat -> Outcome)

  function Without<T>(s: seq<T>, i: nat): seq<T>
    requires i < |s|
  {
    s[..i] + s[i + 1..]
  }

  /** One move and the answer it gives to a caller, if any. */
  function Move1(p: Payload, s: State, m: Move): (State, Option<Result<seq<Txn>, FetchError>>) {
    match m
    case CheckEmpty =>
      (if s.status.Some? then s else s.(prefetching := s.prefetching + 1), None)
    case StoreRequest =>
      (if s.prefetching == 0 then s
       else s.(status := Some(Requested(Unexpired(p.batches, p.timestamp))), prefetching := s.prefetching - 1), None)
    case TakeStatus =>
      if s.status.None? then (s, Some(Err(NotInitialized)))
      else (s.(status := None, waiting := s.waiting + [s.status.value]), None)
    case Finish(i, outcomes) =>
      if i >= |s.waiting| then (s, None)
      else
        var r := match s.waiting[i]
          case Cached(data) => Ok(data)
          case Requested(receivers) => Gather(p, receivers, outcomes);
        (s.(status := Some(StatusAfter(p, r)), waiting := Without(s.waiting, i)), Some(r))
  }

  function Moves(p: Payload, ms: seq<Move>): State {
    if ms == [] then State(None, [], 0) else Move1(p, Moves(p, ms[..|ms| - 1]), ms[|ms| - 1]).0
  }

  function AnswerAt(p: Payload, ms: seq<Move>, i: nat): Option<Result<seq<Txn>, FetchError>>
    requires i < |ms|
  {
    Move1(p, Moves(p, ms[..i]), ms[i]).1
  }

  /** Either the whole unexpired list is on request or its concatenation is cached. */
  predicate OnTrack(p: Payload, d: DataStatus) {
    d == Requested(Unexpired(p.batches, p.timestamp)) || d == Cached(PerfectFetch(p))
  }

  predicate StateOnTrack(p: Payload, s: State) {
    (s.status.Some? ==> OnTrack(p, s.status.value)) && forall i :: 0 <= i < |s.waiting| ==> OnTrack(p, s.waiting[i])
  }

  lemma {:induction false} AlwaysOnTrack(p: Payload, ms: seq<Move>)
    ensures StateOnTrack(p, Moves(p, ms))
  {
    if ms != [] {
      AlwaysOnTrack(p, ms[..|ms| - 1]);
      MoveKeepsTrack(p, Moves(p, ms[..|ms| - 1]), ms[|ms| - 1]);
    }
  }

  lemma MoveKeepsTrack(p: Payload, s: State, m: Move)
    requires StateOnTrack(p, s)
    ensures StateOnTrack(p, Move1(p, s, m).0)
  {
    var s' := Move1(p, s, m).0;
    if m.Finish? && m.caller < |s.waiting| {
      assert OnTrack(p, s.waiting[m.caller]);
    }
  }

  /** Whatever fails, is retried or overlaps, a caller that gets data gets exactly
      what one perfect fetch returns. */
  lemma EverySuccessIsPerfect(p: Payload, ms: seq<Move>, i: nat)
    requires i < |ms| && AnswerAt(p, ms, i).Some? && AnswerAt(p, ms, i).value.Ok?
    ensures AnswerAt(p, ms, i).value == Ok(PerfectFetch(p))
  {
    AlwaysOnTrack(p, ms[..i]);
  }

  /** When every batch delivers, the caller succeeds and leaves the data cached. */
  lemma DeliveryMeansSuccess(p: Payload, ms: seq<Move>, i: nat)
    requires i < |ms| && ms[i].Finish? && AnswerAt(p, ms, i).Some?
    requires forall k :: ms[i].outcomes(k) == Arrives
    ensures AnswerAt(p, ms, i).value == Ok(PerfectFetch(p))
    ensures Move1(p, Moves(p, ms[..i]), ms[i]).0.status == Some(Cached(PerfectFetch(p)))
  {
    AlwaysOnTrack(p, ms[..i]);
    AllArrive(Unexpired(p.batches, p.timestamp), ms[i].outcomes, 0);
  }

  lemma {:induction false} AllArrive(receivers: seq<Digest>, outcomes: nat -> Outcome, i: nat)
    requires i <= |receivers| && forall k :: outcomes(k) == Arrives
    ensures FirstFailure(receivers, outcomes, i) == None
    decreases |receivers| - i
  {
    if i < |receivers| { AllArrive(receivers, outcomes, i + 1); }
  }

  // ---------------------------------------------------------------- what a success holds

  /** Where the content of batch `i` starts: after the contents of the earlier batches
      that have not expired at the block's timestamp. */
  function StartOf(p: Payload, i: nat): nat
    requires i <= |p.batches|
  {
    if i == 0 then 0
    else
      var b := p.batches[i - 1];
      StartOf(p, i - 1) + (if p.timestamp <= b.expiration then |p.content(b.digest)| else 0)
  }

  function FetchOf(p: Payload, n: nat): seq<Txn>
    requires n <= |p.batches|
  {
    Concat(p.content, Unexpired(p.batches[..n], p.timestamp))
  }

  lemma FetchStep(p: Payload, n: nat)
    requires n < |p.batches|
    ensures FetchOf(p, n + 1) == FetchOf(p, n) +
      if p.timestamp <= p.batches[n].expiration then p.content(p.batches[n].digest) else []
  {
    assert p.batches[..n + 1][..n] == p.batches[..n];
    var digests := Unexpired(p.batches[..n], p.timestamp);
    assert digests + [] == digests && FetchOf(p, n) + [] == FetchOf(p, n);
    assert (digests + [p.batches[n].digest])[..|digests|] == digests;
  }

  lemma {:induction false} FetchSlices(p: Payload, n: nat, i: nat)
    requires i <= n <= |p.batches|
    ensures |FetchOf(p, n)| == StartOf(p, n) && StartOf(p, i) <= StartOf(p, n)
    ensures i < n && p.timestamp <= p.batches[i].expiration ==>
      var next := StartOf(p, i) + |p.content(p.batches[i].digest)|;
      next <= |FetchOf(p, n)| && FetchOf(p, n)[StartOf(p, i)..next] == p.content(p.batches[i].digest)
    decreases n
  {
    if n > 0 {
      FetchStep(p, n - 1);
      FetchSlices(p, n - 1, if i < n then i else n - 1);
    }
  }

  /** Every success of every interleaving holds, for each batch alive at the timestamp,
      its content right after the contents of the earlier ones, and nothing else. */
  lemma SuccessInOrder(p: Payload, ms: seq<Move>, k: nat, i: nat)
    requires k < |ms| && AnswerAt(p, ms, k).Some? && AnswerAt(p, ms, k).value.Ok?
    requires i < |p.batches| && p.timestamp <= p.batches[i].expiration
    ensures var data, next := AnswerAt(p, ms, k).value.value, StartOf(p, i) + |p.content(p.batches[i].digest)|;
      && |data| == StartOf(p, |p.batches|)
      && next <= |data| && data[StartOf(p, i)..next] == p.content(p.batches[i].digest)
  {
    EverySuccessIsPerfect(p, ms, k);
    assert p.batches[..|p.batches|] == p.batches;
    FetchSlices(p, |p.batches|, i);
  }

  /** A wait fails exactly when some awaited batch does not arrive, and reports the
      first such batch: its digest if the sender was dropped, its error otherwise. */
  lemma {:induction false} FailureIsFirst(receivers: seq<Digest>, outcomes: nat -> Outcome, i: nat)
    requires i <= |receivers|
    ensures var e := FirstFailure(receivers, outcomes, i);
      && (e == None <==> forall k :: i <= k < |receivers| ==> outcomes(k) == Arrives)
      && (forall k :: && i <= k < |receivers| && outcomes(k) != Arrives
                      && (forall m :: i <= m < k ==> outcomes(m) == Arrives)
            ==> e == Some(if outcomes(k) == SenderDropped then DataNotFound(receivers[k])
                          else BatchError(outcomes(k).code)))
    decreases |receivers| - i
  {
    if i < |receivers| { FailureIsFirst(receivers, outcomes, i + 1); }
  }
}
