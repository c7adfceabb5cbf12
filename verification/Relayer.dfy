/** The oracle relayer: what it remembers of each provider, when it polls, and what it
    hands to the proposer. */
module Relayer {
  import opened Wrappers

  type Uri = string

  datatype PollResult = PollResult(nonce: Option<nat>, maxBlock: nat, updated: bool, data: seq<string>)

  datatype ProviderState = ProviderState(
    fetchedNonce: Option<nat>, lastHadUpdate: bool, lastResult: Option<PollResult>)

  datatype RelayerError = PollFailed(why: string) | NoCachedResult

  type Tracker = map<Uri, ProviderState>

  // ---------------------------------------------------------------- decisions

  function StateOf(tracker: Tracker, uri: Uri): ProviderState {
    if uri in tracker then tracker[uri] else ProviderState(None, false, None)
  }

  predicate ShouldBlockPoll(state: ProviderState, onchain: Option<nat>) {
    state.fetchedNonce.Some? && onchain.Some? && state.lastHadUpdate && state.fetchedNonce.value > onchain.value
  }

  predicate AlreadyCommitted(observed: Option<nat>, onchain: Option<nat>) {
    observed.Some? && onchain.Some? && observed.value <= onchain.value
  }

  function Guard(result: PollResult, onchain: Option<nat>): PollResult {
    if result.updated && AlreadyCommitted(result.nonce, onchain) then result.(updated := false) else result
  }

  function Summary(result: PollResult): ProviderState {
    ProviderState(result.nonce, result.updated, Some(result))
  }

  /** Before the poll: the answer when the poll is blocked, None when it must be made. */
  function Begin(tracker: Tracker, uri: Uri, onchain: Option<nat>): Option<Result<PollResult, RelayerError>> {
    var state := StateOf(tracker, uri);
    if !ShouldBlockPoll(state, onchain) then None
    else if state.lastResult.Some? then Some(Ok(state.lastResult.value))
    else Some(Err(NoCachedResult))
  }

  /** After the poll: the result is remembered as polled, and answered guarded. */
  function Finish(tracker: Tracker, uri: Uri, onchain: Option<nat>, polled: Result<PollResult, string>)
    : (Tracker, Result<PollResult, RelayerError>)
  {
    match polled
    case Err(why) => (tracker, Err(PollFailed(why)))
    case Ok(result) => (tracker[uri := Summary(result)], Ok(Guard(result, onchain)))
  }

  class RelayerWrapper {
    var states: Tracker

    constructor ()
      ensures states == map[]
    {
      states := map[];
    }

    /** One call that no other call interrupts; `onchain` is the nonce read on chain, and
        `polled` what the provider answers if it is asked. */
    method GetLastState(uri: Uri, onchain: Option<nat>, polled: Result<PollResult, string>)
      returns (r: Result<PollResult, RelayerError>)
      modifies this
      ensures match Begin(old(states), uri, onchain)
              case Some(answer) => r == answer && states == old(states)
              case None => (states, r) == Finish(old(states), uri, onchain, polled)
    {
      var state := ProviderState(None, false, None);
      if uri in states { state := states[uri]; }
      var blocked := false;
      if state.fetchedNonce.Some? && onchain.Some? {
        blocked := state.lastHadUpdate && state.fetchedNonce.value > onchain.value;
      }
      if blocked {
        if state.lastResult.Some? { return Ok(state.lastResult.value); }
        return Err(NoCachedResult);
      }
      match polled {
        case Err(why) => return Err(PollFailed(why));
        case Ok(result) =>
          states := states[uri := ProviderState(result.nonce, result.updated, Some(result))];
          var updated := result.updated;
          if updated && AlreadyCommitted(result.nonce, onchain) { updated := false; }
          return Ok(result.(updated := updated));
      }
    }
  }

  // ---------------------------------------------------------------- interleaved calls

  /** A call that waits for its provider; the on-chain nonce was read when it began. */
  datatype Call = Call(uri: Uri, onchain: Option<nat>)

  datatype Event = Asked(call: Call) | Polled(k: nat, result: Result<PollResult, string>)

  datatype System = System(tracker: Tracker, waiting: seq<Call>)

  datatype Reply = Silent | Reply(call: Call, result: Result<PollResult, RelayerError>)

  function React(s: System, e: Event): (System, Reply) {
    match e
    case Asked(call) => (
      match Begin(s.tracker, call.uri, call.onchain)
      case Some(answer) => (s, Reply(call, answer))
      case None => (s.(waiting := s.waiting + [call]), Silent))
    case Polled(k, result) =>
      if k >= |s.waiting| then (s, Silent)
      else
        var call := s.waiting[k];
        var (tracker, answer) := Finish(s.tracker, call.uri, call.onchain, result);
        (System(tracker, s.waiting[..k] + s.waiting[k + 1..]), Reply(call, answer))
  }

  function Run(es: seq<Event>): System {
    if es == [] then System(map[], [])
    else React(Run(es[..|es| - 1]), es[|es| - 1]).0
  }

  /** What the relayer replies to the last event of a run. */
  function LastReply(es: seq<Event>): Reply
    requires es != []
  {
    React(Run(es[..|es| - 1]), es[|es| - 1]).1
  }

  // ---------------------------------------------------------------- properties of every run

  /** The most recent successful poll of a provider, read off the history of the run. */
  function LatestPoll(es: seq<Event>, uri: Uri): Option<PollResult> {
    if es == [] then None
    else
      var n := |es| - 1;
      if Completes(es, n, uri) then Some(es[n].result.value) else LatestPoll(es[..n], uri)
  }

  /** Event `i` completes a successful poll of the provider. */
  predicate Completes(es: seq<Event>, i: nat, uri: Uri)
    requires i < |es|
  {
    var waiting := Run(es[..i]).waiting;
    es[i].Polled? && es[i].k < |waiting| && waiting[es[i].k].uri == uri && es[i].result.Ok?
  }

  /** However calls interleave, the tracker is exactly the latest poll of each provider. */
  lemma {:induction false} TrackerIsLatestPoll(es: seq<Event>, uri: Uri)
    ensures uri in Run(es).tracker <==> LatestPoll(es, uri).Some?
    ensures uri in Run(es).tracker ==> Run(es).tracker[uri] == Summary(LatestPoll(es, uri).value)
  {
    if es != [] {
      TrackerIsLatestPoll(es[..|es| - 1], uri);
    }
  }

  /** Whether a call polls again is decided by the history alone: it re-sends the latest
      poll exactly when that was an update whose nonce the chain has not reached. */
  lemma ResendIff(es: seq<Event>, call: Call)
    ensures var latest := LatestPoll(es, call.uri);
            var resend := latest.Some? && latest.value.updated && latest.value.nonce.Some?
                          && call.onchain.Some? && latest.value.nonce.value > call.onchain.value;
            LastReply(es + [Asked(call)]) ==
              if resend then Reply(call, Ok(latest.value)) else Silent
  {
    TrackerIsLatestPoll(es, call.uri);
    assert (es + [Asked(call)])[..|es|] == es;
  }

  /** No reply marked as an update carries a nonce the chain was seen to have. */
  lemma NeverSurfacesCommitted(es: seq<Event>)
    requires es != [] && LastReply(es).Reply? && LastReply(es).result.Ok?
    ensures var r := LastReply(es).result.value;
            var onchain := LastReply(es).call.onchain;
            r.updated && r.nonce.Some? && onchain.Some? ==> r.nonce.value > onchain.value
  {
    var n := |es| - 1;
    if es[n].Asked? {
      ResendIff(es[..n], es[n].call);
      assert es[..n] + [es[n]] == es;
    }
  }

  /** A polled observation is replied to untouched unless it is a committed update, and
      then only its mark changes; a failed poll is reported. */
  lemma NeverSuppressesNew(es: seq<Event>, k: nat, polled: Result<PollResult, string>)
    requires k < |Run(es).waiting|
    ensures var call := Run(es).waiting[k];
            var reply := LastReply(es + [Polled(k, polled)]);
            && reply.Reply? && reply.call == call
            && match polled
               case Err(why) => reply.result == Err(PollFailed(why))
               case Ok(p) =>
                 && reply.result.Ok?
                 && (reply.result.value == p <==>
                       !(p.updated && p.nonce.Some? && call.onchain.Some? && p.nonce.value <= call.onchain.value))
                 && reply.result.value.(updated := p.updated) == p
  {
    assert (es + [Polled(k, polled)])[..|es|] == es;
  }

  lemma {:induction false} LatestStays(es: seq<Event>, i: nat, uri: Uri)
    requires i < |es| && Completes(es, i, uri)
    requires forall m :: i < m < |es| ==> !Completes(es, m, uri)
    ensures LatestPoll(es, uri) == Some(es[i].result.value)
    decreases |es|
  {
    var n := |es| - 1;
    if i < n {
      forall m | 0 <= m < n
        ensures Completes(es[..n], m, uri) <==> Completes(es, m, uri)
      {
        assert es[..n][..m] == es[..m];
      }
      LatestStays(es[..n], i, uri);
    }
  }

  /** An observed update is never lost: until a later poll of its provider completes, it
      is sent again, as polled, to every caller that still reads a lower nonce on chain,
      and a caller that reads its nonce or a higher one polls again. This holds even if
      the reply to the poll itself had its mark removed. */
  lemma UpdatePersists(es: seq<Event>, i: nat, call: Call)
    requires i < |es| && Completes(es, i, call.uri)
    requires forall m :: i < m < |es| ==> !Completes(es, m, call.uri)
    requires es[i].result.value.updated && es[i].result.value.nonce.Some? && call.onchain.Some?
    ensures LastReply(es + [Asked(call)]) ==
      if es[i].result.value.nonce.value > call.onchain.value then Reply(call, Ok(es[i].result.value)) else Silent
  {
    LatestStays(es, i, call.uri);
    ResendIff(es, call);
  }

  /** The branch that finds nothing cached is never taken. */
  lemma CacheNeverMissing(es: seq<Event>)
    requires es != []
    ensures LastReply(es).Reply? ==> LastReply(es).result != Err(NoCachedResult)
  {
    var n := |es| - 1;
    if es[n].Asked? {
      ResendIff(es[..n], es[n].call);
      assert es[..n] + [es[n]] == es;
    }
  }
}
