/**
 Who may report a cancellation: sources, tokens, backend dispatch (src/backend.cpp), factory calls
 and decoding as the steps of one machine.
 */
module Authority {
  import opened Wrappers
  import opened Bytes
  import opened Model
  import opened Requests
  import opened Profiles
  import opened Control
  import opened Results
  import opened Evidence
  import opened ResultCodec

  /** Every source ever opened, as its tokens see it now, and every result ever returned. */
  datatype World = World(sources: seq<Token>, results: seq<ExecutionResult>)

  const EMPTY := World([], [])

  /**
   A factory call names the source whose token it passes, or none. `Execute` and
   `ExecuteControlled` are the two overloads of controlled backend dispatch of a request. The
   backend behind them is not trusted: it makes any factory call, over any request.
   */
  datatype Event =
    | Open(request: Request)
    | Signal(source: nat)
    | Call(call: FactoryCall, source: nat)
    | Execute(request: Request, call: FactoryCall, source: nat)
    | ExecuteControlled(request: Request, token: nat, call: FactoryCall, source: nat)
    | Load(encoding: Bytes, request: Request, backend: Profile)
  {
    predicate Calls() {
      Call? || Execute? || ExecuteControlled?
    }
  }

  /** The objects the event uses exist, and its arguments are values their classes can construct. */
  ghost predicate Possible(sha: Sha, w: World, e: Event) {
    && (e.Signal? ==> e.source < |w.sources|)
    && (e.Calls() ==> e.call.WellFormed(sha) && (e.call.HasToken() ==> e.source < |w.sources|))
    && (e.ExecuteControlled? ==> e.token < |w.sources|)
    && (!e.Signal? && !e.Call? ==> SealedRequest(sha, e.request))
    && (e.Load? ==> SealedProfile(sha, e.backend))
  }

  /** The call with the token as it is at this moment. */
  function WithToken(w: World, c: FactoryCall, source: nat): FactoryCall
    requires c.HasToken() ==> source < |w.sources|
  {
    if c.HasToken() then c.(token := w.sources[source]) else c
  }

  function Record(w: World, r: Result<ExecutionResult>): World {
    if r.Ok? then w.(results := w.results + [r.value]) else w
  }

  /** The two dispatch overloads, before they reach the backend. */
  function DispatchGuard(w: World, e: Event): Outcome
    requires e.ExecuteControlled? ==> e.token < |w.sources|
  {
    match e
    case Execute(q, _, _) => Need(!Enabled(q), InvalidControl)
    case ExecuteControlled(q, token, _, _) => RequireControl(q, w.sources[token])
    case _ => Pass
  }

  function Fire(sha: Sha, w: World, e: Event): World
    requires Possible(sha, w, e)
  {
    match e
    case Open(q) => if Enabled(q) then w.(sources := w.sources + [Token(q.identity, false)]) else w
    case Signal(i) => w.(sources := w.sources[i := w.sources[i].(requested := true)])
    case Load(b, q, p) =>
      var r := Decode(sha, b, q, p);
      // Rebuilding a cancellation opens a source of the request and signals it.
      var w := if r.Ok? && r.value.failure == Some(CancelledFailure)
               then w.(sources := w.sources + [Token(q.identity, true)]) else w;
      Record(w, r)
    case _ => if DispatchGuard(w, e).Fail? then w else Record(w, Make(sha, WithToken(w, e.call, e.source)))
  }

  /** What a factory call returns when it is passed the token of the source it names, as it is now. */
  function Answer(sha: Sha, w: World, c: FactoryCall, source: nat): Result<ExecutionResult>
    requires c.HasToken() ==> source < |w.sources|
  {
    Make(sha, if c.HasToken() then c.(token := w.sources[source]) else c)
  }

  /** The world with one more result, if there is one. */
  ghost predicate Returned(w: World, r: Result<ExecutionResult>, v: World) {
    v.sources == w.sources && v.results == if r.Ok? then w.results + [r.value] else w.results
  }

  /**
   Each step in full. Dispatch without a token reaches the backend exactly for requests with
   cancellation disabled, dispatch with a token exactly for enabled ones and their own token; the
   backend's answer is then the outcome, and otherwise nothing changes. A decoded result is returned.
   */
  lemma EveryStepReturns(sha: Sha, w: World, e: Event)
    requires Possible(sha, w, e)
    ensures var v := Fire(sha, w, e);
      && (e.Call? ==> Returned(w, Answer(sha, w, e.call, e.source), v))
      && (e.Execute? ==>
            if e.request.body.cancellation.Disabled? then Returned(w, Answer(sha, w, e.call, e.source), v) else v == w)
      && (e.ExecuteControlled? ==>
            if !e.request.body.cancellation.Disabled? && w.sources[e.token].request == e.request.identity
            then Returned(w, Answer(sha, w, e.call, e.source), v) else v == w)
      && (e.Load? ==>
            var r := Decode(sha, e.encoding, e.request, e.backend);
            v.results == if r.Ok? then w.results + [r.value] else w.results)
      && (e.Open? || e.Signal? ==> v.results == w.results)
  {
    hide Make, Decode, FactoryCall.WellFormed, SealedRequest, SealedProfile;
  }

  /** What a dispatch throws when it does not reach the backend. */
  lemma DispatchErrors(w: World, e: Event)
    requires e.ExecuteControlled? ==> e.token < |w.sources|
    ensures e.Execute? && !e.request.body.cancellation.Disabled? ==> DispatchGuard(w, e) == Fail(InvalidControl)
    ensures e.ExecuteControlled? && e.request.body.cancellation.Disabled? ==>
      DispatchGuard(w, e) == Fail(InvalidControl)
    ensures e.ExecuteControlled? && !e.request.body.cancellation.Disabled? ==>
      (DispatchGuard(w, e) == Fail(ControlMismatch) <==> w.sources[e.token].request != e.request.identity)
  {
  }

  ghost predicate Run(sha: Sha, w: World, events: seq<Event>)
    decreases |events|
  {
    events == [] || (Possible(sha, w, events[0]) && Run(sha, Fire(sha, w, events[0]), events[1..]))
  }

  function After(sha: Sha, w: World, events: seq<Event>): World
    requires Run(sha, w, events)
    decreases |events|
  {
    if events == [] then w else After(sha, Fire(sha, w, events[0]), events[1..])
  }

  ghost predicate Authorised(w: World, r: ExecutionResult) {
    && Enabled(r.request) && Supports(r.backend, r.request) && Cancellation in r.established
    && Token(r.request.identity, true) in w.sources
  }

  ghost predicate Inv(sha: Sha, w: World) {
    forall r | r in w.results :: Admissible(sha, r) && (r.failure == Some(CancelledFailure) ==> Authorised(w, r))
  }

  /** A signal is never taken back. */
  ghost predicate SignalsStay(w: World, v: World) {
    forall t | t in w.sources && t.requested :: t in v.sources
  }

  lemma FireKeepsSignals(sha: Sha, w: World, e: Event)
    requires Possible(sha, w, e)
    ensures SignalsStay(w, Fire(sha, w, e))
  {
    hide Decode, Make, FactoryCall.WellFormed, SealedRequest, SealedProfile, DispatchGuard;
    if e.Signal? {
      var v := Fire(sha, w, e);
      forall t | t in w.sources && t.requested
        ensures t in v.sources
      {
        var i :| 0 <= i < |w.sources| && w.sources[i] == t;
        assert v.sources[i] == t;
      }
    }
  }

  lemma RecordKeepsInv(sha: Sha, w: World, v: World, r: Result<ExecutionResult>)
    requires Inv(sha, w) && SignalsStay(w, v) && v.results == w.results
    requires r.Ok? ==> Admissible(sha, r.value)
    requires r.Ok? && r.value.failure == Some(CancelledFailure) ==> Authorised(v, r.value)
    ensures Inv(sha, Record(v, r))
  {
    hide Admissible;
    var after := Record(v, r);
    forall x | x in after.results && x.failure == Some(CancelledFailure)
      ensures Authorised(after, x)
    {
      assert x in w.results || (r.Ok? && x == r.value);
    }
  }

  lemma CallKeepsInv(sha: Sha, w: World, e: Event)
    requires Inv(sha, w) && Possible(sha, w, e) && e.Calls()
    ensures Inv(sha, Fire(sha, w, e))
  {
    hide Admissible, Make, Inv, FactoryCall.WellFormed, SealedRequest, SealedProfile, DispatchGuard, Authorised;
    var c := WithToken(w, e.call, e.source);
    var r := Make(sha, c);
    TokenIsNoMatter(sha, w, e.call, e.source);
    if r.Ok? {
      MadeIsAdmissible(sha, c);
      CallIsAuthorised(sha, w, e.call, e.source);
    }
    RecordKeepsInv(sha, w, w, r);
  }

  lemma TokenIsNoMatter(sha: Sha, w: World, c: FactoryCall, source: nat)
    requires c.WellFormed(sha) && (c.HasToken() ==> source < |w.sources|)
    ensures WithToken(w, c, source).WellFormed(sha)
    ensures WithToken(w, c, source).HasToken() == c.HasToken()
    ensures WithToken(w, c, source).request == c.request
    ensures c.HasToken() ==> WithToken(w, c, source).token == w.sources[source]
  {
    hide SealedRequest, SealedProfile, ValidCapture;
  }

  lemma CallIsAuthorised(sha: Sha, w: World, c: FactoryCall, source: nat)
    requires c.WellFormed(sha) && (c.HasToken() ==> source < |w.sources|)
    requires Make(sha, WithToken(w, c, source)).Ok?
    ensures var r := Make(sha, WithToken(w, c, source)).value;
      r.failure == Some(CancelledFailure) ==> Authorised(w, r)
  {
    hide Make, FactoryCall.WellFormed, Supports, WithToken, Admissible;
    var d := WithToken(w, c, source);
    TokenIsNoMatter(sha, w, c, source);
    CancelledIsAuthorised(sha, d);
    MadeIsAdmissible(sha, d);
  }

  lemma LoadKeepsInv(sha: Sha, w: World, e: Event)
    requires Inv(sha, w) && Possible(sha, w, e) && e.Load?
    ensures Inv(sha, Fire(sha, w, e))
  {
    hide Admissible, Decode, Encode, Inv, SealedRequest, SealedProfile;
    var r := Decode(sha, e.encoding, e.request, e.backend);
    var v := if r.Ok? && r.value.failure == Some(CancelledFailure)
             then w.(sources := w.sources + [Token(e.request.identity, true)]) else w;
    if r.Ok? {
      ExactImage(sha, e.encoding, e.request, e.backend, r.value);
      CancelledEvidence(sha, r.value);
    }
    RecordKeepsInv(sha, w, v, r);
  }

  lemma CancelledEvidence(sha: Sha, r: ExecutionResult)
    requires Admissible(sha, r)
    ensures r.failure == Some(CancelledFailure) ==>
      Enabled(r.request) && Supports(r.backend, r.request) && Cancellation in r.established
  {
    hide SealedRequest, SealedProfile, ValidCapture, LimitShape, Supports;
    RequiredOf(sha, r.request);
  }

  lemma FireKeepsInv(sha: Sha, w: World, e: Event)
    requires Inv(sha, w) && Possible(sha, w, e)
    ensures Inv(sha, Fire(sha, w, e))
  {
    hide Admissible, Decode, Make, FactoryCall.WellFormed, SealedRequest, SealedProfile;
    if e.Calls() {
      CallKeepsInv(sha, w, e);
    } else if e.Load? {
      LoadKeepsInv(sha, w, e);
    } else {
      FireKeepsSignals(sha, w, e);
    }
  }

  /**
   Whatever sequence of sources, signals, dispatches, factory calls and decodings happens: every
   result is consistent, and every cancelled one belongs to a cancellation-enabled request whose
   token had already been signalled, on a supporting backend, with cancellation established.
   */
  lemma {:induction false} CancellationIsAlwaysAuthorised(sha: Sha, w: World, events: seq<Event>)
    requires Inv(sha, w) && Run(sha, w, events)
    ensures Inv(sha, After(sha, w, events)) && SignalsStay(w, After(sha, w, events))
    decreases |events|
  {
    hide Admissible, Possible, Fire, Inv;
    if events != [] {
      FireKeepsInv(sha, w, events[0]);
      FireKeepsSignals(sha, w, events[0]);
      CancellationIsAlwaysAuthorised(sha, Fire(sha, w, events[0]), events[1..]);
    }
  }

  lemma FromTheStart(sha: Sha, events: seq<Event>)
    requires Run(sha, EMPTY, events)
    ensures Inv(sha, After(sha, EMPTY, events))
  {
    CancellationIsAlwaysAuthorised(sha, EMPTY, events);
  }

  /**
   Uncontrolled dispatch does nothing for an enabled request. For any other, no result about that
   request is a cancellation, neither one the backend makes now nor one it held before, so it has
   none to return; the outcome is the backend's own answer.
   */
  lemma UncontrolledNeverCancels(sha: Sha, w: World, q: Request, c: FactoryCall, source: nat)
    requires Inv(sha, w) && Possible(sha, w, Execute(q, c, source))
    ensures var v := Fire(sha, w, Execute(q, c, source));
      && v.sources == w.sources && w.results <= v.results && |v.results| <= |w.results| + 1
      && (if Enabled(q) then v == w else Returned(w, Answer(sha, w, c, source), v))
      && (!Enabled(q) ==> forall r | r in v.results && r.request == q :: r.failure != Some(CancelledFailure))
  {
    hide Make, FactoryCall.WellFormed, Admissible, SealedRequest, SealedProfile;
    FireKeepsInv(sha, w, Execute(q, c, source));
  }

  // ---------------------------------------------------------------- where authority comes from

  /** The events that open a source: for an enabled request, and when a decoding rebuilds a cancellation. */
  predicate OpensSource(sha: Sha, e: Event) {
    match e
    case Open(q) => Enabled(q)
    case Load(b, q, p) => Decode(sha, b, q, p).Ok? && Decode(sha, b, q, p).value.failure == Some(CancelledFailure)
    case _ => false
  }

  /** How many sources have been opened: sources are numbered in that order. */
  function Opens(sha: Sha, past: seq<Event>): nat {
    if past == [] then 0
    else Opens(sha, past[..|past| - 1]) + if OpensSource(sha, past[|past| - 1]) then 1 else 0
  }

  /** Step `i` opened source number `k`, for an enabled request of the given identity. */
  ghost predicate OpenedBy(sha: Sha, past: seq<Event>, i: nat, k: nat, request: Hex) {
    && i < |past| && OpensSource(sha, past[i]) && Opens(sha, past[..i]) == k
    && Enabled(past[i].request) && past[i].request.identity == request
  }

  /** Source number `k`, opened at step `i`, was signalled: by the decoding that opened it, or later by a caller. */
  ghost predicate SignalledBy(past: seq<Event>, i: nat, k: nat) {
    i < |past| && (past[i].Load? || exists j :: i < j < |past| && past[j] == Signal(k))
  }

  ghost predicate Traced(sha: Sha, past: seq<Event>, k: nat, t: Token) {
    exists i: nat :: OpenedBy(sha, past, i, k, t.request) && (t.requested ==> SignalledBy(past, i, k))
  }

  /** Every source goes back, under its own number, to the step that opened it and to its own signal. */
  ghost predicate AllTraced(sha: Sha, w: World, past: seq<Event>) {
    && |w.sources| == Opens(sha, past)
    && forall k | 0 <= k < |w.sources| :: Traced(sha, past, k, w.sources[k])
  }

  lemma OpenedStays(sha: Sha, past: seq<Event>, e: Event, i: nat, k: nat, request: Hex)
    requires OpenedBy(sha, past, i, k, request)
    ensures OpenedBy(sha, past + [e], i, k, request)
  {
    hide OpensSource, Opens;
    assert (past + [e])[..i] == past[..i] && (past + [e])[i] == past[i];
  }

  lemma TracedStays(sha: Sha, past: seq<Event>, e: Event, k: nat, t: Token)
    requires Traced(sha, past, k, t)
    ensures Traced(sha, past + [e], k, t)
  {
    hide OpenedBy;
    var i: nat :| OpenedBy(sha, past, i, k, t.request) && (t.requested ==> SignalledBy(past, i, k));
    OpenedStays(sha, past, e, i, k, t.request);
    if t.requested && !past[i].Load? {
      var j :| i < j < |past| && past[j] == Signal(k);
      assert (past + [e])[j] == Signal(k);
    }
  }

  lemma SignalIsTraced(sha: Sha, past: seq<Event>, k: nat, t: Token)
    requires Traced(sha, past, k, t)
    ensures Traced(sha, past + [Signal(k)], k, t.(requested := true))
  {
    hide OpensSource, Opens;
    var i: nat :| OpenedBy(sha, past, i, k, t.request);
    OpenedStays(sha, past, Signal(k), i, k, t.request);
    assert (past + [Signal(k)])[|past|] == Signal(k);
    assert SignalledBy(past + [Signal(k)], i, k);
  }

  lemma OpeningIsTraced(sha: Sha, past: seq<Event>, e: Event, t: Token)
    requires OpensSource(sha, e) && (t.requested ==> e.Load?)
    requires Enabled(e.request) && e.request.identity == t.request
    ensures Traced(sha, past + [e], Opens(sha, past), t)
  {
    hide OpensSource, Opens;
    var now := past + [e];
    assert now[|past|] == e && now[..|past|] == past;
    assert OpenedBy(sha, now, |past|, Opens(sha, past), t.request);
    assert t.requested ==> SignalledBy(now, |past|, Opens(sha, past));
  }

  lemma OpensStep(sha: Sha, past: seq<Event>, e: Event)
    ensures Opens(sha, past + [e]) == Opens(sha, past) + if OpensSource(sha, e) then 1 else 0
  {
    hide OpensSource;
    assert (past + [e])[..|past|] == past;
  }

  /** An event appends a source exactly when it opens one, and then it is the one it should be. */
  lemma FireOpens(sha: Sha, w: World, e: Event)
    requires Possible(sha, w, e)
    ensures var v := Fire(sha, w, e);
      && |v.sources| == |w.sources| + (if OpensSource(sha, e) then 1 else 0)
      && (OpensSource(sha, e) ==> Enabled(e.request) && v.sources[|w.sources|] == Token(e.request.identity, e.Load?))
      && (forall k | 0 <= k < |w.sources| ::
            v.sources[k] == if e == Signal(k) then w.sources[k].(requested := true) else w.sources[k])
  {
    hide Admissible, Decode, Make, FactoryCall.WellFormed, SealedRequest, SealedProfile, DispatchGuard;
    if e.Load? {
      LoadedIsEnabled(sha, e);
    }
  }

  lemma LoadedIsEnabled(sha: Sha, e: Event)
    requires e.Load? && SealedRequest(sha, e.request) && SealedProfile(sha, e.backend)
    ensures OpensSource(sha, e) ==> Enabled(e.request)
  {
    hide Admissible, Decode, Encode, SealedRequest, SealedProfile;
    var r := Decode(sha, e.encoding, e.request, e.backend);
    if r.Ok? {
      ExactImage(sha, e.encoding, e.request, e.backend, r.value);
      CancelledEvidence(sha, r.value);
    }
  }

  lemma FireKeepsTrace(sha: Sha, w: World, past: seq<Event>, e: Event)
    requires AllTraced(sha, w, past) && Possible(sha, w, e)
    ensures AllTraced(sha, Fire(sha, w, e), past + [e])
  {
    hide Possible, Fire, OpensSource, Opens, Traced;
    var v := Fire(sha, w, e);
    FireOpens(sha, w, e);
    OpensStep(sha, past, e);
    forall k | 0 <= k < |v.sources|
      ensures Traced(sha, past + [e], k, v.sources[k])
    {
      if k == |w.sources| {
        OpeningIsTraced(sha, past, e, v.sources[k]);
      } else if e == Signal(k) {
        SignalIsTraced(sha, past, k, w.sources[k]);
      } else {
        TracedStays(sha, past, e, k, w.sources[k]);
      }
    }
  }

  lemma {:induction false} RunKeepsTrace(sha: Sha, w: World, past: seq<Event>, events: seq<Event>)
    requires AllTraced(sha, w, past) && Run(sha, w, events)
    ensures AllTraced(sha, After(sha, w, events), past + events)
    decreases |events|
  {
    hide Possible, Fire, AllTraced;
    if events == [] {
      assert past + events == past;
    } else {
      FireKeepsTrace(sha, w, past, events[0]);
      RunKeepsTrace(sha, Fire(sha, w, events[0]), past + [events[0]], events[1..]);
      assert past + [events[0]] + events[1..] == past + events;
    }
  }

  lemma TracedFromTheStart(sha: Sha, events: seq<Event>)
    requires Run(sha, EMPTY, events)
    ensures AllTraced(sha, After(sha, EMPTY, events), events)
  {
    hide Run, After;
    assert [] + events == events;
    RunKeepsTrace(sha, EMPTY, [], events);
  }

  /**
   Every cancelled result goes back to one source: to the step that really opened it for the
   result's request, and to a signal of that same source, from a caller after it was opened or from
   the decoding that opened it.
   */
  lemma CancellationTracesBack(sha: Sha, events: seq<Event>, r: ExecutionResult)
    requires Run(sha, EMPTY, events) && r in After(sha, EMPTY, events).results
    requires r.failure == Some(CancelledFailure)
    ensures exists k: nat, i: nat ::
      OpenedBy(sha, events, i, k, r.request.identity) && SignalledBy(events, i, k)
  {
    hide Admissible, Run, After, OpenedBy, SignalledBy;
    FromTheStart(sha, events);
    TracedFromTheStart(sha, events);
    SignalGoesBack(sha, After(sha, EMPTY, events), events, r.request.identity);
  }

  lemma SignalGoesBack(sha: Sha, w: World, past: seq<Event>, request: Hex)
    requires AllTraced(sha, w, past) && Token(request, true) in w.sources
    ensures exists k: nat, i: nat :: OpenedBy(sha, past, i, k, request) && SignalledBy(past, i, k)
  {
    hide OpenedBy, SignalledBy;
    var k :| 0 <= k < |w.sources| && w.sources[k] == Token(request, true);
    assert Traced(sha, past, k, w.sources[k]);
  }

  /**
   The order of these steps: when a factory call returns a new cancelled result, its source had been
   opened and signalled before; when a decoding does, it opened and signalled the source itself.
   */
  lemma SignalComesFirst(sha: Sha, past: seq<Event>, e: Event, r: ExecutionResult)
    requires Run(sha, EMPTY, past) && Possible(sha, After(sha, EMPTY, past), e)
    requires r in Fire(sha, After(sha, EMPTY, past), e).results && r !in After(sha, EMPTY, past).results
    requires r.failure == Some(CancelledFailure)
    ensures if e.Load? then OpensSource(sha, e) && e.request == r.request
            else exists k: nat, i: nat :: OpenedBy(sha, past, i, k, r.request.identity) && SignalledBy(past, i, k)
  {
    hide Admissible, Run, After, OpenedBy, SignalledBy, Make, Decode, Encode, FactoryCall.WellFormed, SealedRequest,
         SealedProfile, DispatchGuard, WithToken;
    var w := After(sha, EMPTY, past);
    TracedFromTheStart(sha, past);
    if e.Load? {
      ExactImage(sha, e.encoding, e.request, e.backend, r);
    } else {
      CallIsAuthorised(sha, w, e.call, e.source);
      SignalGoesBack(sha, w, past, r.request.identity);
    }
  }

  /**
   Controlled dispatch calls the backend only for an enabled request, with a token whose own source
   an earlier step opened for that request; then the outcome is the backend's own. With the token
   of another request, or for a disabled one, it changes nothing.
   */
  lemma ControlledTracesBack(sha: Sha, past: seq<Event>, q: Request, token: nat, c: FactoryCall, source: nat)
    requires Run(sha, EMPTY, past)
    requires Possible(sha, After(sha, EMPTY, past), ExecuteControlled(q, token, c, source))
    ensures var w := After(sha, EMPTY, past);
      var v := Fire(sha, w, ExecuteControlled(q, token, c, source));
      && (v != w ==> Enabled(q) && exists i: nat :: OpenedBy(sha, past, i, token, q.identity))
      && (Enabled(q) && w.sources[token].request == q.identity ==> v == Record(w, Make(sha, WithToken(w, c, source))))
  {
    hide Admissible, Run, After, Make, FactoryCall.WellFormed, SealedRequest, SealedProfile, OpenedBy;
    TracedFromTheStart(sha, past);
    var w := After(sha, EMPTY, past);
    assert Traced(sha, past, token, w.sources[token]);
  }
}
