/**
 * One browser tab refreshing its session (frontend/src/api.ts): any number of
 * requests, one shared refresh promise, and a server that rotates refresh tokens.
 */
module TokenRefresh {
  import opened Text

  type Token = nat
  type PromiseId = nat
  type RequestId = nat

  // ---- The module variables --------------------------------------------------------

  datatype Client = Client(accessToken: Option<Token>, refreshToken: Option<Token>, refreshInFlight: Option<PromiseId>)

  /** What `renew` does before its first await. */
  datatype Renewal = Expired | Join(promise: PromiseId) | Begin(promise: PromiseId, token: Token)

  function Renew(c: Client, unused: PromiseId): Renewal {
    if c.refreshToken.None? then Expired
    else if c.refreshInFlight.Some? then Join(c.refreshInFlight.value)
    else Begin(unused, c.refreshToken.value)
  }

  function AfterRenew(c: Client, r: Renewal): Client {
    if r.Begin? then c.(refreshInFlight := Some(r.promise)) else c
  }

  function SetTokens(c: Client, access: Token, refresh: Token): Client {
    c.(accessToken := Some(access), refreshToken := Some(refresh))
  }

  function ClearTokens(c: Client): Client { c.(accessToken := None, refreshToken := None) }

  /** The `finally` after the awaited refresh. */
  function Forget(c: Client): Client { c.(refreshInFlight := None) }

  /** The module itself: each method runs without yielding. */
  class ApiModule {
    var accessToken: Option<Token>
    var refreshToken: Option<Token>
    var refreshInFlight: Option<PromiseId>

    constructor (access: Option<Token>, refresh: Option<Token>)
      ensures State() == Client(access, refresh, None)
    {
      accessToken, refreshToken, refreshInFlight := access, refresh, None;
    }

    ghost function State(): Client
      reads this
    {
      Client(accessToken, refreshToken, refreshInFlight)
    }

    method Set(access: Token, refresh: Token)
      modifies this`accessToken, this`refreshToken
      ensures State() == SetTokens(old(State()), access, refresh)
    {
      accessToken, refreshToken := Some(access), Some(refresh);
    }

    method Clear()
      modifies this`accessToken, this`refreshToken
      ensures State() == ClearTokens(old(State()))
    {
      accessToken, refreshToken := None, None;
    }

    method StartRenewal(unused: PromiseId) returns (r: Renewal)
      modifies this`refreshInFlight
      ensures r == Renew(old(State()), unused)
      ensures State() == AfterRenew(old(State()), r)
    {
      if refreshToken.None? { return Expired; }
      if refreshInFlight.Some? { return Join(refreshInFlight.value); }
      refreshInFlight := Some(unused);
      return Begin(unused, refreshToken.value);
    }

    method FinishRenewal()
      modifies this`refreshInFlight
      ensures State() == Forget(old(State()))
    {
      refreshInFlight := None;
    }
  }

  // ---- The tab, its requests and the server ----------------------------------------

  datatype Settlement = Pending | Fulfilled | Failed

  /** A refresh call on the wire, and the server's answer once it has one. */
  datatype Call = Call(token: Token, answer: Answer)

  datatype Answer = Unanswered | Refused | Rotated(access: Token, refresh: Token)

  datatype Phase =
    /** Sent and not answered yet; `retry` is true for the first sending. */
    | Sent(retry: bool)
    /** Suspended on a refresh promise, which it started itself if `owner`. */
    | Awaiting(promise: PromiseId, owner: bool)
    | Finished

  datatype System = System(
    client: Client, promises: seq<Settlement>, calls: map<PromiseId, Call>,
    requests: map<RequestId, Phase>, sendings: map<RequestId, nat>,
    rotated: set<Token>, nextToken: Token, replays: nat)

  datatype Event =
    /** A caller makes a request, which is sent at once. */
    | Request(q: RequestId)
    /** The server answers a request with 401. */
    | Unauthorized(q: RequestId)
    /** Any other answer. */
    | Answered(q: RequestId)
    /** The server handles a refresh call: it rotates the token, unless it was rotated before. */
    | Rotate(p: PromiseId)
    /** A refresh call fails before the server rotates anything. */
    | Refuse(p: PromiseId)
    /** The answer to a refresh call arrives. */
    | Deliver(p: PromiseId)
    /** A request resumes after its refresh promise settled. */
    | Resume(q: RequestId)
    /** Another part of the page supplies a token the server has not rotated. */
    | SignIn(access: Token, refresh: Token)
    | SignOut

  predicate Enabled(s: System, e: Event) {
    match e
    case Request(q) => q !in s.requests
    case Unauthorized(q) => q in s.requests && s.requests[q].Sent?
    case Answered(q) => q in s.requests && s.requests[q].Sent?
    case Rotate(p) => p in s.calls && s.calls[p].answer == Unanswered
    case Refuse(p) => p in s.calls && s.calls[p].answer == Unanswered
    case Deliver(p) => p in s.calls && s.calls[p].answer != Unanswered && p < |s.promises|
    case Resume(q) =>
      q in s.requests && s.requests[q].Awaiting? && s.requests[q].promise < |s.promises|
      && s.promises[s.requests[q].promise] != Pending
    case SignIn(_, refresh) => refresh !in s.rotated && refresh < s.nextToken
    case SignOut => true
  }

  function Count(m: map<RequestId, nat>, q: RequestId): nat { if q in m then m[q] else 0 }

  function Send(s: System, q: RequestId, retry: bool): System {
    s.(requests := s.requests[q := Sent(retry)], sendings := s.sendings[q := Count(s.sendings, q) + 1])
  }

  /** The 401 branch of `apiRequest`, up to its await. */
  function OnUnauthorized(s: System, q: RequestId): System
    requires q in s.requests && s.requests[q].Sent?
  {
    if !s.requests[q].retry then s.(requests := s.requests[q := Finished])
    else
      var r := Renew(s.client, |s.promises|);
      var c := AfterRenew(s.client, r);
      match r
      case Expired => s.(requests := s.requests[q := Finished])
      case Join(p) => s.(requests := s.requests[q := Awaiting(p, false)])
      case Begin(p, token) =>
        s.(client := c, promises := s.promises + [Pending], calls := s.calls[p := Call(token, Unanswered)],
           requests := s.requests[q := Awaiting(p, true)])
  }

  /** The server issues two new tokens; a token it has rotated before is a replay. */
  function OnRotate(s: System, p: PromiseId): System
    requires p in s.calls
  {
    var token := s.calls[p].token;
    if token in s.rotated then s.(replays := s.replays + 1, calls := s.calls[p := Call(token, Refused)])
    else
      s.(rotated := s.rotated + {token}, nextToken := s.nextToken + 2,
         calls := s.calls[p := Call(token, Rotated(s.nextToken, s.nextToken + 1))])
  }

  function OnDeliver(s: System, p: PromiseId): System
    requires p in s.calls && p < |s.promises|
  {
    match s.calls[p].answer
    case Rotated(access, refresh) =>
      s.(client := SetTokens(s.client, access, refresh), promises := s.promises[p := Fulfilled], calls := s.calls - {p})
    case _ => s.(promises := s.promises[p := Failed], calls := s.calls - {p})
  }

  function OnResume(s: System, q: RequestId): System
    requires q in s.requests && s.requests[q].Awaiting? && s.requests[q].promise < |s.promises|
  {
    var t := if s.requests[q].owner then s.(client := Forget(s.client)) else s;
    if s.promises[s.requests[q].promise] == Fulfilled then Send(t, q, false)
    else t.(requests := t.requests[q := Finished])
  }

  function Step(s: System, e: Event): System {
    if !Enabled(s, e) then s
    else match e
      case Request(q) => Send(s, q, true)
      case Unauthorized(q) => OnUnauthorized(s, q)
      case Answered(q) => s.(requests := s.requests[q := Finished])
      case Rotate(p) => OnRotate(s, p)
      case Refuse(p) => s.(calls := s.calls[p := Call(s.calls[p].token, Refused)])
      case Deliver(p) => OnDeliver(s, p)
      case Resume(q) => OnResume(s, q)
      case SignIn(access, refresh) => s.(client := SetTokens(s.client, access, refresh))
      case SignOut => s.(client := ClearTokens(s.client))
  }

  function Run(s: System, es: seq<Event>): System {
    if es == [] then s else Step(Run(s, es[..|es| - 1]), es[|es| - 1])
  }

  /** A tab as it loads: perhaps with stored tokens, none of them rotated. */
  ghost predicate Initial(s: System) {
    && s.client.refreshInFlight.None? && s.promises == [] && s.calls == map[] && s.requests == map[] &&
        s.sendings == map[]
    && s.rotated == {} && s.replays == 0
    && (s.client.refreshToken.Some? ==> s.client.refreshToken.value < s.nextToken)
  }

  // ---- What every step keeps -------------------------------------------------------

  ghost predicate Unrotated(s: System, t: Option<Token>) { t.Some? ==> t.value !in s.rotated && t.value < s.nextToken }

  ghost predicate RotationComing(s: System) { exists p :: p in s.calls && s.calls[p].answer.Rotated? }

  /** What is on the wire was not rotated when it was sent, and what comes back is new. */
  ghost predicate CallsFresh(s: System) {
    && (forall t :: t in s.rotated ==> t < s.nextToken)
    && (forall p :: p in s.calls && s.calls[p].answer == Unanswered ==> Unrotated(s, Some(s.calls[p].token)))
    && (forall p :: p in s.calls && s.calls[p].answer.Rotated? ==> Unrotated(s, Some(s.calls[p].answer.refresh)))
  }

  /** The token in memory is stale only while the rotation that made it stale is on its way. */
  ghost predicate TokensFresh(s: System) {
    CallsFresh(s) && (!RotationComing(s) ==> Unrotated(s, s.client.refreshToken))
  }

  /** The only call on the wire is the one in flight, and its promise is pending. */
  ghost predicate OneCall(s: System) {
    && (forall p :: p in s.calls ==> s.client.refreshInFlight == Some(p))
    && (s.client.refreshInFlight.Some? ==> s.client.refreshInFlight.value < |s.promises|)
    && (forall p :: 0 <= p < |s.promises| ==> (p in s.calls <==> s.promises[p] == Pending))
  }

  ghost predicate OwnsFlight(s: System, q: RequestId) {
    q in s.requests && s.requests[q].Awaiting? && s.requests[q].owner
  }

  ghost predicate AwaitsKnown(s: System) {
    forall q :: q in s.requests && s.requests[q].Awaiting? ==> s.requests[q].promise < |s.promises|
  }

  ghost predicate OwnersInFlight(s: System) {
    && (forall q :: OwnsFlight(s, q) ==> s.client.refreshInFlight == Some(s.requests[q].promise))
    && (forall q, r :: OwnsFlight(s, q) && OwnsFlight(s, r) ==> q == r)
  }

  ghost predicate FlightOwned(s: System) { s.client.refreshInFlight.Some? ==> exists q :: OwnsFlight(s, q) }

  /** The flight in progress has exactly one owner, and nothing else has. */
  ghost predicate OneOwner(s: System) { AwaitsKnown(s) && OwnersInFlight(s) && FlightOwned(s) }

  /** One sending while the retry is unused, at most two ever. */
  ghost predicate SentTwice(s: System) {
    && s.sendings.Keys == s.requests.Keys
    && (forall q :: q in s.requests ==>
      match s.requests[q]
      case Sent(retry) => s.sendings[q] == (if retry then 1 else 2)
      case Awaiting(_, _) => s.sendings[q] == 1
      case Finished => 1 <= s.sendings[q] <= 2)
  }

  ghost predicate Invariant(s: System) {
    s.replays == 0 && TokensFresh(s) && OneCall(s) && OneOwner(s) && SentTwice(s)
  }

  lemma InitialInvariant(s: System)
    requires Initial(s)
    ensures Invariant(s)
  {
  }

  /** An event of one request. */
  predicate OfRequest(e: Event) { e.Request? || e.Unauthorized? || e.Answered? || e.Resume? }

  /** The other events leave the requests and the promise in flight as they are. */
  lemma OthersAside(s: System, e: Event)
    requires !OfRequest(e)
    ensures
      var t := Step(s, e);
      && t.requests == s.requests && t.sendings == s.sendings && |t.promises| == |s.promises|
      && t.client.refreshInFlight == s.client.refreshInFlight
  {
    hide Send, OnUnauthorized, OnResume;
  }

  lemma SameOwners(s: System, t: System)
    requires t.requests == s.requests && t.sendings == s.sendings && |t.promises| == |s.promises|
    requires t.client.refreshInFlight == s.client.refreshInFlight
    ensures SentTwice(t) == SentTwice(s) && AwaitsKnown(t) == AwaitsKnown(s)
    ensures OwnersInFlight(t) == OwnersInFlight(s) && FlightOwned(t) == FlightOwned(s)
  {
    assert forall q :: OwnsFlight(t, q) == OwnsFlight(s, q);
  }

  /** A request sent for the first time, or answered for good. */
  predicate Direct(e: Event) { e.Request? || e.Answered? }

  lemma DirectChanges(s: System, e: Event)
    requires Enabled(s, e) && Direct(e)
    ensures
      var t := Step(s, e);
      && t.client == s.client && t.promises == s.promises && t.calls == s.calls
      && t.requests == s.requests[e.q := if e.Request? then Sent(true) else Finished]
      && t.sendings == (if e.Request? then s.sendings[e.q := Count(s.sendings, e.q) + 1] else s.sendings)
      && (e.Request? ==> e.q !in s.requests) && (e.Answered? ==> e.q in s.requests && s.requests[e.q].Sent?)
  {
    hide OnUnauthorized, OnRotate, OnDeliver, OnResume;
  }

  // ---- Sendings -------------------------------------------------------------------

  lemma DirectSendings(s: System, e: Event)
    requires SentTwice(s) && Enabled(s, e) && Direct(e)
    ensures SentTwice(Step(s, e))
  {
    hide Enabled, Step;
    DirectChanges(s, e);
  }

  lemma UnauthorizedSendings(s: System, q: RequestId)
    requires SentTwice(s) && q in s.requests && s.requests[q].Sent?
    ensures SentTwice(OnUnauthorized(s, q))
  {
    hide Renew, AfterRenew;
  }

  lemma ResumeSendings(s: System, q: RequestId)
    requires SentTwice(s)
    requires q in s.requests && s.requests[q].Awaiting? && s.requests[q].promise < |s.promises|
    ensures SentTwice(OnResume(s, q))
  {
    hide Forget;
  }

  lemma SendingsStep(s: System, e: Event)
    requires SentTwice(s)
    ensures SentTwice(Step(s, e))
  {
    hide SentTwice, Send, OnUnauthorized, OnRotate, OnDeliver, OnResume;
    if Enabled(s, e) {
      match e
      case Unauthorized(q) => UnauthorizedSendings(s, q);
      case Resume(q) => ResumeSendings(s, q);
      case Request(_) => DirectSendings(s, e);
      case Answered(_) => DirectSendings(s, e);
      case _ => OthersAside(s, e); SameOwners(s, Step(s, e));
    }
  }

  // ---- Owners ---------------------------------------------------------------------

  lemma AwaitsStep(s: System, e: Event)
    requires OneCall(s) && AwaitsKnown(s)
    ensures AwaitsKnown(Step(s, e))
  {
  }

  lemma DirectOwners(s: System, e: Event)
    requires OneOwner(s) && Enabled(s, e) && Direct(e)
    ensures OwnersInFlight(Step(s, e)) && FlightOwned(Step(s, e))
  {
    hide Enabled, Step;
    DirectChanges(s, e);
    assert forall q :: OwnsFlight(Step(s, e), q) == OwnsFlight(s, q);
  }

  /** A refused request owns the flight it begins, and only a request that finds none begins one. */
  lemma UnauthorizedOwners(s: System, q: RequestId)
    requires OneOwner(s) && q in s.requests && s.requests[q].Sent?
    ensures
      var t := OnUnauthorized(s, q);
      forall r :: OwnsFlight(t, r) <==>
        OwnsFlight(s, r) || (r == q && s.client.refreshInFlight.None? && t.client.refreshInFlight.Some?)
  {
  }

  lemma UnauthorizedOwned(s: System, q: RequestId)
    requires OneOwner(s) && q in s.requests && s.requests[q].Sent?
    ensures OwnersInFlight(OnUnauthorized(s, q)) && FlightOwned(OnUnauthorized(s, q))
  {
    UnauthorizedOwners(s, q);
    hide OwnsFlight;
    assert s.client.refreshInFlight.None? ==> forall r :: !OwnsFlight(s, r);
  }

  /** An owner that resumes gives the flight up; another request leaves it. */
  lemma ResumeOwners(s: System, q: RequestId)
    requires q in s.requests && s.requests[q].Awaiting? && s.requests[q].promise < |s.promises|
    ensures
      var t := OnResume(s, q);
      && (forall r :: OwnsFlight(t, r) <==> OwnsFlight(s, r) && r != q)
      && (forall r :: r != q && r in s.requests ==> r in t.requests && t.requests[r] == s.requests[r])
      && t.client.refreshInFlight == if OwnsFlight(s, q) then None else s.client.refreshInFlight
  {
  }

  lemma ResumeOwned(s: System, q: RequestId)
    requires OneOwner(s) && q in s.requests && s.requests[q].Awaiting? && s.requests[q].promise < |s.promises|
    ensures OwnersInFlight(OnResume(s, q)) && FlightOwned(OnResume(s, q))
  {
    hide OnResume, AwaitsKnown;
    ResumeOwners(s, q);
  }

  lemma OwnersStep(s: System, e: Event)
    requires OneOwner(s)
    ensures OwnersInFlight(Step(s, e)) && FlightOwned(Step(s, e))
  {
    hide OwnersInFlight, FlightOwned, Send, OnUnauthorized, OnRotate, OnDeliver, OnResume;
    if Enabled(s, e) {
      match e
      case Unauthorized(q) => UnauthorizedOwned(s, q);
      case Resume(q) => ResumeOwned(s, q);
      case Request(_) => DirectOwners(s, e);
      case Answered(_) => DirectOwners(s, e);
      case _ => OthersAside(s, e); SameOwners(s, Step(s, e));
    }
  }

  // ---- The call on the wire -------------------------------------------------------

  lemma SameCalls(s: System, t: System)
    requires t.calls.Keys == s.calls.Keys && t.promises == s.promises
    requires t.client.refreshInFlight == s.client.refreshInFlight
    ensures OneCall(t) == OneCall(s)
  {
    assert forall p :: p in t.calls <==> p in s.calls;
  }

  lemma RotateCalls(s: System, p: PromiseId)
    requires p in s.calls
    ensures OnRotate(s, p).calls.Keys == s.calls.Keys
    ensures OnRotate(s, p).client == s.client && OnRotate(s, p).promises == s.promises
  {
  }

  lemma UnauthorizedCall(s: System, q: RequestId)
    requires OneCall(s) && q in s.requests && s.requests[q].Sent?
    ensures OneCall(OnUnauthorized(s, q))
  {
  }

  lemma DeliverCall(s: System, p: PromiseId)
    requires OneCall(s) && p in s.calls && p < |s.promises|
    ensures OneCall(OnDeliver(s, p))
  {
  }

  /** The owner resumes only after its call has been answered, so no call is left when it forgets the promise. */
  lemma ResumeCall(s: System, q: RequestId)
    requires OneCall(s) && OneOwner(s) && Enabled(s, Resume(q))
    ensures OneCall(OnResume(s, q))
  {
    ResumeOwners(s, q);
    hide FlightOwned, AwaitsKnown;
    if OwnsFlight(s, q) { assert s.calls == map[]; }
  }

  lemma CallStep(s: System, e: Event)
    requires OneCall(s) && OneOwner(s)
    ensures OneCall(Step(s, e))
  {
    hide OneCall, OneOwner, Send, OnUnauthorized, OnRotate, OnDeliver, OnResume;
    if Enabled(s, e) {
      match e
      case Unauthorized(q) => UnauthorizedCall(s, q);
      case Deliver(p) => DeliverCall(s, p);
      case Resume(q) => ResumeCall(s, q);
      case Rotate(p) => RotateCalls(s, p); SameCalls(s, OnRotate(s, p));
      case Request(_) => DirectChanges(s, e); SameCalls(s, Step(s, e));
      case Answered(_) => DirectChanges(s, e); SameCalls(s, Step(s, e));
      case _ => SameCalls(s, Step(s, e));
    }
  }

  lemma RotateFresh(s: System, p: PromiseId)
    requires p in s.calls && s.calls[p].answer == Unanswered && CallsFresh(s) && OneCall(s)
    ensures CallsFresh(OnRotate(s, p)) && OnRotate(s, p).replays == s.replays
    ensures RotationComing(OnRotate(s, p))
  {
    var t := OnRotate(s, p);
    assert t.calls[p].answer.Rotated?;
  }

  lemma DeliverFresh(s: System, p: PromiseId)
    requires p in s.calls && p < |s.promises| && CallsFresh(s)
    ensures CallsFresh(OnDeliver(s, p)) && OnDeliver(s, p).replays == s.replays
    ensures s.calls[p].answer.Rotated? ==> Unrotated(OnDeliver(s, p), OnDeliver(s, p).client.refreshToken)
    ensures !s.calls[p].answer.Rotated? ==> OnDeliver(s, p).client == s.client
  {
  }

  lemma UnauthorizedFresh(s: System, q: RequestId)
    requires q in s.requests && s.requests[q].Sent? && OneCall(s) && TokensFresh(s)
    ensures CallsFresh(OnUnauthorized(s, q)) && OnUnauthorized(s, q).replays == s.replays
    ensures OnUnauthorized(s, q).client.refreshToken == s.client.refreshToken
    ensures RotationComing(s) ==> RotationComing(OnUnauthorized(s, q))
  {
    var t := OnUnauthorized(s, q);
    if RotationComing(s) {
      var p :| p in s.calls && s.calls[p].answer.Rotated?;
      assert p in t.calls && t.calls[p].answer.Rotated?;
    }
  }

  lemma RefuseFresh(s: System, p: PromiseId)
    requires p in s.calls && s.calls[p].answer == Unanswered && CallsFresh(s)
    ensures
      var t := s.(calls := s.calls[p := Call(s.calls[p].token, Refused)]);
      CallsFresh(t) && (RotationComing(s) ==> RotationComing(t))
  {
    var t := s.(calls := s.calls[p := Call(s.calls[p].token, Refused)]);
    if RotationComing(s) {
      var r :| r in s.calls && s.calls[r].answer.Rotated?;
      assert r in t.calls && t.calls[r].answer.Rotated?;
    }
  }

  /** What the tokens depend on. */
  lemma SameTokens(s: System, t: System)
    requires t.calls == s.calls && t.rotated == s.rotated && t.nextToken == s.nextToken
    ensures CallsFresh(t) == CallsFresh(s) && RotationComing(t) == RotationComing(s)
    ensures forall x: Option<Token> :: Unrotated(t, x) == Unrotated(s, x)
  {
  }

  lemma TokenStep(s: System, e: Event)
    requires OneCall(s) && TokensFresh(s) && s.replays == 0
    ensures TokensFresh(Step(s, e)) && Step(s, e).replays == 0
  {
    if Enabled(s, e) {
      hide CallsFresh, RotationComing, OnRotate, OnDeliver, OnUnauthorized, OneCall;
      match e
      case Rotate(p) => RotateFresh(s, p);
      case Deliver(p) => DeliverFresh(s, p); DeliverIsLast(s, p);
      case Unauthorized(q) => UnauthorizedFresh(s, q); SameRotated(s, q);
      case Refuse(p) => RefuseFresh(s, p); SameTokens(s, s);
      case _ => SameTokens(s, Step(s, e));
    }
  }

  lemma SameRotated(s: System, q: RequestId)
    requires q in s.requests && s.requests[q].Sent?
    ensures OnUnauthorized(s, q).rotated == s.rotated && OnUnauthorized(s, q).nextToken == s.nextToken
  {
  }

  /** When a call that rotated nothing is delivered, no other rotation is on its way. */
  lemma DeliverIsLast(s: System, p: PromiseId)
    requires p in s.calls && p < |s.promises| && OneCall(s)
    ensures !s.calls[p].answer.Rotated? ==> !RotationComing(s)
    ensures OnDeliver(s, p).rotated == s.rotated && OnDeliver(s, p).nextToken == s.nextToken
  {
  }

  lemma StepKeepsInvariant(s: System, e: Event)
    requires Invariant(s)
    ensures Invariant(Step(s, e))
  {
    SendingsStep(s, e);
    AwaitsStep(s, e);
    OwnersStep(s, e);
    CallStep(s, e);
    TokenStep(s, e);
    hide Step, TokensFresh, OneCall, SentTwice, AwaitsKnown, OwnersInFlight, FlightOwned;
  }

  lemma {:induction false} RunKeepsInvariant(s: System, es: seq<Event>)
    requires Initial(s)
    ensures Invariant(Run(s, es))
  {
    if es == [] {
      InitialInvariant(s);
    } else {
      RunKeepsInvariant(s, es[..|es| - 1]);
      hide Invariant, Step;
      StepKeepsInvariant(Run(s, es[..|es| - 1]), es[|es| - 1]);
    }
  }

  // ---- The theorems ----------------------------------------------------------------

  /**
   * In every interleaving: at most one refresh call on the wire, no replay seen by the server, at most two
   * sendings each.
   */
  lemma SingleFlight(s: System, es: seq<Event>)
    requires Initial(s)
    ensures |Run(s, es).calls| <= 1
    ensures Run(s, es).replays == 0
    ensures forall q :: Count(Run(s, es).sendings, q) <= 2
  {
    RunKeepsInvariant(s, es);
    var t := Run(s, es);
    if t.client.refreshInFlight.Some? {
      assert t.calls.Keys <= {t.client.refreshInFlight.value};
      SubsetSize(t.calls.Keys, {t.client.refreshInFlight.value});
    } else {
      assert t.calls.Keys == {};
    }
    assert |t.calls| == |t.calls.Keys|;
  }

  lemma {:induction false} SubsetSize<T>(a: set<T>, b: set<T>)
    requires a <= b
    ensures |a| <= |b|
  {
    if a != {} {
      var x :| x in a;
      SubsetSize(a - {x}, b - {x});
    }
  }

  /** The token presented when a refresh begins has never been rotated by the server. */
  lemma PresentedTokenIsFresh(s: System, es: seq<Event>, q: RequestId)
    requires Initial(s)
    requires Enabled(Run(s, es), Unauthorized(q)) && Run(s, es).requests[q].retry
    requires Renew(Run(s, es).client, |Run(s, es).promises|).Begin?
    ensures Renew(Run(s, es).client, |Run(s, es).promises|).token !in Run(s, es).rotated
    ensures Run(s, es).calls == map[]
  {
    RunKeepsInvariant(s, es);
    assert Run(s, es).calls.Keys == {};
  }

  lemma HasOneCall(s: System)
    requires Invariant(s)
    ensures OneCall(s)
  {
  }

  /** A call on the wire can fail, be answered or already be answered; delivering the answer settles the promise. */
  lemma SettleFlight(t: System) returns (more: seq<Event>)
    requires Invariant(t) && t.client.refreshInFlight.Some?
    ensures |more| <= 2 && Run(t, more).client.refreshInFlight == t.client.refreshInFlight
    ensures t.client.refreshInFlight.value < |Run(t, more).promises|
    ensures Run(t, more).promises[t.client.refreshInFlight.value] != Pending
    ensures Invariant(Run(t, more))
  {
    hide Run, Invariant;
    var p := t.client.refreshInFlight.value;
    RunNothing(t);
    HasOneCall(t);
    if p !in t.calls { return []; }
    more := [];
    var u := t;
    if t.calls[p].answer == Unanswered {
      more := [Refuse(p)];
      RunSnoc(t, [], Refuse(p));
      assert [] + [Refuse(p)] == more;
      StepKeepsInvariant(t, Refuse(p));
      u := Step(t, Refuse(p));
      HasOneCall(u);
    }
    RunSnoc(t, more, Deliver(p));
    StepKeepsInvariant(u, Deliver(p));
    more := more + [Deliver(p)];
  }

  /**
   * A refresh in progress, whatever its outcome, can always be brought to an end:
   * at most three further events leave no refresh in flight, so a later request
   * can refresh again.
   */
  lemma RefreshNeverSticks(s: System, es: seq<Event>) returns (more: seq<Event>)
    requires Initial(s)
    ensures |more| <= 3
    ensures Run(Run(s, es), more).client.refreshInFlight.None?
  {
    hide Run;
    RunKeepsInvariant(s, es);
    var t := Run(s, es);
    if t.client.refreshInFlight.None? {
      more := [];
      RunNothing(t);
    } else {
      var settle := SettleFlight(t);
      var v := Run(t, settle);
      var q :| OwnsFlight(v, q);
      RunSnoc(t, settle, Resume(q));
      more := settle + [Resume(q)];
    }
  }

  lemma RunNothing(s: System)
    ensures Run(s, []) == s
  {
  }

  lemma RunSnoc(s: System, es: seq<Event>, e: Event)
    ensures Run(s, es + [e]) == Step(Run(s, es), e)
  {
    assert (es + [e])[..|es|] == es;
  }

  /** After a failed refresh the next request that needs one begins a new call. */
  lemma NextRequestRefreshes(s: System, es: seq<Event>, q: RequestId)
    requires Initial(s)
    requires Enabled(Run(s, es), Unauthorized(q)) && Run(s, es).requests[q].retry
    requires Run(s, es).client.refreshToken.Some? && Run(s, es).client.refreshInFlight.None?
    ensures Run(s, es + [Unauthorized(q)]).calls ==
      map[|Run(s, es).promises| := Call(Run(s, es).client.refreshToken.value, Unanswered)]
  {
    RunKeepsInvariant(s, es);
    RunSnoc(s, es, Unauthorized(q));
    assert Run(s, es).calls.Keys == {};
  }

  // ---- What becomes of a request ---------------------------------------------------

  /** The event took place at some moment of the run. */
  ghost predicate Took(s: System, es: seq<Event>, e: Event) {
    exists i :: 0 <= i < |es| && es[i] == e && Enabled(Run(s, es[..i]), e)
  }

  lemma TookSnoc(s: System, es: seq<Event>, last: Event, e: Event)
    ensures Took(s, es + [last], e) <==> Took(s, es, e) || (last == e && Enabled(Run(s, es), e))
  {
    hide Run, Enabled;
    var all := es + [last];
    assert all[..|es|] == es && all[|es|] == last;
    forall i | 0 <= i < |es| ensures all[i] == es[i] && all[..i] == es[..i] { }
    if Took(s, es, e) {
      var i :| 0 <= i < |es| && es[i] == e && Enabled(Run(s, es[..i]), e);
      assert all[i] == e && Enabled(Run(s, all[..i]), e);
    }
    if last == e && Enabled(Run(s, es), e) { assert all[|es|] == e && Enabled(Run(s, all[..|es|]), e); }
  }

  /** How far the refresh of a promise has come, and what the server did, as the events of the run have it. */
  ghost predicate FateIs(s: System, es: seq<Event>, p: PromiseId) {
    var t := Run(s, es);
    var rotated, refused, delivered := Took(s, es, Rotate(p)), Took(s, es, Refuse(p)), Took(s, es, Deliver(p));
    && !(rotated && refused)
    && (p >= |t.promises| ==> !rotated && !refused && !delivered)
    && (p in t.calls ==> p < |t.promises| && !delivered)
    && (p in t.calls ==> (t.calls[p].answer.Rotated? <==> rotated) && (t.calls[p].answer == Refused <==> refused))
    && (p < |t.promises| ==> (t.promises[p] == Fulfilled <==> rotated && delivered))
    && (p < |t.promises| ==> (t.promises[p] == Failed <==> refused && delivered))
  }

  lemma AnswerStep(t: System, e: Event, p: PromiseId)
    requires Invariant(t) && Enabled(t, e) && (e == Rotate(p) || e == Refuse(p))
    ensures
      var u := Step(t, e);
      && p in t.calls && t.calls[p].answer == Unanswered
      && p in u.calls && u.promises == t.promises
      && (e == Rotate(p) ==> u.calls[p].answer.Rotated?) && (e == Refuse(p) ==> u.calls[p].answer == Refused)
  {
    hide OneOwner, SentTwice, OneCall, OnUnauthorized, OnDeliver, OnResume, Send;
  }

  lemma DeliverStep(t: System, p: PromiseId)
    requires Enabled(t, Deliver(p))
    ensures
      var u := Step(t, Deliver(p));
      && p in t.calls && t.calls[p].answer != Unanswered
      && p !in u.calls && |u.promises| == |t.promises|
      && u.promises[p] == if t.calls[p].answer.Rotated? then Fulfilled else Failed
  {
    hide OnUnauthorized, OnRotate, OnResume, Send;
  }

  /** No other event touches the promise or its call, unless it creates them. */
  lemma ElsewhereStep(t: System, e: Event, p: PromiseId)
    requires OneCall(t) && Enabled(t, e) && e != Rotate(p) && e != Refuse(p) && e != Deliver(p)
    ensures
      var u := Step(t, e);
      && |u.promises| >= |t.promises|
      && (p < |t.promises| ==> u.promises[p] == t.promises[p] && (p in u.calls <==> p in t.calls))
      && (p in t.calls ==> p in u.calls && u.calls[p].answer == t.calls[p].answer)
      && (|t.promises| <= p < |u.promises| ==> u.promises[p] == Pending)
      && (p >= |t.promises| && p in u.calls ==> p < |u.promises| && u.calls[p].answer == Unanswered)
  {
    hide OnResume;
    if e.Resume? { ResumeKeepsPromises(t, e.q); }
  }

  lemma ResumeKeepsPromises(t: System, q: RequestId)
    requires Enabled(t, Resume(q))
    ensures OnResume(t, q).promises == t.promises && OnResume(t, q).calls == t.calls
  {
  }

  lemma FateStep(s: System, es: seq<Event>, e: Event, p: PromiseId)
    requires Initial(s) && FateIs(s, es, p)
    ensures FateIs(s, es + [e], p)
  {
    hide Run, Step, Invariant, Took, Enabled;
    RunKeepsInvariant(s, es);
    RunSnoc(s, es, e);
    TookSnoc(s, es, e, Rotate(p));
    TookSnoc(s, es, e, Refuse(p));
    TookSnoc(s, es, e, Deliver(p));
    var t := Run(s, es);
    if !Enabled(t, e) {
      Disabled(t, e);
    } else if e == Rotate(p) || e == Refuse(p) {
      AnswerStep(t, e, p);
    } else if e == Deliver(p) {
      DeliverStep(t, p);
    } else {
      HasOneCall(t);
      ElsewhereStep(t, e, p);
    }
  }

  lemma Disabled(t: System, e: Event)
    requires !Enabled(t, e)
    ensures Step(t, e) == t
  {
  }

  lemma {:induction false} FateOf(s: System, es: seq<Event>, p: PromiseId)
    requires Initial(s)
    ensures FateIs(s, es, p)
  {
    if es == [] {
      RunNothing(s);
    } else {
      var before := es[..|es| - 1];
      FateOf(s, before, p);
      FateStep(s, before, es[|es| - 1], p);
      assert es == before + [es[|es| - 1]];
    }
  }

  /** Nothing more is sent for a request that is finished. */
  lemma {:induction false} FinishedForGood(t: System, more: seq<Event>, q: RequestId)
    requires q in t.requests && t.requests[q] == Finished && q in t.sendings
    ensures
      var u := Run(t, more);
      q in u.requests && u.requests[q] == Finished && q in u.sendings && u.sendings[q] == t.sendings[q]
  {
    if more != [] {
      FinishedForGood(t, more[..|more| - 1], q);
      FinishedStep(Run(t, more[..|more| - 1]), more[|more| - 1], q);
      hide Run, Step;
      RunLast(t, more);
    }
  }

  lemma RunLast(t: System, more: seq<Event>)
    requires more != []
    ensures Run(t, more) == Step(Run(t, more[..|more| - 1]), more[|more| - 1])
  {
  }

  lemma FinishedStep(t: System, e: Event, q: RequestId)
    requires q in t.requests && t.requests[q] == Finished && q in t.sendings
    ensures
      var u := Step(t, e);
      q in u.requests && u.requests[q] == Finished && q in u.sendings && u.sendings[q] == t.sendings[q]
  {
    if !Enabled(t, e) {
      Disabled(t, e);
    } else if e.Unauthorized? {
      OtherKeepsUnauthorized(t, e.q, q);
    } else if e.Resume? {
      OtherKeepsResumed(t, e.q, q);
    } else if Direct(e) {
      DirectChanges(t, e);
    } else {
      OthersAside(t, e);
    }
    hide OnUnauthorized, OnResume, OnRotate, OnDeliver, Send;
  }

  lemma OtherKeepsUnauthorized(t: System, r: RequestId, q: RequestId)
    requires r in t.requests && t.requests[r].Sent? && r != q && q in t.requests
    ensures
      var u := OnUnauthorized(t, r);
      q in u.requests && u.requests[q] == t.requests[q] && u.sendings == t.sendings
  {
  }

  lemma OtherKeepsResumed(t: System, r: RequestId, q: RequestId)
    requires Enabled(t, Resume(r)) && r != q && q in t.requests && q in t.sendings
    ensures
      var u := OnResume(t, r);
      && q in u.requests && u.requests[q] == t.requests[q] && q in u.sendings && u.sendings[q] == t.sendings[q]
  {
  }

  /**
   * A request that resumes after its refresh is sent a second time, and awaits that
   * answer, if the server had rotated; if the refresh had failed it ends with the one
   * sending, for good.  One of the two is so.
   */
  lemma ResentExactlyAfterRotation(s: System, es: seq<Event>, q: RequestId)
    requires Initial(s) && Enabled(Run(s, es), Resume(q))
    ensures
      var p, t := Run(s, es).requests[q].promise, Run(s, es + [Resume(q)]);
      && Took(s, es, Deliver(p)) && Count(Run(s, es).sendings, q) == 1
      && (Took(s, es, Rotate(p)) <==> !Took(s, es, Refuse(p)))
      && (Took(s, es, Rotate(p)) ==> q in t.requests && t.requests[q] == Sent(false) && Count(t.sendings, q) == 2)
      && (Took(s, es, Refuse(p)) ==> forall more :: Count(Run(t, more).sendings, q) == 1)
  {
    var t, u := Run(s, es), Run(s, es + [Resume(q)]);
    var p := t.requests[q].promise;
    RunKeepsInvariant(s, es);
    FateOf(s, es, p);
    RunSnoc(s, es, Resume(q));
    OnceSent(t, q);
    ResumeStep(t, q);
    hide Run, Step, Took, Invariant, Enabled;
    if Took(s, es, Refuse(p)) {
      forall more ensures Count(Run(u, more).sendings, q) == 1 { FinishedForGood(u, more, q); }
    }
  }

  lemma OnceSent(t: System, q: RequestId)
    requires Invariant(t) && q in t.requests && t.requests[q].Awaiting?
    ensures q in t.sendings && t.sendings[q] == 1
  {
  }

  lemma ResumeStep(t: System, q: RequestId)
    requires Enabled(t, Resume(q)) && q in t.sendings
    ensures
      var u, settled := Step(t, Resume(q)), t.promises[t.requests[q].promise];
      && settled != Pending && q in u.requests && q in u.sendings
      && (settled == Fulfilled ==> u.requests[q] == Sent(false) && u.sendings[q] == t.sendings[q] + 1)
      && (settled == Failed ==> u.requests[q] == Finished && u.sendings[q] == t.sendings[q])
  {
    hide OnUnauthorized, OnRotate, OnDeliver;
  }

  /**
   * A request that is refused is not sent again when there is no refresh token, or when
   * it was its second sending; otherwise it awaits the refresh in flight, or begins one.
   */
  lemma RefusedRequest(s: System, es: seq<Event>, q: RequestId)
    requires Initial(s) && Enabled(Run(s, es), Unauthorized(q))
    ensures
      var t, u := Run(s, es), Run(s, es + [Unauthorized(q)]);
      var sent := Count(t.sendings, q);
      && (sent == 2 || t.client.refreshToken.None? ==> forall more :: Count(Run(u, more).sendings, q) == sent)
      && (sent == 1 && t.client.refreshToken.Some? ==>
          && q in u.requests && u.requests[q].Awaiting? && u.client.refreshInFlight == Some(u.requests[q].promise)
          && (t.client.refreshInFlight.Some? ==> u.client.refreshInFlight == t.client.refreshInFlight))
      && 1 <= sent <= 2
  {
    var t, u := Run(s, es), Run(s, es + [Unauthorized(q)]);
    RunKeepsInvariant(s, es);
    RunSnoc(s, es, Unauthorized(q));
    RefusedStep(t, q);
    hide Run, Step, Invariant, Enabled;
    if u.requests[q] == Finished {
      forall more ensures Count(Run(u, more).sendings, q) == Count(t.sendings, q) { FinishedForGood(u, more, q); }
    }
  }

  lemma RefusedStep(t: System, q: RequestId)
    requires Invariant(t) && Enabled(t, Unauthorized(q))
    ensures
      var u := Step(t, Unauthorized(q));
      && q in t.sendings && 1 <= t.sendings[q] <= 2 && q in u.requests && u.sendings == t.sendings
      && (t.sendings[q] == 2 || t.client.refreshToken.None? ==> u.requests[q] == Finished)
      && (t.sendings[q] == 1 && t.client.refreshToken.Some? ==>
          && u.requests[q].Awaiting? && u.client.refreshInFlight == Some(u.requests[q].promise)
          && (t.client.refreshInFlight.Some? ==> u.client.refreshInFlight == t.client.refreshInFlight))
  {
    hide TokensFresh, OneCall, OneOwner, OnRotate, OnDeliver, OnResume;
  }

  /** Signing in or out changes the tokens in memory and nothing else; without them a refused request ends. */
  lemma SignedInOrOut(s: System, es: seq<Event>, access: Token, refresh: Token)
    ensures
      var t, u := Run(s, es), Run(s, es + [SignOut]);
      && u.client.accessToken.None? && u.client.refreshToken.None?
      && u == t.(client := u.client) && u.client.refreshInFlight == t.client.refreshInFlight
    ensures
      var t, u := Run(s, es), Run(s, es + [SignIn(access, refresh)]);
      Enabled(t, SignIn(access, refresh)) ==>
        && u.client.accessToken == Some(access) && u.client.refreshToken == Some(refresh)
        && u == t.(client := u.client) && u.client.refreshInFlight == t.client.refreshInFlight
  {
    RunSnoc(s, es, SignOut);
    RunSnoc(s, es, SignIn(access, refresh));
    hide Run, OnUnauthorized, OnRotate, OnDeliver, OnResume, Send;
  }

  /** The tokens the server issues for a call are the ones the tab holds once its answer arrives. */
  lemma IssuedTokensAreKept(t: System, p: PromiseId)
    requires Invariant(t) && Enabled(t, Rotate(p)) && p < |t.promises|
    ensures
      var u := Run(t, [Rotate(p)] + [Deliver(p)]);
      && u.client.accessToken == Some(t.nextToken) && u.client.refreshToken == Some(t.nextToken + 1)
      && u.rotated == t.rotated + {t.calls[p].token}
  {
    hide Run, OneOwner, SentTwice, OneCall, RotationComing, OnUnauthorized, OnResume, Send;
    RunNothing(t);
    RunSnoc(t, [], Rotate(p));
    assert [] + [Rotate(p)] == [Rotate(p)];
    RunSnoc(t, [Rotate(p)], Deliver(p));
  }
}
