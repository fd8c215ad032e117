/**
 The authorization endpoint as a state machine: a fresh request, a request resumed with a continuation token, and the
 consent decision. The database and the clock change between any two reads of a request, so each handler gets the worlds
 its reads saw; these are worlds the run has gone through. The history kept besides is what was validated, signed,
 allowed and granted.
 */
module AuthorizeFlow {
  import opened Prelude
  import opened Continuation

  type User = nat
  type Uuid = nat
  type Cookie = nat

  datatype Client = Client(tenant: tenantId, uuid: Uuid, redirects: seq<text>, scopes: seq<text>)
  datatype Session = Session(tenant: tenantId, user: User, isUser: bool, revoked: bool, expires: int)
  datatype Consent = Consent(tenant: tenantId, scopes: seq<text>, revoked: bool)

  /**
   `blocked` has an entry for each live tenant, `clients` one for each live client; `registry` keeps the tenant and row
   id of every client id ever given out, as the unique columns do. A consent is unique per user and client.
   */
  datatype World = World(blocked: map<tenantId, bool>, clients: map<text, Client>,
                         registry: map<text, (tenantId, Uuid)>, sessions: map<Cookie, Session>,
                         consents: map<(User, Uuid), Consent>, now: int)

  ghost predicate WorldOk(w: World) {
    && (forall c :: c in w.clients ==> c in w.registry && w.registry[c] == (w.clients[c].tenant, w.clients[c].uuid))
    && (forall a, b :: a in w.registry && b in w.registry && w.registry[a].1 == w.registry[b].1 ==> a == b)
  }

  ghost predicate Remembers(w: World, w': World) {
    forall c :: c in w.registry ==> c in w'.registry && w'.registry[c] == w.registry[c]
  }

  /** What everyone else may do: anything but write consents, revive sessions or hand a client id to another row. */
  ghost predicate Evolves(w: World, w': World) {
    && WorldOk(w') && Remembers(w, w') && w.now <= w'.now
    && (forall k :: k in w'.consents ==>
          && k in w.consents && w'.consents[k].tenant == w.consents[k].tenant &&
              w'.consents[k].scopes == w.consents[k].scopes
          && (w.consents[k].revoked ==> w'.consents[k].revoked))
    && (forall c :: c in w.sessions && w.sessions[c].revoked ==> c in w'.sessions && w'.sessions[c].revoked)
  }

  /** How redirect URIs are compared is a parameter. */
  datatype Provider = Provider(signer: Signer, matches: (seq<text>, text) -> bool)

  predicate Covers(requested: seq<text>, allowed: seq<text>) {
    forall i :: 0 <= i < |requested| ==> requested[i] in allowed
  }

  /** `LoadClient`. */
  function Loaded(w: World, tenant: tenantId, clientId: text): Option<Client> {
    if clientId in w.clients && w.clients[clientId].tenant == tenant then Some(w.clients[clientId]) else None
  }

  /** `ValidateAuthorizeRequest`. */
  function Validated(p: Provider, w: World, tenant: tenantId, r: Request): Option<Client> {
    match Loaded(w, tenant, r.clientId)
    case None => None
    case Some(client) =>
      if p.matches(client.redirects, r.redirectUri) && r.challenge != "" && r.challengeMethod == "S256"
         && Covers(r.scope, client.scopes)
      then Some(client) else None
  }

  /** `currentUserSession`. */
  function LiveUser(w: World, tenant: tenantId, cookie: Option<Cookie>): Option<User> {
    if cookie.None? || cookie.value !in w.sessions then None
    else
      var s := w.sessions[cookie.value];
      if s.tenant == tenant && s.isUser && !s.revoked && s.expires > w.now then Some(s.user) else None
  }

  /** `ConsentCovers`. */
  predicate Consented(w: World, tenant: tenantId, user: User, client: Uuid, scope: seq<text>) {
    (user, client) in w.consents &&
    var c := w.consents[(user, client)]; c.tenant == tenant && !c.revoked && Covers(scope, c.scopes)
  }

  /** `RecordConsent`: a conflicting row keeps its tenant and gets the new scopes. */
  function Recorded(w: World, tenant: tenantId, user: User, client: Uuid, scope: seq<text>): World {
    var owner := if (user, client) in w.consents then w.consents[(user, client)].tenant else tenant;
    w.(consents := w.consents[(user, client) := Consent(owner, scope, false)])
  }

  predicate Open(w: World, tenant: tenantId) { tenant in w.blocked && !w.blocked[tenant] }

  /**
   When a request arrived, and the worlds seen by the gate, the parsing of a token, the validation, the session, the
   second validation, the consent and the insert.
   */
  datatype Views = Views(arrived: nat, gate: World, token: World, request: World, session: World, finish: World,
                         consent: World, code: World)

  /** A request at one moment. */
  function Still(n: nat, w: World): Views { Views(n, w, w, w, w, w, w, w) }

  datatype Origin = Origin(tenant: tenantId, request: Request, time: int)
  datatype Grant = Grant(tenant: tenantId, user: User, client: Uuid, request: Request, cookie: Option<Cookie>,
                         views: Views)
  datatype Reply = Refused | ToLogin(token: text) | ToConsent(token: text) | Code(grant: Grant) | Allowed(token: text)
  datatype Outcome = Outcome(reply: Reply, signed: set<Origin>)

  function Ask(p: Provider, tenant: tenantId, r: Request, now: int): text { Issue(p.signer, tenant, r, now) }

  /** `finishOIDCAuthorize`. */
  function Finish(p: Provider, v: Views, tenant: tenantId, user: User, cookie: Option<Cookie>, r: Request): Outcome {
    match Validated(p, v.finish, tenant, r)
    case None => Outcome(Refused, {})
    case Some(client) =>
      if !Consented(v.consent, tenant, user, client.uuid, r.scope) then
        Outcome(ToConsent(Ask(p, tenant, r, v.consent.now)), {Origin(tenant, r, v.consent.now)})
      else
        match Validated(p, v.code, tenant, r)
        case None => Outcome(Refused, {})
        case Some(final) => Outcome(Code(Grant(tenant, user, final.uuid, r, cookie, v)), {})
  }

  /** `oidcAuthorize` without a continuation. */
  function Authorize(p: Provider, v: Views, tenant: tenantId, r: Request, cookie: Option<Cookie>): Outcome {
    if !Open(v.gate, tenant) || Validated(p, v.request, tenant, r).None? then Outcome(Refused, {})
    else
      match LiveUser(v.session, tenant, cookie)
      case None => Outcome(ToLogin(Ask(p, tenant, r, v.session.now)), {Origin(tenant, r, v.session.now)})
      case Some(user) => Finish(p, v, tenant, user, cookie, r)
  }

  /** `oidcAuthorize` with a continuation. */
  function Resume(p: Provider, v: Views, tenant: tenantId, token: text, cookie: Option<Cookie>): Outcome {
    if !Open(v.gate, tenant) then Outcome(Refused, {})
    else
      match Parse(p.signer, token, v.token.now)
      case None => Outcome(Refused, {})
      case Some(c) =>
        if c.tenant != tenant then Outcome(Refused, {})
        else
          match LiveUser(v.session, tenant, cookie)
          case None => Outcome(ToLogin(token), {})
          case Some(user) => Finish(p, v, tenant, user, cookie, c.request)
  }

  /** A recorded consent: whose, for which client, and the request of the token that carried it. */
  datatype Allow = Allow(tenant: tenantId, user: User, client: Uuid, request: Request)

  /** `oidcConsent` with `resolveConsentPayload`. */
  function Decide(p: Provider, v: Views, tenant: tenantId, decision: text, token: text,
                  cookie: Option<Cookie>): Option<Allow> {
    if decision != "" && decision != "allow" then None
    else
      match Parse(p.signer, token, v.token.now)
      case None => None
      case Some(c) =>
        if c.tenant != tenant then None
        else
          match (LiveUser(v.session, tenant, cookie), Loaded(v.request, tenant, c.request.clientId))
          case (Some(user), Some(client)) => Some(Allow(tenant, user, client.uuid, c.request))
          case _ => None
  }

  /** Only an allow or a missing decision is recorded, and both alike. */
  lemma DecideExactly(p: Provider, v: Views, tenant: tenantId, decision: text, token: text, cookie: Option<Cookie>)
    ensures Decide(p, v, tenant, decision, token, cookie).Some? ==> decision == "" || decision == "allow"
    ensures Decide(p, v, tenant, "", token, cookie) == Decide(p, v, tenant, "allow", token, cookie)
  { hide Parse; }

  // What the checks ask of the tables.

  /**
   A request is valid exactly if the tenant's client allows its redirect URI and scopes and it brings an S256 challenge.
   */
  lemma ValidatedExactly(p: Provider, w: World, tenant: tenantId, r: Request, client: Client)
    ensures Validated(p, w, tenant, r) == Some(client) <==>
            && r.clientId in w.clients && w.clients[r.clientId] == client && client.tenant == tenant
            && p.matches(client.redirects, r.redirectUri) && r.challenge != "" && r.challengeMethod == "S256"
            && forall x :: x in r.scope ==> x in client.scopes
  {}

  /** A cookie stands for a user exactly if it names an unrevoked, unexpired user session of the tenant. */
  lemma LiveUserExactly(w: World, tenant: tenantId, cookie: Option<Cookie>, user: User)
    ensures LiveUser(w, tenant, cookie) == Some(user) <==>
            && cookie.Some? && cookie.value in w.sessions
            && var s := w.sessions[cookie.value];
            && s.tenant == tenant && s.user == user && s.isUser && !s.revoked && w.now < s.expires
  {}

  /** Consent covers a request exactly if the tenant's row for user and client is unrevoked and has all its scopes. */
  lemma ConsentedExactly(w: World, tenant: tenantId, user: User, client: Uuid, scope: seq<text>)
    ensures Consented(w, tenant, user, client, scope) <==>
            && (user, client) in w.consents
            && var c := w.consents[(user, client)];
            && c.tenant == tenant && !c.revoked && forall x :: x in scope ==> x in c.scopes
  {}

  /** A tenant is open exactly if it exists and is not blocked. */
  lemma OpenExactly(w: World, tenant: tenantId)
    ensures Open(w, tenant) <==> tenant in w.blocked && w.blocked[tenant] == false
  {}

  // Runs.

  /** `worlds` are those the run went through; the last is the present one. */
  datatype State = State(worlds: seq<World>, validated: set<(tenantId, Request)>, signed: set<Origin>,
                         allows: set<Allow>,
                         grants: seq<Grant>, replies: seq<Reply>)

  /** When a request arrived and when each of its reads took place. */
  datatype Reads = Reads(arrived: nat, gate: nat, token: nat, request: nat, session: nat, finish: nat, consent: nat,
                         code: nat)

  /** The reads follow the arrival, in the order of the handlers. */
  predicate Past(at: Reads, n: nat) {
    && at.arrived <= at.gate <= at.token <= at.session <= at.finish <= at.consent <= at.code < n
    && at.gate <= at.request < n
  }

  function Seen(worlds: seq<World>, at: Reads): Views
    requires Past(at, |worlds|)
  {
    Views(at.arrived, worlds[at.gate], worlds[at.token], worlds[at.request], worlds[at.session], worlds[at.finish],
          worlds[at.consent], worlds[at.code])
  }

  datatype Event =
    | Environment(world: World)
    | Fresh(tenant: tenantId, request: Request, cookie: Option<Cookie>, at: Reads)
    | Resumed(tenant: tenantId, token: text, cookie: Option<Cookie>, at: Reads)
    | Decision(tenant: tenantId, decision: text, token: text, cookie: Option<Cookie>, at: Reads)

  /** Nobody else has the signing key: a token with the right MAC for its payload carries one that was signed here. */
  ghost predicate Genuine(p: Provider, signed: set<Origin>, token: text) {
    forall payload: text, signature: text :: Signs(p.signer, token, payload, signature) ==>
      exists o :: o in signed && payload == EncodedPayload(p.signer, o.tenant, o.request, o.time)
  }

  ghost predicate Enabled(p: Provider, s: State, e: Event) {
    s.worlds != [] &&
    match e
    case Environment(w) => Evolves(s.worlds[|s.worlds| - 1], w)
    case Fresh(_, _, _, at) => Past(at, |s.worlds|)
    case Resumed(_, token, _, at) => Past(at, |s.worlds|) && Genuine(p, s.signed, token)
    case Decision(_, _, token, _, at) => Past(at, |s.worlds|) && Genuine(p, s.signed, token)
  }

  function After(s: State, o: Outcome): State {
    s.(signed := s.signed + o.signed, replies := s.replies + [o.reply],
       grants := if o.reply.Code? then s.grants + [o.reply.grant] else s.grants)
  }

  /** The consent is written to the present world. */
  function AfterAllow(s: State, a: Allow, token: text): State
    requires s.worlds != []
  {
    s.(worlds := s.worlds + [Recorded(s.worlds[|s.worlds| - 1], a.tenant, a.user, a.client, a.request.scope)],
       allows := s.allows + {a}, replies := s.replies + [Allowed(token)])
  }

  ghost function Effect(p: Provider, s: State, e: Event): State
    requires Enabled(p, s, e)
  {
    match e
    case Environment(w) => s.(worlds := s.worlds + [w])
    case Fresh(tenant, r, cookie, at) =>
      var v := Seen(s.worlds, at);
      var more := if Open(v.gate, tenant) && Validated(p, v.request, tenant, r).Some? then {(tenant, r)} else {};
      After(s.(validated := s.validated + more), Authorize(p, v, tenant, r, cookie))
    case Resumed(tenant, token, cookie, at) => After(s, Resume(p, Seen(s.worlds, at), tenant, token, cookie))
    case Decision(tenant, decision, token, cookie, at) =>
      match Decide(p, Seen(s.worlds, at), tenant, decision, token, cookie)
      case None => s.(replies := s.replies + [Refused])
      case Some(a) => AfterAllow(s, a, token)
  }

  ghost function Step(p: Provider, s: State, e: Event): State { if Enabled(p, s, e) then Effect(p, s, e) else s }

  ghost function Run(p: Provider, s: State, events: seq<Event>): State
    decreases |events|
  { if events == [] then s else Step(p, Run(p, s, events[..|events| - 1]), events[|events| - 1]) }

  /** A run starts from any world in which nobody has consented to anything. */
  ghost predicate Initial(s: State) {
    exists w :: WorldOk(w) && w.consents == map[] && s == State([w], {}, {}, {}, [], [])
  }

  // The invariant.

  /** A request that came, directly or through JSON, from one that was validated for the tenant. */
  ghost predicate Descends(validated: set<(tenantId, Request)>, tenant: tenantId, r: Request) {
    exists r0 :: (tenant, r0) in validated && (r == r0 || r == CoercedRequest(r0))
  }

  /** The client row allows the request. */
  ghost predicate ClientAllows(p: Provider, w: World, tenant: tenantId, r: Request, client: Uuid) {
    && r.clientId in w.clients
    && var c := w.clients[r.clientId];
    && c.tenant == tenant && c.uuid == client && p.matches(c.redirects, r.redirectUri)
    && (forall x :: x in r.scope ==> x in c.scopes)
    && r.challenge != "" && r.challengeMethod == "S256"
  }

  ghost predicate ConsentAllows(w: World, g: Grant) {
    && (g.user, g.client) in w.consents
    && var c := w.consents[(g.user, g.client)];
    && c.tenant == g.tenant && !c.revoked && forall x :: x in g.request.scope ==> x in c.scopes
  }

  /**
   What the tables held on the way to a code: an open tenant, a live session, a client and a consent of this tenant.
   */
  ghost predicate Authorized(p: Provider, g: Grant) {
    var v := g.views;
    && g.tenant in v.gate.blocked && !v.gate.blocked[g.tenant]
    && g.cookie.Some? && g.cookie.value in v.session.sessions
    && (var s := v.session.sessions[g.cookie.value];
        s.tenant == g.tenant && s.user == g.user && s.isUser && !s.revoked && v.session.now < s.expires)
    && ClientAllows(p, v.finish, g.tenant, g.request, g.client) &&
        ClientAllows(p, v.code, g.tenant, g.request, g.client)
    && ConsentAllows(v.consent, g)
  }

  /** The views are worlds of the run from the arrival on. */
  ghost predicate FromRun(worlds: seq<World>, v: Views) {
    && v.arrived <= |worlds|
    && {v.gate, v.token, v.request, v.session, v.finish, v.consent, v.code} <= set w | w in worlds[v.arrived..]
  }

  /** One world follows another: somebody else changed it, or an allow was recorded. */
  ghost predicate Linked(w: World, w': World, allows: set<Allow>) {
    Evolves(w, w') || exists a :: a in allows && w' == Recorded(w, a.tenant, a.user, a.client, a.request.scope)
  }

  ghost predicate Chained(worlds: seq<World>, allows: set<Allow>) {
    forall m :: 0 < m < |worlds| ==> Linked(worlds[m - 1], worlds[m], allows)
  }

  ghost predicate WorldsOk(worlds: seq<World>) {
    && worlds != []
    && forall w :: w in worlds ==> WorldOk(w) && Remembers(w, worlds[|worlds| - 1])
  }

  /**
   An allow of the run stands for a consent row: same user, client and tenant, and the row's scopes are its request's.
   */
  ghost predicate Backed(allows: set<Allow>, user: User, client: Uuid, c: Consent) {
    exists a :: a in allows && a.user == user && a.client == client && a.tenant == c.tenant &&
        a.request.scope == c.scopes
  }

  ghost predicate ConsentsBacked(s: State) {
    forall w, k :: w in s.worlds && k in w.consents ==> Backed(s.allows, k.0, k.1, w.consents[k])
  }

  /** An allow descends from a validated request and names that request's client. */
  ghost predicate AllowOk(s: State, a: Allow) {
    && Descends(s.validated, a.tenant, a.request)
    && s.worlds != [] && a.request.clientId in s.worlds[|s.worlds| - 1].registry
    && s.worlds[|s.worlds| - 1].registry[a.request.clientId] == (a.tenant, a.client)
  }

  ghost predicate GrantOk(p: Provider, s: State, g: Grant) {
    && Descends(s.validated, g.tenant, g.request) && Authorized(p, g) && FromRun(s.worlds, g.views)
  }

  ghost predicate Inv(p: Provider, s: State) {
    && WorldsOk(s.worlds) && ConsentsBacked(s) && Chained(s.worlds, s.allows)
    && (forall o :: o in s.signed ==> Descends(s.validated, o.tenant, o.request))
    && (forall a :: a in s.allows ==> AllowOk(s, a))
    && (forall i :: 0 <= i < |s.grants| ==> GrantOk(p, s, s.grants[i]))
  }

  // Steps keep it.

  lemma CoversAll(requested: seq<text>, allowed: seq<text>)
    ensures Covers(requested, allowed) <==> forall x :: x in requested ==> x in allowed
  {}

  /** A client id names the same row in every world of a run. */
  lemma SameClient(worlds: seq<World>, w: World, w': World, id: text)
    requires WorldsOk(worlds) && w in worlds && w' in worlds && id in w.clients && id in w'.clients
    ensures w.clients[id].uuid == w'.clients[id].uuid && w.clients[id].tenant == w'.clients[id].tenant
  { assert WorldOk(w) && WorldOk(w') && Remembers(w, worlds[|worlds| - 1]) && Remembers(w', worlds[|worlds| - 1]); }

  /** The checks of `finishOIDCAuthorize` authorize the code. */
  lemma FinishAuthorizes(p: Provider, worlds: seq<World>, v: Views, tenant: tenantId, user: User,
                         cookie: Option<Cookie>, r: Request)
    requires WorldsOk(worlds) && FromRun(worlds, v)
    requires Open(v.gate, tenant) && LiveUser(v.session, tenant, cookie) == Some(user)
    requires Finish(p, v, tenant, user, cookie, r).reply.Code?
    ensures Authorized(p, Finish(p, v, tenant, user, cookie, r).reply.grant)
  {
    hide Issue, Covers, WorldsOk;
    assert v.finish in worlds && v.code in worlds;
    SameClient(worlds, v.finish, v.code, r.clientId);
    CoversAll(r.scope, v.finish.clients[r.clientId].scopes);
    CoversAll(r.scope, v.code.clients[r.clientId].scopes);
    CoversAll(r.scope, v.consent.consents[(user, v.finish.clients[r.clientId].uuid)].scopes);
  }

  lemma FinishKeeps(p: Provider, s: State, v: Views, tenant: tenantId, user: User, cookie: Option<Cookie>, r: Request)
    requires Inv(p, s) && Descends(s.validated, tenant, r) && FromRun(s.worlds, v)
    requires Open(v.gate, tenant) && LiveUser(v.session, tenant, cookie) == Some(user)
    ensures Inv(p, After(s, Finish(p, v, tenant, user, cookie, r)))
  {
    hide Descends, Consented, Issue, Authorized, Validated, Open, LiveUser, FromRun, WorldsOk, Backed, Chained;
    var o := Finish(p, v, tenant, user, cookie, r);
    if o.reply.Code? { FinishAuthorizes(p, s.worlds, v, tenant, user, cookie, r); }
    AfterKeeps(p, s, o);
  }

  /** An outcome whose signatures and code are in order. */
  lemma AfterKeeps(p: Provider, s: State, o: Outcome)
    requires Inv(p, s) && forall x :: x in o.signed ==> Descends(s.validated, x.tenant, x.request)
    requires o.reply.Code? ==> GrantOk(p, s, o.reply.grant)
    ensures Inv(p, After(s, o))
  {
    hide Descends, Authorized, FromRun, WorldsOk, Backed, Chained;
    var s' := After(s, o);
    assert forall a :: a in s.allows ==> AllowOk(s, a);
    forall i | 0 <= i < |s'.grants| ensures GrantOk(p, s', s'.grants[i]) {
      if i < |s.grants| { assert GrantOk(p, s, s.grants[i]); }
    }
  }

  lemma DescendsMore(validated: set<(tenantId, Request)>, more: set<(tenantId, Request)>, tenant: tenantId, r: Request)
    requires Descends(validated, tenant, r)
    ensures Descends(validated + more, tenant, r)
  {
    hide CoercedRequest;
    var r0 :| (tenant, r0) in validated && (r == r0 || r == CoercedRequest(r0));
    assert (tenant, r0) in validated + more;
  }

  lemma ValidatedMore(p: Provider, s: State, more: set<(tenantId, Request)>)
    requires Inv(p, s)
    ensures Inv(p, s.(validated := s.validated + more))
  {
    hide Descends, Authorized, FromRun, WorldsOk, Backed, Chained;
    var s' := s.(validated := s.validated + more);
    forall o | o in s.signed ensures Descends(s'.validated, o.tenant, o.request) {
      DescendsMore(s.validated, more, o.tenant, o.request);
    }
    forall a | a in s.allows ensures AllowOk(s', a) {
      assert AllowOk(s, a);
      DescendsMore(s.validated, more, a.tenant, a.request);
    }
    forall i | 0 <= i < |s.grants| ensures GrantOk(p, s', s.grants[i]) {
      assert GrantOk(p, s, s.grants[i]);
      DescendsMore(s.validated, more, s.grants[i].tenant, s.grants[i].request);
    }
  }

  /** What a genuine token says descends from what was signed. */
  lemma GenuineDescends(p: Provider, s: State, token: text, now: int)
    requires Lawful(p.signer) && Genuine(p, s.signed, token) && Parse(p.signer, token, now).Some?
    requires forall o :: o in s.signed ==> Descends(s.validated, o.tenant, o.request)
    requires Utf8.Ascii(Parse(p.signer, token, now).value.tenant)
    ensures Descends(s.validated, Parse(p.signer, token, now).value.tenant, Parse(p.signer, token, now).value.request)
  {
    hide CoercedRequest, VerifiedPayload, Content, EncodedPayload, Signs;
    var payload := VerifiedPayload(p.signer, token).value;
    VerifiedExactly(p.signer, token, payload);
    var signature :| Signs(p.signer, token, payload, signature);
    var o :| o in s.signed && payload == EncodedPayload(p.signer, o.tenant, o.request, o.time);
    IssuedContent(p.signer, o.tenant, o.request, o.time, now);
    var r0 :| (o.tenant, r0) in s.validated && (o.request == r0 || o.request == CoercedRequest(r0));
    CoercedTwice(r0);
  }

  lemma SeenFromRun(worlds: seq<World>, at: Reads)
    requires Past(at, |worlds|)
    ensures FromRun(worlds, Seen(worlds, at))
  {}

  lemma FreshKeeps(p: Provider, s: State, e: Event)
    requires Inv(p, s) && e.Fresh? && Enabled(p, s, e)
    ensures Inv(p, Effect(p, s, e))
  {
    hide Inv, Issue, LiveUser, Finish, Validated, FromRun, Descends, Open;
    var tenant, r, v := e.tenant, e.request, Seen(s.worlds, e.at);
    SeenFromRun(s.worlds, e.at);
    if Open(v.gate, tenant) && Validated(p, v.request, tenant, r).Some? {
      var s' := s.(validated := s.validated + {(tenant, r)});
      ValidatedMore(p, s, {(tenant, r)});
      assert Descends(s'.validated, tenant, r) by { JustValidated(s'.validated, tenant, r); }
      if LiveUser(v.session, tenant, e.cookie).Some? {
        FinishKeeps(p, s', v, tenant, LiveUser(v.session, tenant, e.cookie).value, e.cookie, r);
      } else {
        AfterKeeps(p, s', Authorize(p, v, tenant, r, e.cookie));
      }
    } else {
      assert s.(validated := s.validated + {}) == s;
      AfterKeeps(p, s, Outcome(Refused, {}));
    }
  }

  lemma JustValidated(validated: set<(tenantId, Request)>, tenant: tenantId, r: Request)
    requires (tenant, r) in validated
    ensures Descends(validated, tenant, r)
  { hide CoercedRequest; }

  lemma ResumedKeeps(p: Provider, s: State, e: Event)
    requires Lawful(p.signer) && Inv(p, s) && e.Resumed? && Enabled(p, s, e)
    ensures Inv(p, Effect(p, s, e))
  {
    hide Inv, Issue, Parse, LiveUser, Finish, Descends, Genuine, Lawful, FromRun, Open;
    var v := Seen(s.worlds, e.at);
    SeenFromRun(s.worlds, e.at);
    var c := Parse(p.signer, e.token, v.token.now);
    if Open(v.gate, e.tenant) && c.Some? && c.value.tenant == e.tenant &&
        LiveUser(v.session, e.tenant, e.cookie).Some? {
      SignedDescend(p, s);
      GenuineDescends(p, s, e.token, v.token.now);
      FinishKeeps(p, s, v, e.tenant, LiveUser(v.session, e.tenant, e.cookie).value, e.cookie, c.value.request);
    } else {
      AfterKeeps(p, s, Resume(p, v, e.tenant, e.token, e.cookie));
    }
  }

  lemma SignedDescend(p: Provider, s: State)
    requires Inv(p, s)
    ensures WorldsOk(s.worlds) && forall o :: o in s.signed ==> Descends(s.validated, o.tenant, o.request)
  {}

  /** A further world keeps what the earlier ones established. */
  lemma WorldMore(p: Provider, s: State, w: World)
    requires Inv(p, s) && WorldOk(w) && Remembers(s.worlds[|s.worlds| - 1], w)
    requires forall k :: k in w.consents ==> Backed(s.allows, k.0, k.1, w.consents[k])
    requires Linked(s.worlds[|s.worlds| - 1], w, s.allows)
    ensures Inv(p, s.(worlds := s.worlds + [w]))
  {
    hide Descends, Authorized, Backed, WorldOk, Linked;
    var s' := s.(worlds := s.worlds + [w]);
    forall x | x in s'.worlds ensures WorldOk(x) && Remembers(x, w) {
      if x in s.worlds { assert WorldOk(x) && Remembers(x, s.worlds[|s.worlds| - 1]); }
    }
    forall a | a in s.allows ensures AllowOk(s', a) { assert AllowOk(s, a); }
    forall i | 0 <= i < |s.grants| ensures GrantOk(p, s', s.grants[i]) {
      assert GrantOk(p, s, s.grants[i]);
      FromLongerRun(s.worlds, w, s.grants[i].views);
    }
  }

  lemma FromLongerRun(worlds: seq<World>, w: World, v: Views)
    requires FromRun(worlds, v)
    ensures FromRun(worlds + [w], v)
  { assert (worlds + [w])[v.arrived..] == worlds[v.arrived..] + [w]; }

  lemma EnvironmentKeeps(p: Provider, s: State, w: World)
    requires Inv(p, s) && Evolves(s.worlds[|s.worlds| - 1], w)
    ensures Inv(p, s.(worlds := s.worlds + [w]))
  {
    hide WorldOk, Descends, Authorized;
    var last := s.worlds[|s.worlds| - 1];
    forall k | k in w.consents ensures Backed(s.allows, k.0, k.1, w.consents[k]) {
      assert last in s.worlds && k in last.consents && Backed(s.allows, k.0, k.1, last.consents[k]);
    }
    WorldMore(p, s, w);
  }

  lemma AllowMore(p: Provider, s: State, a: Allow)
    requires Inv(p, s) && AllowOk(s, a)
    ensures Inv(p, s.(allows := s.allows + {a}))
  {
    hide Descends, Authorized, WorldsOk, FromRun;
    var s' := s.(allows := s.allows + {a});
    forall b | b in s'.allows ensures AllowOk(s', b) { assert AllowOk(s, b); }
    forall w, k | w in s.worlds && k in w.consents ensures Backed(s'.allows, k.0, k.1, w.consents[k]) {
      assert Backed(s.allows, k.0, k.1, w.consents[k]);
    }
    forall i | 0 <= i < |s.grants| ensures GrantOk(p, s', s.grants[i]) { assert GrantOk(p, s, s.grants[i]); }
    forall m | 0 < m < |s.worlds| ensures Linked(s.worlds[m - 1], s.worlds[m], s'.allows) {
      assert Linked(s.worlds[m - 1], s.worlds[m], s.allows);
      LinkedMore(s.worlds[m - 1], s.worlds[m], s.allows, a);
    }
  }

  lemma LinkedMore(w: World, w': World, allows: set<Allow>, a: Allow)
    requires Linked(w, w', allows)
    ensures Linked(w, w', allows + {a})
  { hide Evolves, Recorded; }

  /** A consent row belongs to the tenant of its client, so an allow never meets a row of another tenant. */
  lemma ConsentTenantIsClients(p: Provider, s: State, w: World, user: User, a: Allow)
    requires Inv(p, s) && w in s.worlds && (user, a.client) in w.consents && AllowOk(s, a)
    ensures w.consents[(user, a.client)].tenant == a.tenant
  {
    hide Descends, Authorized;
    assert Backed(s.allows, user, a.client, w.consents[(user, a.client)]);
    var b :| b in s.allows && b.user == user && b.client == a.client && b.tenant == w.consents[(user, a.client)].tenant;
    assert AllowOk(s, b) && s.worlds[|s.worlds| - 1] in s.worlds && WorldOk(s.worlds[|s.worlds| - 1]);
  }

  lemma RecordKeeps(p: Provider, s: State, a: Allow)
    requires Inv(p, s) && AllowOk(s, a) && a in s.allows
    ensures var last := s.worlds[|s.worlds| - 1];
            Inv(p, s.(worlds := s.worlds + [Recorded(last, a.tenant, a.user, a.client, a.request.scope)]))
  {
    hide Descends, Authorized, AllowOk;
    var last := s.worlds[|s.worlds| - 1];
    var w := Recorded(last, a.tenant, a.user, a.client, a.request.scope);
    assert last in s.worlds && WorldOk(last);
    if (a.user, a.client) in last.consents { ConsentTenantIsClients(p, s, last, a.user, a); }
    forall k | k in w.consents ensures Backed(s.allows, k.0, k.1, w.consents[k]) {
      if k != (a.user, a.client) { assert Backed(s.allows, k.0, k.1, last.consents[k]); }
    }
    WorldMore(p, s, w);
  }

  /** A decision that is recorded is in order. */
  lemma DecideOk(p: Provider, s: State, e: Event)
    requires Lawful(p.signer) && Inv(p, s) && e.Decision? && Enabled(p, s, e)
    requires Decide(p, Seen(s.worlds, e.at), e.tenant, e.decision, e.token, e.cookie).Some?
    ensures AllowOk(s, Decide(p, Seen(s.worlds, e.at), e.tenant, e.decision, e.token, e.cookie).value)
  {
    hide Issue, Parse, LiveUser, Descends, Genuine, Lawful, Authorized, Backed;
    var v := Seen(s.worlds, e.at);
    GenuineDescends(p, s, e.token, v.token.now);
    assert v.request in s.worlds && WorldOk(v.request) && Remembers(v.request, s.worlds[|s.worlds| - 1]);
  }

  lemma DecisionKeeps(p: Provider, s: State, e: Event)
    requires Lawful(p.signer) && Inv(p, s) && e.Decision? && Enabled(p, s, e)
    ensures Inv(p, Effect(p, s, e))
  {
    hide Inv, Decide, Genuine, Lawful, AllowOk, Recorded;
    var d := Decide(p, Seen(s.worlds, e.at), e.tenant, e.decision, e.token, e.cookie);
    var s' := Effect(p, s, e);
    if d.Some? {
      DecideOk(p, s, e);
      AllowMore(p, s, d.value);
      var t := s.(allows := s.allows + {d.value});
      assert AllowOk(t, d.value) by { AllowStays(s, t, d.value); }
      RecordKeeps(p, t, d.value);
      RepliesDoNotMatter(p, t.(worlds := s'.worlds), s'.replies);
    } else {
      RepliesDoNotMatter(p, s, s'.replies);
    }
  }

  lemma AllowStays(s: State, t: State, a: Allow)
    requires AllowOk(s, a) && t.validated == s.validated && t.worlds == s.worlds
    ensures AllowOk(t, a)
  { hide Descends; }

  lemma RepliesDoNotMatter(p: Provider, s: State, replies: seq<Reply>)
    requires Inv(p, s)
    ensures Inv(p, s.(replies := replies))
  {
    hide Descends, Authorized, Backed, WorldsOk, FromRun, Chained;
    var s' := s.(replies := replies);
    forall a | a in s.allows ensures AllowOk(s', a) { assert AllowOk(s, a); }
    forall i | 0 <= i < |s.grants| ensures GrantOk(p, s', s.grants[i]) { assert GrantOk(p, s, s.grants[i]); }
  }

  lemma StepKeepsInv(p: Provider, s: State, e: Event)
    requires Lawful(p.signer) && Inv(p, s)
    ensures Inv(p, Step(p, s, e))
  {
    hide Inv, Lawful, Decide, Resume, Authorize, Evolves, Genuine;
    if Enabled(p, s, e) {
      match e
      case Fresh(_, _, _, _) => FreshKeeps(p, s, e);
      case Resumed(_, _, _, _) => ResumedKeeps(p, s, e);
      case Environment(w) => EnvironmentKeeps(p, s, w);
      case Decision(_, _, _, _, _) => DecisionKeeps(p, s, e);
    }
  }

  lemma {:induction false} RunKeepsInv(p: Provider, s: State, events: seq<Event>)
    requires Lawful(p.signer) && Inv(p, s)
    ensures Inv(p, Run(p, s, events))
    decreases |events|
  {
    hide Inv, Step, Lawful;
    if events != [] {
      RunKeepsInv(p, s, events[..|events| - 1]);
      StepKeepsInv(p, Run(p, s, events[..|events| - 1]), events[|events| - 1]);
    }
  }

  lemma InitialInv(p: Provider, s: State)
    requires Initial(s)
    ensures Inv(p, s)
  {}

  /** The allow behind a code: the same user, client and tenant, the scopes covered, from a validated request. */
  ghost predicate AllowedBy(s: State, g: Grant, a: Allow) {
    && a in s.allows && a.tenant == g.tenant && a.user == g.user && a.client == g.client
    && a.request.clientId == g.request.clientId && (forall x :: x in g.request.scope ==> x in a.request.scope)
    && Descends(s.validated, a.tenant, a.request)
  }

  /** A row id belongs to one client id. */
  lemma SameClientId(s: State, w: World, id: text, a: Allow)
    requires WorldsOk(s.worlds) && w in s.worlds && AllowOk(s, a) && id in w.clients && w.clients[id].uuid == a.client
    ensures id == a.request.clientId && w.clients[id].tenant == a.tenant
  {
    hide Descends;
    var last := s.worlds[|s.worlds| - 1];
    assert last in s.worlds && WorldOk(w) && Remembers(w, last) && WorldOk(last);
  }

  /** A consent that lets a grant through was backed by an allow for its scopes. */
  lemma ConsentHasAllow(allows: set<Allow>, w: World, g: Grant) returns (a: Allow)
    requires ConsentAllows(w, g) && Backed(allows, g.user, g.client, w.consents[(g.user, g.client)])
    ensures a in allows && a.tenant == g.tenant && a.user == g.user && a.client == g.client
    ensures forall x :: x in g.request.scope ==> x in a.request.scope
  {
    var c := w.consents[(g.user, g.client)];
    a :| a in allows && a.user == g.user && a.client == g.client && a.tenant == c.tenant && a.request.scope == c.scopes;
  }

  lemma GrantHasAllow(p: Provider, s: State, g: Grant) returns (a: Allow)
    requires Inv(p, s) && GrantOk(p, s, g)
    ensures AllowedBy(s, g, a)
  {
    hide Descends, WorldsOk, Backed, ConsentAllows;
    var v := g.views;
    assert v.consent in s.worlds && v.code in s.worlds;
    assert (g.user, g.client) in v.consent.consents by { ConsentExists(v.consent, g); }
    a := ConsentHasAllow(s.allows, v.consent, g);
    assert AllowOk(s, a);
    SameClientId(s, v.code, g.request.clientId, a);
  }

  lemma ConsentExists(w: World, g: Grant)
    requires ConsentAllows(w, g)
    ensures (g.user, g.client) in w.consents
  {}

  /**
   Every code of every run was granted for a request validated earlier in the same tenant: the same client, redirect
   URI, scope, state, nonce and challenge, exactly if that request is well-formed UTF-8 and as JSON carries them in any
   case. The worlds of the run held an open tenant, a live session of the user, the client and its consent when each was
   read, and that consent was written by an earlier allow of the same user for the same client and these scopes, which
   itself descends from a validated request.
   */
  lemma EveryCodeWasAskedFor(p: Provider, s: State, events: seq<Event>, i: nat)
    requires Lawful(p.signer) && Initial(s) && i < |Run(p, s, events).grants|
    ensures var r := Run(p, s, events); var g := r.grants[i];
            && Authorized(p, g) && FromRun(r.worlds, g.views)
            && (exists a :: AllowedBy(r, g, a))
            && (exists r0 :: (g.tenant, r0) in r.validated && (g.request == r0 || g.request == CoercedRequest(r0))
                             && (WellFormedRequest(r0) ==> g.request == r0))
  {
    hide Run, CoercedRequest, WellFormedRequest, Authorized, Lawful, FromRun, WorldsOk, ConsentsBacked, AllowedBy;
    InitialInv(p, s);
    RunKeepsInv(p, s, events);
    var r := Run(p, s, events);
    var g := r.grants[i];
    assert GrantOk(p, r, g);
    var a := GrantHasAllow(p, r, g);
    var r0 :| (g.tenant, r0) in r.validated && (g.request == r0 || g.request == CoercedRequest(r0));
    CoercedRequestIdentity(r0);
  }

  /** What counts as validated came in as a request while the tenant was open, and passed the checks. */
  lemma {:induction false} ValidatedFromRequest(p: Provider, s: State, events: seq<Event>, x: (tenantId, Request))
    returns (k: nat)
    requires x in Run(p, s, events).validated && x !in s.validated
    ensures k < |events| && events[k].Fresh? && (events[k].tenant, events[k].request) == x &&
            Enabled(p, Run(p, s, events[..k]), events[k])
    ensures var v := Seen(Run(p, s, events[..k]).worlds, events[k].at);
            Open(v.gate, x.0) && Validated(p, v.request, x.0, x.1).Some?
    decreases |events|
  {
    hide Decide, Resume, Authorize, Recorded, Genuine, Validated, Open;
    var n := |events| - 1;
    if x in Run(p, s, events[..n]).validated {
      k := ValidatedFromRequest(p, s, events[..n], x);
      assert events[..n][..k] == events[..k];
    } else {
      k := n;
    }
  }

  // Where allows come from.

  ghost predicate Allowing(e: Event) { e.Decision? && (e.decision == "" || e.decision == "allow") }

  /** Every allow of a run was recorded by a decision event that allows. */
  lemma {:induction false} AllowFromDecision(p: Provider, s: State, events: seq<Event>, a: Allow) returns (k: nat)
    requires a in Run(p, s, events).allows && a !in s.allows
    ensures k < |events| && Allowing(events[k]) && events[k].tenant == a.tenant &&
            Enabled(p, Run(p, s, events[..k]), events[k])
    ensures var e := events[k];
            Decide(p, Seen(Run(p, s, events[..k]).worlds, e.at), e.tenant, e.decision, e.token, e.cookie) == Some(a)
    decreases |events|
  {
    hide Decide, Resume, Authorize, Recorded, Genuine;
    var n := |events| - 1;
    var before := Run(p, s, events[..n]);
    if a in before.allows {
      k := AllowFromDecision(p, s, events[..n], a);
      assert events[..n][..k] == events[..k];
    } else {
      k := n;
      var e := events[n];
      DecideExactly(p, Seen(before.worlds, e.at), e.tenant, e.decision, e.token, e.cookie);
      DecideTenant(p, Seen(before.worlds, e.at), e.tenant, e.decision, e.token, e.cookie);
    }
  }

  lemma DecideTenant(p: Provider, v: Views, tenant: tenantId, decision: text, token: text, cookie: Option<Cookie>)
    requires Decide(p, v, tenant, decision, token, cookie).Some?
    ensures Decide(p, v, tenant, decision, token, cookie).value.tenant == tenant
  { hide Parse; }

  /** A run in which nobody allows anything grants nothing. */
  lemma NoAllowNoCode(p: Provider, s: State, events: seq<Event>)
    requires Lawful(p.signer) && Initial(s) && forall k :: 0 <= k < |events| ==> !Allowing(events[k])
    ensures Run(p, s, events).allows == {} && Run(p, s, events).grants == []
  {
    hide Run, Lawful, Authorized, FromRun, WorldsOk, ConsentsBacked, Chained, Descends, Seen, Enabled, Decide,
        CoercedRequest, WellFormedRequest;
    var r := Run(p, s, events);
    if a :| a in r.allows { var k := AllowFromDecision(p, s, events, a); }
    if r.grants != [] { EveryCodeWasAskedFor(p, s, events, 0); }
  }

  // Getting through.

  /** An upsert takes effect unless the row belongs to another tenant; it replaces what was granted before. */
  lemma AllowTakes(w: World, tenant: tenantId, user: User, client: Uuid, scope: seq<text>, requested: seq<text>)
    ensures Consented(Recorded(w, tenant, user, client, scope), tenant, user, client, requested) <==>
            ((user, client) in w.consents ==> w.consents[(user, client)].tenant == tenant) && Covers(requested, scope)
  {}

  /** In a run the exception never arises: an allow takes effect whatever was there, for exactly its scopes. */
  lemma EveryAllowTakes(p: Provider, s: State, a: Allow, requested: seq<text>)
    requires Inv(p, s) && AllowOk(s, a)
    ensures Consented(Recorded(s.worlds[|s.worlds| - 1], a.tenant, a.user, a.client, a.request.scope), a.tenant, a.user,
                      a.client, requested)
       <==> Covers(requested, a.request.scope)
  {
    hide Inv, Consented, Covers, Recorded, Descends;
    var last := s.worlds[|s.worlds| - 1];
    AllowTakes(last, a.tenant, a.user, a.client, a.request.scope, requested);
    if (a.user, a.client) in last.consents { ConsentTenantIsClients(p, s, last, a.user, a); }
  }

  ghost predicate Ready(p: Provider, w: World, tenant: tenantId, r: Request, client: Client) {
    Open(w, tenant) && Validated(p, w, tenant, r) == Some(client)
  }

  /** A resumed request in a world that is ready for it, within the token's life. */
  lemma ResumeReady(p: Provider, n: nat, w: World, tenant: tenantId, r: Request, client: Client, issued: int,
                    user: User,
                    cookie: Option<Cookie>)
    requires Lawful(p.signer) && WellFormedRequest(r) && Ready(p, w, tenant, r, client)
    requires LiveUser(w, tenant, cookie) == Some(user) && w.now <= issued + 600 * SECOND
    ensures Resume(p, Still(n, w), tenant, Ask(p, tenant, r, issued), cookie) ==
            if Consented(w, tenant, user, client.uuid, r.scope)
            then Outcome(Code(Grant(tenant, user, client.uuid, r, cookie, Still(n, w))), {})
            else Outcome(ToConsent(Ask(p, tenant, r, w.now)), {Origin(tenant, r, w.now)})
  {
    hide Issue, Parse, WellFormedRequest, Consented, LiveUser, Validated, CoercedRequest;
    ParseIssued(p.signer, tenant, r, issued, w.now);
  }

  /** Without a session a resumed request goes to the login page with the same token. */
  lemma ResumeNeedsLogin(p: Provider, n: nat, w: World, tenant: tenantId, r: Request, issued: int,
                         cookie: Option<Cookie>)
    requires Lawful(p.signer) && Open(w, tenant) && LiveUser(w, tenant, cookie).None? && w.now <= issued + 600 * SECOND
    ensures Resume(p, Still(n, w), tenant, Ask(p, tenant, r, issued), cookie)
            == Outcome(ToLogin(Ask(p, tenant, r, issued)), {})
  {
    hide Issue, Parse, WellFormedRequest, LiveUser, CoercedRequest;
    ParseIssued(p.signer, tenant, r, issued, w.now);
  }

  /** A fresh request of a signed-in user is granted or goes to the consent page at once. */
  lemma FreshReady(p: Provider, n: nat, w: World, tenant: tenantId, r: Request, client: Client, user: User,
                   cookie: Option<Cookie>)
    requires Ready(p, w, tenant, r, client) && LiveUser(w, tenant, cookie) == Some(user)
    ensures Authorize(p, Still(n, w), tenant, r, cookie) ==
            if Consented(w, tenant, user, client.uuid, r.scope)
            then Outcome(Code(Grant(tenant, user, client.uuid, r, cookie, Still(n, w))), {})
            else Outcome(ToConsent(Ask(p, tenant, r, w.now)), {Origin(tenant, r, w.now)})
  { hide Issue, Consented, LiveUser, Validated; }

  lemma AllowReady(p: Provider, n: nat, w: World, tenant: tenantId, r: Request, client: Client, issued: int, user: User,
                   cookie: Option<Cookie>)
    requires Lawful(p.signer) && WellFormedRequest(r)
    requires r.clientId in w.clients && w.clients[r.clientId] == client && client.tenant == tenant
    requires LiveUser(w, tenant, cookie) == Some(user) && w.now <= issued + 600 * SECOND
    ensures Decide(p, Still(n, w), tenant, "allow", Ask(p, tenant, r, issued), cookie)
            == Some(Allow(tenant, user, client.uuid, r))
  {
    hide Issue, Parse, WellFormedRequest, LiveUser, CoercedRequest;
    ParseIssued(p.signer, tenant, r, issued, w.now);
  }

  /** All reads at one moment. */
  function At(n: nat): Reads { Reads(n, n, n, n, n, n, n, n) }

  lemma SeenAt(worlds: seq<World>, n: nat)
    requires n < |worlds|
    ensures Past(At(n), |worlds|) && Seen(worlds, At(n)) == Still(n, worlds[n])
  {}

  lemma SignedIsGenuine(p: Provider, signed: set<Origin>, tenant: tenantId, r: Request, now: int)
    requires Lawful(p.signer) && Origin(tenant, r, now) in signed
    ensures Genuine(p, signed, Ask(p, tenant, r, now))
  {
    hide VerifiedPayload, EncodedPayload, Issue, Signs;
    IssuedVerifies(p.signer, tenant, r, now);
    forall payload: text, signature: text | Signs(p.signer, Ask(p, tenant, r, now), payload, signature)
      ensures payload == EncodedPayload(p.signer, tenant, r, now)
    { VerifiedExactly(p.signer, Ask(p, tenant, r, now), payload); }
  }

  /** The first request: no session yet, so off to the login page. */
  lemma AskStep(p: Provider, s: State, tenant: tenantId, r: Request, client: Client)
    requires s.worlds != [] && Ready(p, s.worlds[|s.worlds| - 1], tenant, r, client)
    ensures var w := s.worlds[|s.worlds| - 1];
            Step(p, s, Fresh(tenant, r, None, At(|s.worlds| - 1))) ==
            s.(validated := s.validated + {(tenant, r)}, signed := s.signed + {Origin(tenant, r, w.now)},
               replies := s.replies + [ToLogin(Ask(p, tenant, r, w.now))])
  {
    hide Issue, Validated;
    SeenAt(s.worlds, |s.worlds| - 1);
  }

  lemma BackStep(p: Provider, s: State, w: World)
    requires s.worlds != [] && Evolves(s.worlds[|s.worlds| - 1], w)
    ensures Step(p, s, Environment(w)) == s.(worlds := s.worlds + [w])
  {}

  lemma ResumeStep(p: Provider, s: State, tenant: tenantId, r: Request, client: Client, issued: int, user: User,
                   cookie: Option<Cookie>)
    requires Lawful(p.signer) && WellFormedRequest(r) && Origin(tenant, r, issued) in s.signed
    requires s.worlds != [] && Ready(p, s.worlds[|s.worlds| - 1], tenant, r, client)
    requires LiveUser(s.worlds[|s.worlds| - 1], tenant, cookie) == Some(user)
    requires s.worlds[|s.worlds| - 1].now <= issued + 600 * SECOND
    ensures var w := s.worlds[|s.worlds| - 1];
            Step(p, s, Resumed(tenant, Ask(p, tenant, r, issued), cookie, At(|s.worlds| - 1))) ==
            After(s, if Consented(w, tenant, user, client.uuid, r.scope)
                     then Outcome(Code(Grant(tenant, user, client.uuid, r, cookie, Still(|s.worlds| - 1, w))), {})
                     else Outcome(ToConsent(Ask(p, tenant, r, w.now)), {Origin(tenant, r, w.now)}))
  {
    hide Issue, Resume, Genuine, WellFormedRequest, Consented, LiveUser, Ready, Seen, Past, Lawful, After;
    SeenAt(s.worlds, |s.worlds| - 1);
    SignedIsGenuine(p, s.signed, tenant, r, issued);
    ResumeReady(p, |s.worlds| - 1, s.worlds[|s.worlds| - 1], tenant, r, client, issued, user, cookie);
  }

  lemma ReadyHasClient(p: Provider, w: World, tenant: tenantId, r: Request, client: Client)
    requires Ready(p, w, tenant, r, client)
    ensures r.clientId in w.clients && w.clients[r.clientId] == client && client.tenant == tenant
  {}

  lemma AllowStep(p: Provider, s: State, tenant: tenantId, r: Request, client: Client, issued: int, user: User,
                  cookie: Option<Cookie>)
    requires Lawful(p.signer) && WellFormedRequest(r) && Origin(tenant, r, issued) in s.signed
    requires s.worlds != [] && Ready(p, s.worlds[|s.worlds| - 1], tenant, r, client)
    requires LiveUser(s.worlds[|s.worlds| - 1], tenant, cookie) == Some(user)
    requires s.worlds[|s.worlds| - 1].now <= issued + 600 * SECOND
    ensures Step(p, s, Decision(tenant, "allow", Ask(p, tenant, r, issued), cookie, At(|s.worlds| - 1))) ==
            AfterAllow(s, Allow(tenant, user, client.uuid, r), Ask(p, tenant, r, issued))
  {
    hide Issue, Decide, Genuine, WellFormedRequest, LiveUser, Ready, Seen, Past, Lawful, AfterAllow;
    SeenAt(s.worlds, |s.worlds| - 1);
    SignedIsGenuine(p, s.signed, tenant, r, issued);
    ReadyHasClient(p, s.worlds[|s.worlds| - 1], tenant, r, client);
    AllowReady(p, |s.worlds| - 1, s.worlds[|s.worlds| - 1], tenant, r, client, issued, user, cookie);
  }

  /** The worlds of the four requests: the tenant is open, the client as it was, the user signed in after the first. */
  ghost predicate Favourable(p: Provider, tenant: tenantId, r: Request, client: Client, user: User,
                             cookie: Option<Cookie>,
                             asked: World, back: World, allowed: World, again: World)
  {
    && Ready(p, asked, tenant, r, client) && Ready(p, back, tenant, r, client)
    && Ready(p, allowed, tenant, r, client) && Ready(p, again, tenant, r, client)
    && LiveUser(back, tenant, cookie) == LiveUser(allowed, tenant, cookie) == LiveUser(again, tenant, cookie)
        == Some(user)
    && back.now <= asked.now + 600 * SECOND && allowed.now <= back.now + 600 * SECOND &&
        again.now <= back.now + 600 * SECOND
    && Evolves(asked, back) && Evolves(back, allowed)
    && Evolves(Recorded(allowed, tenant, user, client.uuid, r.scope), again)
    && (user, client.uuid) in again.consents && !again.consents[(user, client.uuid)].revoked
  }

  function UpToLogin(p: Provider, n: nat, tenant: tenantId, r: Request, cookie: Option<Cookie>, asked: World,
                     back: World): seq<Event>
    requires n > 0
  { [Fresh(tenant, r, None, At(n - 1)), Environment(back),
     Resumed(tenant, Ask(p, tenant, r, asked.now), cookie, At(n))] }

  function UpToConsent(p: Provider, n: nat, tenant: tenantId, r: Request, cookie: Option<Cookie>, back: World,
                       allowed: World, again: World)
    : seq<Event>
  {
    [Environment(allowed), Decision(tenant, "allow", Ask(p, tenant, r, back.now), cookie, At(n + 1)),
     Environment(again),
     Resumed(tenant, Ask(p, tenant, r, back.now), cookie, At(n + 3))]
  }

  lemma RunThree(p: Provider, s: State, x: Event, y: Event, z: Event)
    ensures Run(p, s, [x, y, z]) == Step(p, Step(p, Step(p, s, x), y), z)
  {
    hide Step;
    assert [x, y, z][..2] == [x, y] && [x, y][..1] == [x] && [x][..0] == [];
    assert Run(p, s, [x]) == Step(p, s, x);
    assert Run(p, s, [x, y]) == Step(p, Step(p, s, x), y);
  }

  lemma RunFour(p: Provider, s: State, x: Event, y: Event, z: Event, u: Event)
    ensures Run(p, s, [x, y, z, u]) == Step(p, Step(p, Step(p, Step(p, s, x), y), z), u)
  {
    hide Step;
    assert [x, y, z, u][..3] == [x, y, z];
    RunThree(p, s, x, y, z);
  }

  /** From the request to the way back from the login page. */
  lemma LoginRun(p: Provider, s: State, tenant: tenantId, r: Request, client: Client, user: User,
                 cookie: Option<Cookie>,
                 back: World, allowed: World, again: World)
    requires Lawful(p.signer) && WellFormedRequest(r) && s.worlds != []
    requires Favourable(p, tenant, r, client, user, cookie, s.worlds[|s.worlds| - 1], back, allowed, again)
    ensures var n, asked := |s.worlds|, s.worlds[|s.worlds| - 1];
            var r3 := Run(p, s, UpToLogin(p, n, tenant, r, cookie, asked, back));
            && r3.worlds == s.worlds + [back]
            && (if Consented(back, tenant, user, client.uuid, r.scope)
                then r3.replies == s.replies + [ToLogin(Ask(p, tenant, r, asked.now)),
                                                Code(Grant(tenant, user, client.uuid, r, cookie, Still(n, back)))]
                else r3.replies == s.replies + [ToLogin(Ask(p, tenant, r, asked.now)),
                                                ToConsent(Ask(p, tenant, r, back.now))]
                     && Origin(tenant, r, back.now) in r3.signed)
  {
    hide Step, Issue, WellFormedRequest, Consented, LiveUser, Ready, Lawful, Evolves, Recorded;
    var n, asked := |s.worlds|, s.worlds[|s.worlds| - 1];
    var e1, e2, e3 := Fresh(tenant, r, None, At(n - 1)), Environment(back),
        Resumed(tenant, Ask(p, tenant, r, asked.now), cookie, At(n));
    AskStep(p, s, tenant, r, client);
    var s1 := Step(p, s, e1);
    BackStep(p, s1, back);
    var s2 := Step(p, s1, e2);
    ResumeStep(p, s2, tenant, r, client, asked.now, user, cookie);
    RunThree(p, s, e1, e2, e3);
    assert s1.replies == s.replies + [ToLogin(Ask(p, tenant, r, asked.now))];
  }

  /** From the consent page to the code. */
  lemma ConsentRun(p: Provider, s: State, tenant: tenantId, r: Request, client: Client, user: User,
                   cookie: Option<Cookie>,
                   asked: World, back: World, allowed: World, again: World)
    requires Lawful(p.signer) && WellFormedRequest(r) && Inv(p, s)
    requires Favourable(p, tenant, r, client, user, cookie, asked, back, allowed, again)
    requires |s.worlds| > 1 && s.worlds[|s.worlds| - 1] == back && Origin(tenant, r, back.now) in s.signed
    ensures var r4 := Run(p, s, UpToConsent(p, |s.worlds| - 1, tenant, r, cookie, back, allowed, again));
            r4.replies == s.replies + [Allowed(Ask(p, tenant, r, back.now)),
                                       Code(Grant(tenant, user, client.uuid, r, cookie, Still(|s.worlds| + 2, again)))]
  {
    hide Step, Issue, WellFormedRequest, Consented, LiveUser, Ready, Lawful, Evolves, Recorded, Inv;
    var n := |s.worlds| - 1;
    var t := Ask(p, tenant, r, back.now);
    var a := Allow(tenant, user, client.uuid, r);
    BackStep(p, s, allowed);
    var s1 := Step(p, s, Environment(allowed));
    StepKeepsInv(p, s, Environment(allowed));
    AllowStep(p, s1, tenant, r, client, back.now, user, cookie);
    var s2 := Step(p, s1, Decision(tenant, "allow", t, cookie, At(n + 1)));
    StepKeepsInv(p, s1, Decision(tenant, "allow", t, cookie, At(n + 1)));
    assert a in s2.allows;
    BackStep(p, s2, again);
    var s3 := Step(p, s2, Environment(again));
    ConsentStays(p, s2, a, allowed, again);
    ResumeStep(p, s3, tenant, r, client, back.now, user, cookie);
    RunFour(p, s, Environment(allowed), Decision(tenant, "allow", t, cookie, At(n + 1)), Environment(again),
            Resumed(tenant, t, cookie, At(n + 3)));
    assert s2.replies == s.replies + [Allowed(t)];
  }

  /** The consent just written is still there for the last request. */
  lemma ConsentStays(p: Provider, s: State, a: Allow, allowed: World, again: World)
    requires Inv(p, s) && a in s.allows &&
             s.worlds[|s.worlds| - 1] == Recorded(allowed, a.tenant, a.user, a.client, a.request.scope)
    requires Evolves(s.worlds[|s.worlds| - 1], again) && (a.user, a.client) in again.consents &&
             !again.consents[(a.user, a.client)].revoked
    ensures Consented(again, a.tenant, a.user, a.client, a.request.scope)
  {
    hide Descends, Authorized, WorldOk, Remembers;
    var last := s.worlds[|s.worlds| - 1];
    assert last in s.worlds && AllowOk(s, a);
    ConsentTenantIsClients(p, s, last, a.user, a);
  }

  /**
   With a login and an allow, a run needs two redirects at most: the request goes to the login page, comes back and is
   granted, or goes to the consent page, is allowed, comes back and is granted, for exactly the original request. The
   worlds in between may change in everything but what makes the request acceptable.
   */
  lemma TwoRedirects(p: Provider, s: State, tenant: tenantId, r: Request, client: Client, user: User,
                     cookie: Option<Cookie>,
                     back: World, allowed: World, again: World)
    requires Lawful(p.signer) && WellFormedRequest(r) && Inv(p, s)
    requires Favourable(p, tenant, r, client, user, cookie, s.worlds[|s.worlds| - 1], back, allowed, again)
    ensures var n, asked := |s.worlds|, s.worlds[|s.worlds| - 1];
            var login := UpToLogin(p, n, tenant, r, cookie, asked, back);
            var consent := UpToConsent(p, n, tenant, r, cookie, back, allowed, again);
            var toLogin, toConsent := ToLogin(Ask(p, tenant, r, asked.now)), ToConsent(Ask(p, tenant, r, back.now));
            || Run(p, s, login).replies == s.replies + [toLogin,
                                                        Code(Grant(tenant, user, client.uuid, r, cookie,
                                                                   Still(n, back)))]
            || Run(p, s, login + consent).replies == s.replies +
                 [toLogin, toConsent, Allowed(toConsent.token),
                  Code(Grant(tenant, user, client.uuid, r, cookie, Still(n + 3, again)))]
  {
    hide Run, Issue, WellFormedRequest, Consented, Favourable, Lawful, Inv;
    InvWorlds(p, s);
    var n, asked := |s.worlds|, s.worlds[|s.worlds| - 1];
    var login := UpToLogin(p, n, tenant, r, cookie, asked, back);
    var consent := UpToConsent(p, n, tenant, r, cookie, back, allowed, again);
    LoginRun(p, s, tenant, r, client, user, cookie, back, allowed, again);
    if !Consented(back, tenant, user, client.uuid, r.scope) {
      RunKeepsInv(p, s, login);
      ConsentRun(p, Run(p, s, login), tenant, r, client, user, cookie, asked, back, allowed, again);
      RunConcat(p, s, login, consent);
    }
  }

  lemma InvWorlds(p: Provider, s: State)
    requires Inv(p, s)
    ensures s.worlds != []
  {}

  lemma {:induction false} RunConcat(p: Provider, s: State, a: seq<Event>, b: seq<Event>)
    ensures Run(p, s, a + b) == Run(p, Run(p, s, a), b)
    decreases |b|
  {
    hide Step;
    if b == [] {
      assert a + b == a;
    } else {
      RunConcat(p, s, a, b[..|b| - 1]);
      assert (a + b)[..|a + b| - 1] == a + b[..|b| - 1];
    }
  }

  // Gone before the arrival.

  /** A revoked session stays revoked. */
  lemma {:induction false} RevokedStays(worlds: seq<World>, allows: set<Allow>, i: nat, j: nat, cookie: Cookie)
    requires Chained(worlds, allows) && i <= j < |worlds|
    requires cookie in worlds[i].sessions && worlds[i].sessions[cookie].revoked
    ensures cookie in worlds[j].sessions && worlds[j].sessions[cookie].revoked
    decreases j - i
  {
    hide WorldOk, Remembers;
    if i < j {
      RevokedStays(worlds, allows, i, j - 1, cookie);
      assert Linked(worlds[j - 1], worlds[j], allows);
    }
  }

  predicate Standing(w: World, user: User, client: Uuid) {
    (user, client) in w.consents && !w.consents[(user, client)].revoked
  }

  /** World `m` is the one in which an allow of this user for this client was recorded. */
  ghost predicate AllowedAt(worlds: seq<World>, allows: set<Allow>, m: nat, user: User, client: Uuid) {
    0 < m < |worlds| &&
    exists a :: a in allows && a.user == user && a.client == client &&
      worlds[m] == Recorded(worlds[m - 1], a.tenant, a.user, a.client, a.request.scope)
  }

  /** A consent that did not stand and now does was allowed in between. */
  lemma {:induction false} ConsentComesFromAllow(worlds: seq<World>, allows: set<Allow>, i: nat, j: nat, user: User,
                                                 client: Uuid)
    returns (m: nat)
    requires Chained(worlds, allows) && i <= j < |worlds|
    requires !Standing(worlds[i], user, client) && Standing(worlds[j], user, client)
    ensures i < m <= j && AllowedAt(worlds, allows, m, user, client)
    decreases j - i
  {
    hide WorldOk, Remembers;
    if Standing(worlds[j - 1], user, client) {
      m := ConsentComesFromAllow(worlds, allows, i, j - 1, user, client);
    } else {
      assert Linked(worlds[j - 1], worlds[j], allows);
      m := j;
    }
  }

  /**
   No code comes from what was gone before the request arrived: not through a session revoked by then, and not through
   a consent that did not stand at some moment up to then, unless the user allowed the client again afterwards.
   */
  lemma GoneBeforeArrival(p: Provider, s: State, events: seq<Event>, k: nat, i: nat)
    requires Lawful(p.signer) && Initial(s) && k < |Run(p, s, events).grants|
    requires i <= Run(p, s, events).grants[k].views.arrived
    ensures var r := Run(p, s, events); var g := r.grants[k];
            && i < |r.worlds| && g.cookie.Some?
            && !(g.cookie.value in r.worlds[i].sessions && r.worlds[i].sessions[g.cookie.value].revoked)
            && (!Standing(r.worlds[i], g.user, g.client) ==>
                  exists m :: i < m && AllowedAt(r.worlds, r.allows, m, g.user, g.client))
  {
    hide Run, Lawful, WorldsOk, ConsentsBacked, Chained, Descends, ClientAllows;
    InitialInv(p, s);
    RunKeepsInv(p, s, events);
    var r := Run(p, s, events);
    var g := r.grants[k];
    assert GrantOk(p, r, g);
    var later := r.worlds[g.views.arrived..];
    assert g.views.session in later && g.views.consent in later;
    var a :| 0 <= a < |later| && later[a] == g.views.session;
    var b :| 0 <= b < |later| && later[b] == g.views.consent;
    if g.cookie.value in r.worlds[i].sessions && r.worlds[i].sessions[g.cookie.value].revoked {
      RevokedStays(r.worlds, r.allows, i, g.views.arrived + a, g.cookie.value);
    }
    if !Standing(r.worlds[i], g.user, g.client) {
      var m := ConsentComesFromAllow(r.worlds, r.allows, i, g.views.arrived + b, g.user, g.client);
    }
  }
}
