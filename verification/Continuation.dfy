/**
 The signed token that carries an authorization request (section 4.1.1 of RFC 6749) across the login and consent
 redirects. JSON and HMAC-SHA256 are parameters with the laws they satisfy.
 */
module Continuation {
  import opened Prelude
  import opened Base64
  import Text
  import Utf8

  type bytes = seq<byte>

  /** A tenant id is printed as ASCII. */
  type tenantId = t: text | Utf8.Ascii(t) witness []

  datatype Request = Request(clientId: text, redirectUri: text, scope: seq<text>, state: text, nonce: text,
                             challenge: text, challengeMethod: text)

  datatype Continuation = Continuation(tenant: text, request: Request, expiresAt: int)

  const SECOND := 1_000_000_000
  const TTL := 600 * SECOND

  /** Whole seconds since the epoch of an instant in nanoseconds. */
  function Unix(t: int): int { t / SECOND }

  function CoercedAll(fields: seq<text>): seq<text> {
    seq(|fields|, i requires 0 <= i < |fields| => Utf8.Coerced(fields[i]))
  }

  /** A request after its strings went through JSON. */
  function CoercedRequest(r: Request): Request {
    Request(Utf8.Coerced(r.clientId), Utf8.Coerced(r.redirectUri), CoercedAll(r.scope), Utf8.Coerced(r.state),
            Utf8.Coerced(r.nonce), Utf8.Coerced(r.challenge), Utf8.Coerced(r.challengeMethod))
  }

  predicate WellFormedRequest(r: Request) {
    && Utf8.WellFormed(r.clientId) && Utf8.WellFormed(r.redirectUri) &&
        (forall i :: 0 <= i < |r.scope| ==> Utf8.WellFormed(r.scope[i]))
    && Utf8.WellFormed(r.state) && Utf8.WellFormed(r.nonce) && Utf8.WellFormed(r.challenge) &&
        Utf8.WellFormed(r.challengeMethod)
  }

  /** `mac` is HMAC-SHA256 under the master key. */
  datatype Signer = Signer(marshal: Continuation -> bytes, unmarshal: bytes -> Option<Continuation>, mac: text -> bytes)

  ghost predicate Lawful(s: Signer) {
    && (forall c :: s.marshal(c) != [] &&
          s.unmarshal(s.marshal(c)) == Some(Continuation(Utf8.Coerced(c.tenant), CoercedRequest(c.request),
                                                         c.expiresAt)))
    && (forall p :: s.mac(p) != [])
  }

  function EncodedPayload(s: Signer, tenant: tenantId, r: Request, now: int): text {
    EncodeRaw(Url, s.marshal(Continuation(tenant, r, Unix(now + TTL))))
  }

  function Signed(s: Signer, payload: text): text { payload + "." + EncodeRaw(Url, s.mac(payload)) }

  /** `issueOIDCAuthorizeContinuation`. */
  function Issue(s: Signer, tenant: tenantId, r: Request, now: int): text {
    Signed(s, EncodedPayload(s, tenant, r, now))
  }

  /** The payload part of a token whose signature verifies. */
  function VerifiedPayload(s: Signer, token: text): Option<text> {
    var cut := Text.Cut(token, '.');
    if !cut.found || cut.before == "" || cut.after == "" then None
    else
      var payload := token[..|cut.before|];
      if Decode(Url, false, cut.after) == Some(s.mac(payload)) then Some(payload) else None
  }

  /** `parseOIDCAuthorizeContinuation`. */
  function Parse(s: Signer, token: text, now: int): Option<Continuation> {
    match VerifiedPayload(s, token)
    case None => None
    case Some(payload) => Content(s, payload, now)
  }

  function Content(s: Signer, payload: text, now: int): Option<Continuation> {
    match Decode(Url, false, payload)
    case None => None
    case Some(b) =>
      match s.unmarshal(b)
      case None => None
      case Some(c) => if Unix(now) > c.expiresAt then None else Some(c)
  }

  lemma CoercedAllIdentity(fields: seq<text>)
    ensures CoercedAll(fields) == fields <==> forall i :: 0 <= i < |fields| ==> Utf8.WellFormed(fields[i])
  {
    forall i | 0 <= i < |fields| ensures Utf8.Coerced(fields[i]) == fields[i] <==> Utf8.WellFormed(fields[i]) {
      Utf8.CoercedIdentity(fields[i]);
    }
    var all := CoercedAll(fields);
    if all == fields {
      forall i | 0 <= i < |fields| ensures Utf8.WellFormed(fields[i]) { assert all[i] == fields[i]; }
    }
  }

  /** A request comes back unchanged exactly when every field is well-formed UTF-8. */
  lemma CoercedRequestIdentity(r: Request)
    ensures CoercedRequest(r) == r <==> WellFormedRequest(r)
  {
    hide Utf8.Coerced, Utf8.WellFormed, CoercedAll;
    Utf8.CoercedIdentity(r.clientId);
    Utf8.CoercedIdentity(r.redirectUri);
    CoercedAllIdentity(r.scope);
    Utf8.CoercedIdentity(r.state);
    Utf8.CoercedIdentity(r.nonce);
    Utf8.CoercedIdentity(r.challenge);
    Utf8.CoercedIdentity(r.challengeMethod);
  }

  /** A second trip changes nothing more. */
  lemma CoercedTwice(r: Request)
    ensures CoercedRequest(CoercedRequest(r)) == CoercedRequest(r)
  {
    hide Utf8.Coerced, Utf8.WellFormed;
    Utf8.CoercedWellFormed(r.clientId);
    Utf8.CoercedWellFormed(r.redirectUri);
    forall i | 0 <= i < |r.scope| ensures Utf8.WellFormed(CoercedAll(r.scope)[i]) {
      Utf8.CoercedWellFormed(r.scope[i]);
    }
    Utf8.CoercedWellFormed(r.state);
    Utf8.CoercedWellFormed(r.nonce);
    Utf8.CoercedWellFormed(r.challenge);
    Utf8.CoercedWellFormed(r.challengeMethod);
    CoercedRequestIdentity(CoercedRequest(r));
  }

  lemma NoDot(s: string)
    requires InAlphabet(Url, s)
    ensures '.' !in s
  {}

  /** A token is a payload, a dot and the MAC of the payload in base64url. */
  ghost predicate Signs(s: Signer, token: text, payload: text, signature: text) {
    && token == payload + "." + signature && '.' !in payload && payload != "" && signature != ""
    && Decode(Url, false, signature) == Some(s.mac(payload))
  }

  /** Exactly the tokens of this shape verify, each with its one payload. */
  lemma VerifiedExactly(s: Signer, token: text, payload: text)
    ensures VerifiedPayload(s, token) == Some(payload) <==> exists signature :: Signs(s, token, payload, signature)
  {
    hide Decode, Text.Cut;
    var cut := Text.Cut(token, '.');
    if VerifiedPayload(s, token) == Some(payload) {
      assert payload == cut.before;
      var signature: text := token[|payload| + 1..];
      assert signature == cut.after;
      assert Signs(s, token, payload, signature);
    }
    if signature: text :| Signs(s, token, payload, signature) {
      Text.CutAt(payload, signature, '.');
      assert token == payload + ['.'] + signature && token[..|payload|] == payload;
    }
  }

  /**
   Parsing accepts exactly the tokens whose signature is the MAC of their payload and whose payload holds a
   continuation that has not expired, and yields that continuation.
   */
  lemma ParseExactly(s: Signer, token: text, now: int, c: Continuation)
    ensures Parse(s, token, now) == Some(c) <==>
            exists payload: text, signature: text, b: bytes ::
              && Signs(s, token, payload, signature)
              && Decode(Url, false, payload) == Some(b) && s.unmarshal(b) == Some(c) &&
                  now / 1_000_000_000 <= c.expiresAt
  {
    hide Decode, VerifiedPayload, Signs;
    var v := VerifiedPayload(s, token);
    if v.Some? { VerifiedExactly(s, token, v.value); }
    if Parse(s, token, now) == Some(c) {
      var signature :| Signs(s, token, v.value, signature);
      var b := Decode(Url, false, v.value).value;
      assert s.unmarshal(b) == Some(c);
    }
    if payload: text, signature: text, b: bytes :|
      && Signs(s, token, payload, signature)
      && Decode(Url, false, payload) == Some(b) && s.unmarshal(b) == Some(c) && now / 1_000_000_000 <= c.expiresAt
    {
      VerifiedExactly(s, token, payload);
    }
  }

  /** An issued token verifies, and its payload is the one that was signed. */
  lemma IssuedVerifies(s: Signer, tenant: tenantId, r: Request, now: int)
    requires Lawful(s)
    ensures VerifiedPayload(s, Issue(s, tenant, r, now)) == Some(EncodedPayload(s, tenant, r, now))
  {
    hide EncodeRaw, Decode, Text.Cut, Utf8.Coerced, CoercedRequest;
    var payload := EncodedPayload(s, tenant, r, now);
    var signature := EncodeRaw(Url, s.mac(payload));
    NoDot(payload);
    Text.CutAt(payload, signature, '.');
    assert Issue(s, tenant, r, now) == payload + ['.'] + signature;
    assert Issue(s, tenant, r, now)[..|payload|] == payload;
    RoundTrip(Url, false, s.mac(payload));
  }

  /**
   The content of an issued payload: the request as JSON carries it, until the whole second it expires in has passed.
   */
  lemma IssuedContent(s: Signer, tenant: tenantId, r: Request, now: int, later: int)
    requires Lawful(s)
    ensures Content(s, EncodedPayload(s, tenant, r, now), later) ==
            if Unix(later) > Unix(now + TTL) then None
                else Some(Continuation(tenant, CoercedRequest(r), Unix(now + TTL)))
  {
    hide EncodeRaw, Decode, CoercedRequest, Utf8.Coerced, Utf8.WellFormed;
    RoundTrip(Url, false, s.marshal(Continuation(tenant, r, Unix(now + TTL))));
    Utf8.AsciiWellFormed(tenant);
    Utf8.CoercedIdentity(tenant);
  }

  /** Age and truncation: up to 600 seconds every token is live, from 601 seconds on none is. */
  lemma Lifetime(now: int, later: int)
    ensures later <= now + 600 * SECOND ==> Unix(later) <= Unix(now + TTL)
    ensures later >= now + 601 * SECOND ==> Unix(later) > Unix(now + TTL)
  {}

  /**
   Parsing an issued token: while it lives, it yields exactly the issued request if that is well-formed UTF-8,
   and never the issued request otherwise.
   */
  lemma ParseIssued(s: Signer, tenant: tenantId, r: Request, now: int, later: int)
    requires Lawful(s)
    ensures later <= now + 600 * SECOND ==>
              Parse(s, Issue(s, tenant, r, now), later)
                  == Some(Continuation(tenant, CoercedRequest(r), Unix(now + TTL)))
    ensures later <= now + 600 * SECOND ==>
              (Parse(s, Issue(s, tenant, r, now), later).value.request == r <==> WellFormedRequest(r))
    ensures later >= now + 601 * SECOND ==> Parse(s, Issue(s, tenant, r, now), later) == None
  {
    hide VerifiedPayload, Content, EncodedPayload, Issue, CoercedRequest, WellFormedRequest;
    IssuedVerifies(s, tenant, r, now);
    IssuedContent(s, tenant, r, now, later);
    Lifetime(now, later);
    CoercedRequestIdentity(r);
  }

  /** A state parameter of one stray byte does not survive the redirect. */
  lemma IllFormedStateIsAltered()
    ensures var r := Request("c", "u", [], [0xFF as char], "", "x", "S256");
            CoercedRequest(r).state == Utf8.REPLACEMENT && CoercedRequest(r) != r
  {
    var b: text := [0xFF as char];
    assert Utf8.Width(b) == 0 && b[1..] == [];
    assert Utf8.Coerced(b) == Utf8.REPLACEMENT + [];
  }
}
