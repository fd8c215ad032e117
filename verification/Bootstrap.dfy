/**
 First boot: setup tokens and the first instance admin. Calls that mint a token or claim one run statement by statement
 and interleave with each other and with everything else; redeeming a token is one statement. Time is in seconds.
 */
module Bootstrap {
  import opened Prelude

  type TokenId = nat
  type AdminId = nat

  const TTL := 24 * 3600

  /** `minter` is history: the call that inserted the token. */
  datatype Token = Token(hash: nat, expires: int, consumed: Option<int>, revoked: Option<int>, minter: nat)

  /**
   Where a minting call stands. `RevokeSetupToken` asks `IsFirstBoot` once itself and then calls `MintSetupToken`,
   which asks again; `again` marks the first of the two.
   */
  datatype Call = CountAdmins(again: bool) | CountTokens(again: bool) | Insert | Returned(minted: bool)

  /**
   Where a claiming call stands: it counts the admins, then claims the token, inserts the admin and commits. The claim
   locks the token's row, so from there on the transaction is one step; the count is not protected by anything.
   */
  datatype Stage = Counting | Counted | Ended
  datatype ClaimCall = ClaimCall(id: TokenId, admin: AdminId, stage: Stage)

  /** `redeemed` and `claimed` are history. */
  datatype Db = Db(tokens: map<TokenId, Token>, admins: set<AdminId>, calls: seq<Call>, claims: seq<ClaimCall>,
                   now: int, redeemed: multiset<TokenId>, claimed: seq<TokenId>)

  datatype Event =
    | Tick(elapsed: nat)
    | Mint
    | Revoke
    | Advance(call: nat, id: TokenId, hash: nat)
    | Redeem(hash: nat)
    | Claim(id: TokenId, admin: AdminId)
    | AdvanceClaim(claim: nat)
    | Invite(admin: AdminId)

  predicate Unused(t: Token) { t.consumed.None? && t.revoked.None? }

  predicate Live(t: Token, now: int) { Unused(t) && t.expires > now }

  predicate AnyLive(db: Db) { exists id :: id in db.tokens && Live(db.tokens[id], db.now) }

  /** The unique indexes: on the hash, and over all tokens that are neither consumed nor revoked. */
  predicate Insertable(tokens: map<TokenId, Token>, id: TokenId, hash: nat) {
    id !in tokens && forall other :: other in tokens ==> !Unused(tokens[other]) && tokens[other].hash != hash
  }

  /** The next statement of a minting call. */
  function Advanced(db: Db, c: nat, id: TokenId, hash: nat): Db
    requires c < |db.calls|
  {
    match db.calls[c]
    case CountAdmins(again) => db.(calls := db.calls[c := if db.admins == {} then CountTokens(again)
                                                     else Returned(false)])
    case CountTokens(again) =>
      db.(calls := db.calls[c := if AnyLive(db) then Returned(false) else if again then CountAdmins(false) else Insert])
    case Insert =>
      if Insertable(db.tokens, id, hash) then
        db.(calls := db.calls[c := Returned(true)], tokens := db.tokens[id := Token(hash, db.now + TTL, None, None, c)])
      else db.(calls := db.calls[c := Returned(false)])
    case Returned(_) => db
  }

  function RevokeAll(db: Db): Db {
    db.(tokens := map id | id in db.tokens :: if Unused(db.tokens[id]) then db.tokens[id].(revoked := Some(db.now))
        else db.tokens[id])
  }

  /** `RedeemSetupToken`. */
  function Redeemed(db: Db, hash: nat): Db {
    var ids := set id | id in db.tokens && db.tokens[id].hash == hash && Live(db.tokens[id], db.now);
    db.(tokens := map id | id in db.tokens :: if id in ids then db.tokens[id].(consumed := Some(db.now))
        else db.tokens[id],
        redeemed := db.redeemed + multiset(ids))
  }

  predicate Claimable(db: Db, id: TokenId) {
    && id in db.tokens
    && db.tokens[id].consumed.Some? && db.tokens[id].revoked.None? && db.tokens[id].expires > db.now
  }

  /** The claim, the insertion and the commit of `createFirstInstanceAdmin`. */
  function Claimed(db: Db, id: TokenId, admin: AdminId): Db {
    if !Claimable(db, id) || admin in db.admins then db
    else db.(tokens := db.tokens[id := db.tokens[id].(revoked := Some(db.now))], admins := db.admins + {admin},
             claimed := db.claimed + [id])
  }

  /** The next part of a claiming call. */
  function ClaimAdvanced(db: Db, c: nat): Db
    requires c < |db.claims|
  {
    var call := db.claims[c];
    match call.stage
    case Counting => db.(claims := db.claims[c := call.(stage := if db.admins == {} then Counted else Ended)])
    case Counted => Claimed(db, call.id, call.admin).(claims := db.claims[c := call.(stage := Ended)])
    case Ended => db
  }

  function Step(db: Db, e: Event): Db {
    match e
    case Tick(elapsed) => db.(now := db.now + elapsed)
    case Mint => db.(calls := db.calls + [CountAdmins(false)])
    case Revoke => RevokeAll(db).(calls := db.calls + [CountAdmins(true)])
    case Advance(c, id, hash) => if c < |db.calls| then Advanced(db, c, id, hash) else db
    case Redeem(hash) => Redeemed(db, hash)
    case Claim(id, admin) => db.(claims := db.claims + [ClaimCall(id, admin, Counting)])
    case AdvanceClaim(c) => if c < |db.claims| then ClaimAdvanced(db, c) else db
    case Invite(admin) => db.(admins := db.admins + {admin})
  }

  function Run(db: Db, events: seq<Event>): Db
    decreases |events|
  { if events == [] then db else Step(Run(db, events[..|events| - 1]), events[|events| - 1]) }

  function Fresh(now: int): Db { Db(map[], {}, [], [], now, multiset{}, []) }

  // The invariant.

  ghost predicate OneUnused(tokens: map<TokenId, Token>) {
    forall a, b :: a in tokens && b in tokens && Unused(tokens[a]) && Unused(tokens[b]) ==> a == b
  }

  /** One token per hash, one unused, and none consumed after it expired. */
  ghost predicate TokensOk(tokens: map<TokenId, Token>) {
    && OneUnused(tokens)
    && (forall a, b :: a in tokens && b in tokens && tokens[a].hash == tokens[b].hash ==> a == b)
    && (forall id :: id in tokens && tokens[id].consumed.Some? ==> tokens[id].consumed.value < tokens[id].expires)
  }

  /** What was redeemed is consumed, what was claimed was redeemed and is closed. */
  ghost predicate HistoryOk(db: Db) {
    && (forall id: TokenId :: db.redeemed[id] == if id in db.tokens && db.tokens[id].consumed.Some? then 1 else 0)
    && (forall id :: id in db.claimed ==> id in db.redeemed && db.tokens[id].revoked.Some?)
    && (forall i, j :: 0 <= i < j < |db.claimed| ==> db.claimed[i] != db.claimed[j])
    && (db.claimed != [] ==> db.admins != {})
  }

  ghost predicate Inv(db: Db) { TokensOk(db.tokens) && HistoryOk(db) }

  lemma AdvanceKeepsInv(db: Db, c: nat, id: TokenId, hash: nat)
    requires Inv(db) && c < |db.calls|
    ensures Inv(Advanced(db, c, id, hash))
  {
    hide Inv, AnyLive, Insertable;
    CallsDoNotMatter(db, Advanced(db, c, id, hash).calls);
    if db.calls[c] == Insert && Insertable(db.tokens, id, hash) {
      InsertKeepsInv(db, Advanced(db, c, id, hash).calls, c, id, hash);
    }
  }

  lemma CallsDoNotMatter(db: Db, calls: seq<Call>)
    requires Inv(db)
    ensures Inv(db.(calls := calls))
  {}

  lemma ClaimsDoNotMatter(db: Db, claims: seq<ClaimCall>)
    requires Inv(db)
    ensures Inv(db.(claims := claims))
  {}

  lemma AdvanceClaimKeepsInv(db: Db, c: nat)
    requires Inv(db) && c < |db.claims|
    ensures Inv(ClaimAdvanced(db, c))
  {
    hide Inv, Claimed;
    var call := db.claims[c];
    ClaimKeepsInv(db, call.id, call.admin);
    ClaimsDoNotMatter(db, ClaimAdvanced(db, c).claims);
    ClaimsDoNotMatter(Claimed(db, call.id, call.admin), ClaimAdvanced(db, c).claims);
  }

  lemma InsertKeepsInv(db: Db, calls: seq<Call>, c: nat, id: TokenId, hash: nat)
    requires Inv(db) && Insertable(db.tokens, id, hash)
    ensures Inv(db.(calls := calls, tokens := db.tokens[id := Token(hash, db.now + TTL, None, None, c)]))
  {}

  lemma RevokeTokens(db: Db)
    requires TokensOk(db.tokens)
    ensures TokensOk(RevokeAll(db).tokens)
  {}

  lemma RevokeHistory(db: Db)
    requires HistoryOk(db)
    ensures HistoryOk(RevokeAll(db))
  {}

  lemma RevokeKeepsInv(db: Db)
    requires Inv(db)
    ensures Inv(RevokeAll(db))
  {
    hide TokensOk, HistoryOk, RevokeAll;
    RevokeTokens(db);
    RevokeHistory(db);
  }

  lemma RedeemTokens(db: Db, hash: nat)
    requires TokensOk(db.tokens)
    ensures TokensOk(Redeemed(db, hash).tokens)
  {}

  lemma RedeemHistory(db: Db, hash: nat)
    requires HistoryOk(db)
    ensures HistoryOk(Redeemed(db, hash))
  {}

  lemma RedeemKeepsInv(db: Db, hash: nat)
    requires Inv(db)
    ensures Inv(Redeemed(db, hash))
  {
    hide TokensOk, HistoryOk, Redeemed;
    RedeemTokens(db, hash);
    RedeemHistory(db, hash);
  }

  lemma ClaimTokens(tokens: map<TokenId, Token>, id: TokenId, now: int)
    requires TokensOk(tokens) && id in tokens && tokens[id].consumed.Some?
    ensures TokensOk(tokens[id := tokens[id].(revoked := Some(now))])
  {}

  lemma ClaimHistory(db: Db, id: TokenId, admin: AdminId)
    requires HistoryOk(db)
    ensures HistoryOk(Claimed(db, id, admin))
  {}

  lemma ClaimKeepsInv(db: Db, id: TokenId, admin: AdminId)
    requires Inv(db)
    ensures Inv(Claimed(db, id, admin))
  {
    hide TokensOk, HistoryOk;
    ClaimHistory(db, id, admin);
    if Claimable(db, id) { ClaimTokens(db.tokens, id, db.now); }
  }

  lemma StepKeepsInv(db: Db, e: Event)
    requires Inv(db)
    ensures Inv(Step(db, e))
  {
    hide Inv;
    match e
    case Advance(c, id, hash) => if c < |db.calls| { AdvanceKeepsInv(db, c, id, hash); }
    case Revoke => RevokeKeepsInv(db); CallsDoNotMatter(RevokeAll(db), Step(db, e).calls);
    case Redeem(hash) => RedeemKeepsInv(db, hash);
    case Claim(id, admin) => ClaimsDoNotMatter(db, Step(db, e).claims);
    case AdvanceClaim(c) => if c < |db.claims| { AdvanceClaimKeepsInv(db, c); }
    case Tick(_) => OthersDoNotMatter(db, db.admins, Step(db, e).now);
    case Mint => CallsDoNotMatter(db, Step(db, e).calls);
    case Invite(admin) => OthersDoNotMatter(db, db.admins + {admin}, db.now);
  }

  lemma OthersDoNotMatter(db: Db, admins: set<AdminId>, now: int)
    requires Inv(db) && db.admins <= admins
    ensures Inv(db.(admins := admins, now := now))
  {}

  lemma {:induction false} RunKeepsInv(db: Db, events: seq<Event>)
    requires Inv(db)
    ensures Inv(Run(db, events))
    decreases |events|
  {
    hide Inv, Step;
    if events != [] {
      RunKeepsInv(db, events[..|events| - 1]);
      StepKeepsInv(Run(db, events[..|events| - 1]), events[|events| - 1]);
    }
  }

  // One admin.

  predicate CountedAt(db: Db, c: nat) { c < |db.claims| && db.claims[c].stage == Counted }

  /** At no moment of the run do two claims stand between their count and their commit. */
  ghost predicate Serial(db: Db, events: seq<Event>)
    decreases |events|
  {
    && (forall c: nat, d: nat :: CountedAt(Run(db, events), c) && CountedAt(Run(db, events), d) ==> c == d)
    && (events == [] || Serial(db, events[..|events| - 1]))
  }

  ghost predicate OneAdmin(db: Db) {
    |db.claimed| <= 1 && (db.claimed != [] ==> db.admins != {} && forall c: nat :: !CountedAt(db, c))
  }

  lemma OneAdminStep(db: Db, e: Event)
    requires OneAdmin(db) && forall c: nat, d: nat :: CountedAt(db, c) && CountedAt(db, d) ==> c == d
    ensures OneAdmin(Step(db, e))
  {
    hide AnyLive, Insertable, Claimable;
    var db' := Step(db, e);
    if e.AdvanceClaim? && e.claim < |db.claims| && db.claims[e.claim].stage == Counted {
      assert CountedAt(db, e.claim);
    }
    if db'.claimed != [] {
      forall c: nat ensures !CountedAt(db', c) {
        assert CountedAt(db', c) ==> CountedAt(db, c) || (db.admins == {} && db.claimed == []);
        if e.AdvanceClaim? && e.claim < |db.claims| {
          assert CountedAt(db, e.claim) && CountedAt(db, c) ==> c == e.claim;
        }
      }
    }
  }

  lemma {:induction false} OneAdminRun(db: Db, events: seq<Event>)
    requires OneAdmin(db) && Serial(db, events)
    ensures OneAdmin(Run(db, events))
    decreases |events|
  {
    hide OneAdmin, Step, CountedAt;
    if events != [] {
      OneAdminRun(db, events[..|events| - 1]);
      assert Serial(db, events[..|events| - 1]);
      OneAdminStep(Run(db, events[..|events| - 1]), events[|events| - 1]);
    }
  }

  /**
   Over every run: no token is redeemed twice, nor after it expired; a token is claimed at most once, and only after it
   was redeemed; at most one token is unused; and bootstrap creates at most one admin, however many tokens there are, as
   long as no two claims overlap.
   */
  lemma EveryRun(now: int, events: seq<Event>)
    ensures var r := Run(Fresh(now), events);
            && (forall id: TokenId :: r.redeemed[id] <= 1)
            && (forall id :: id in r.claimed ==> id in r.redeemed)
            && (forall i, j :: 0 <= i < j < |r.claimed| ==> r.claimed[i] != r.claimed[j])
            && (forall id :: id in r.redeemed ==>
                  id in r.tokens && r.tokens[id].consumed.Some? && r.tokens[id].consumed.value < r.tokens[id].expires)
            && OneUnused(r.tokens)
            && (Serial(Fresh(now), events) ==> |r.claimed| <= 1)
  {
    hide Run, Serial;
    RunKeepsInv(Fresh(now), events);
    if Serial(Fresh(now), events) { OneAdminRun(Fresh(now), events); }
  }

  /** The condition is needed: two claims that have both counted, of two tokens that can be claimed, make two admins. */
  lemma OverlapMakesTwo(db: Db, c: nat, d: nat)
    requires CountedAt(db, c) && CountedAt(db, d) && c != d
    requires Claimable(db, db.claims[c].id) && Claimable(db, db.claims[d].id) && db.claims[c].id != db.claims[d].id
    requires db.claims[c].admin !in db.admins && db.claims[d].admin !in db.admins &&
             db.claims[c].admin != db.claims[d].admin
    ensures var r := Step(Step(db, AdvanceClaim(c)), AdvanceClaim(d));
            |r.claimed| == |db.claimed| + 2 && {db.claims[c].admin, db.claims[d].admin} <= r.admins
  {}

  /** A claim that nothing interrupts succeeds exactly for a claimable token while there is no admin. */
  lemma UndisturbedClaim(db: Db, id: TokenId, admin: AdminId)
    ensures var c := |db.claims|;
            var r := Step(Step(Step(db, Claim(id, admin)), AdvanceClaim(c)), AdvanceClaim(c));
            r.claimed == if db.admins == {} && Claimable(db, id) then db.claimed + [id] else db.claimed
  {}

  // Minting after an admin exists.

  /** A call that has its last look at the admins behind it. */
  predicate InFlight(db: Db, c: nat) { c < |db.calls| && (db.calls[c] == CountTokens(false) || db.calls[c] == Insert) }

  ghost predicate MintedOnlyBy(start: Db, db: Db) {
    && db.admins != {} && |start.calls| <= |db.calls|
    && (forall c: nat :: InFlight(db, c) ==> InFlight(start, c))
    && (forall id :: id in db.tokens && id !in start.tokens ==> InFlight(start, db.tokens[id].minter))
  }

  ghost predicate ClaimedOnlyBy(start: Db, db: Db) {
    && db.admins != {} && |start.claims| <= |db.claims|
    && (forall c: nat :: CountedAt(db, c) ==> CountedAt(start, c))
    && ((forall c: nat :: !CountedAt(start, c)) ==> db.claimed == start.claimed)
  }

  /** Only the insertion of a call in flight adds a token. */
  lemma NewToken(db: Db, e: Event, id: TokenId)
    requires id in Step(db, e).tokens
    ensures id !in db.tokens ==> InFlight(db, Step(db, e).tokens[id].minter)
    ensures id in db.tokens ==> Step(db, e).tokens[id].minter == db.tokens[id].minter
  { hide AnyLive; }

  lemma CallsStep(db: Db, e: Event, c: nat)
    requires db.admins != {} && InFlight(Step(db, e), c)
    ensures InFlight(db, c)
  { hide AnyLive, Insertable, Claimable, Live; }

  lemma MintedStep(start: Db, db: Db, e: Event)
    requires MintedOnlyBy(start, db)
    ensures MintedOnlyBy(start, Step(db, e))
  {
    hide InFlight;
    var db' := Step(db, e);
    forall c: nat | InFlight(db', c) ensures InFlight(start, c) { CallsStep(db, e, c); }
    forall id | id in db'.tokens && id !in start.tokens ensures InFlight(start, db'.tokens[id].minter) {
      NewToken(db, e, id);
    }
    hide Advanced, Redeemed, RevokeAll, Claimed;
  }

  lemma ClaimedStep(start: Db, db: Db, e: Event)
    requires ClaimedOnlyBy(start, db)
    ensures ClaimedOnlyBy(start, Step(db, e))
  {
    hide AnyLive, Insertable, Live, Claimable;
    var db' := Step(db, e);
    forall c: nat | CountedAt(db', c) ensures CountedAt(start, c) { assert CountedAt(db, c); }
    if e.AdvanceClaim? && db'.claimed != db.claimed { assert CountedAt(db, e.claim) && CountedAt(start, e.claim); }
  }

  /**
   Once an admin exists: only minting calls that were in flight then can still mint, and a token makes another admin
   only through a claim that had already counted.
   */
  lemma {:induction false} AdminStopsMinting(db: Db, events: seq<Event>)
    requires db.admins != {}
    ensures MintedOnlyBy(db, Run(db, events)) && ClaimedOnlyBy(db, Run(db, events))
    decreases |events|
  {
    hide MintedOnlyBy, ClaimedOnlyBy, Step;
    if events == [] {
      SelfMinted(db);
    } else {
      AdminStopsMinting(db, events[..|events| - 1]);
      MintedStep(db, Run(db, events[..|events| - 1]), events[|events| - 1]);
      ClaimedStep(db, Run(db, events[..|events| - 1]), events[|events| - 1]);
    }
  }

  lemma SelfMinted(db: Db)
    requires db.admins != {}
    ensures MintedOnlyBy(db, db) && ClaimedOnlyBy(db, db)
  {}

  /** A call in flight can be carried on to a mint, whatever is in the tables. */
  lemma InFlightMints(db: Db, c: nat, id: TokenId, hash: nat)
    requires InFlight(db, c) && id !in db.tokens && forall other :: other in db.tokens ==> db.tokens[other].hash != hash
    ensures id in Run(db, [Revoke, Advance(c, id, hash), Advance(c, id, hash)]).tokens
  {
    hide Run;
    var a := Advance(c, id, hash);
    var one := Step(db, Revoke);
    var two := Step(one, a);
    assert one.calls[c] == db.calls[c] && !AnyLive(one) && Insertable(one.tokens, id, hash);
    var three := Step(two, a);
    assert id in three.tokens;
    RunThree(db, Revoke, a, a);
  }

  lemma RunThree(db: Db, x: Event, y: Event, z: Event)
    ensures Run(db, [x, y, z]) == Step(Step(Step(db, x), y), z)
  {
    assert [x, y, z][..2] == [x, y] && [x, y][..1] == [x] && [x][..0] == [];
    assert Run(db, [x]) == Step(db, x);
    assert Run(db, [x, y]) == Step(Step(db, x), y);
  }

  /** So after an admin exists a token can still be minted exactly when a minting call was in flight at that moment. */
  lemma MintAfterAdminIff(db: Db)
    requires db.admins != {}
    ensures (exists events, id :: id in Run(db, events).tokens && id !in db.tokens)
       <==> exists c: nat :: InFlight(db, c)
  {
    hide Run, InFlight;
    if exists events, id :: id in Run(db, events).tokens && id !in db.tokens {
      var events, id :| id in Run(db, events).tokens && id !in db.tokens;
      AdminStopsMinting(db, events);
      assert InFlight(db, Run(db, events).tokens[id].minter);
    }
    if exists c: nat :: InFlight(db, c) {
      var c: nat :| InFlight(db, c);
      var id := Above(db.tokens.Keys);
      var hashes := set other | other in db.tokens :: db.tokens[other].hash;
      var hash := Above(hashes);
      assert forall other :: other in db.tokens ==> db.tokens[other].hash in hashes;
      InFlightMints(db, c, id, hash);
    }
  }

  /** Such a moment is reached from an empty database: a mint, an invited admin, and the mint goes on. */
  lemma InFlightIsReachable(now: int)
    ensures var start := Fresh(now);
            var admin := Step(Step(Step(start, Mint), Advance(0, 0, 0)), Invite(0));
            var after := Step(Step(admin, Advance(0, 0, 0)), Advance(0, 0, 0));
            admin.admins != {} && admin.tokens == map[] && 0 in after.tokens
  {
    var admin := Step(Step(Step(Fresh(now), Mint), Advance(0, 0, 0)), Invite(0));
    assert admin.calls == [CountTokens(false)] && !AnyLive(admin) && Insertable(admin.tokens, 0, 0);
  }

  // Another admin after the first.

  /** A token that can be claimed, or be redeemed and then claimed, or still be minted under this id. */
  ghost predicate CanYet(db: Db, id: TokenId) {
    if id in db.tokens then Claimable(db, id) || Live(db.tokens[id], db.now) else exists m: nat :: InFlight(db, m)
  }

  /** A claim that has counted and can still be carried through. */
  ghost predicate Pending(db: Db, c: nat) {
    CountedAt(db, c) && db.claims[c].admin !in db.admins && CanYet(db, db.claims[c].id)
  }

  lemma CanYetStep(db: Db, e: Event, id: TokenId)
    requires db.admins != {} && CanYet(Step(db, e), id)
    ensures CanYet(db, id)
  {
    if e.Advance? { assert Insertable(db.tokens, e.id, e.hash) ==> e.id !in db.tokens; }
    hide AnyLive, Insertable;
    var db' := Step(db, e);
    if id !in db'.tokens {
      var m: nat :| InFlight(db', m);
      assert InFlight(db, m);
    } else if id !in db.tokens {
      assert InFlight(db, e.call);
    }
  }

  lemma PendingStep(db: Db, e: Event, c: nat)
    requires db.admins != {} && Pending(Step(db, e), c)
    ensures Pending(db, c)
  {
    hide AnyLive, Insertable, Claimable, CanYet;
    CanYetStep(db, e, Step(db, e).claims[c].id);
  }

  lemma SettledStep(db: Db, e: Event)
    requires db.admins != {} && forall c: nat :: !Pending(db, c)
    ensures var db' := Step(db, e); db'.admins != {} && db'.claimed == db.claimed && forall c: nat :: !Pending(db', c)
  {
    forall c: nat ensures !Pending(Step(db, e), c) {
      if Pending(Step(db, e), c) { PendingStep(db, e, c); }
    }
    hide AnyLive, Insertable;
    if e.AdvanceClaim? && CountedAt(db, e.claim) { assert !Pending(db, e.claim); }
  }

  lemma {:induction false} SettledRun(db: Db, events: seq<Event>)
    requires db.admins != {} && forall c: nat :: !Pending(db, c)
    ensures var r := Run(db, events); r.admins != {} && r.claimed == db.claimed && forall c: nat :: !Pending(r, c)
    decreases |events|
  {
    hide Pending, Step;
    if events != [] {
      SettledRun(db, events[..|events| - 1]);
      SettledStep(Run(db, events[..|events| - 1]), events[|events| - 1]);
    }
  }

  lemma RunSnoc(db: Db, events: seq<Event>, e: Event)
    ensures Run(db, events + [e]) == Step(Run(db, events), e)
  { assert (events + [e])[..|events|] == events; }

  lemma RunNothing(db: Db)
    ensures Run(db, []) == db
  {}

  lemma ClaimGoesThrough(db: Db, c: nat)
    requires CountedAt(db, c) && db.claims[c].admin !in db.admins && Claimable(db, db.claims[c].id)
    ensures Step(db, AdvanceClaim(c)).claimed == db.claimed + [db.claims[c].id]
  {}

  /** A live token is redeemed and becomes claimable; nothing else of interest changes. */
  lemma RedeemMakesClaimable(db: Db, id: TokenId)
    requires id in db.tokens && Live(db.tokens[id], db.now)
    ensures var db' := Step(db, Redeem(db.tokens[id].hash));
            Claimable(db', id) && db'.claims == db.claims && db'.admins == db.admins && db'.claimed == db.claimed
  {}

  /** A mint in flight can still produce a live token under any free id. */
  lemma InFlightMakesLive(db: Db, m: nat, id: TokenId, hash: nat)
    requires InFlight(db, m) && id !in db.tokens && forall other :: other in db.tokens ==> db.tokens[other].hash != hash
    ensures var a := Advance(m, id, hash);
            var db' := Step(Step(Step(db, Revoke), a), a);
            && id in db'.tokens && Live(db'.tokens[id], db'.now) && db'.tokens[id].hash == hash
            && db'.claims == db.claims && db'.admins == db.admins && db'.claimed == db.claimed
  {
    var one := Step(db, Revoke);
    assert one.calls[m] == db.calls[m] && !AnyLive(one) && Insertable(one.tokens, id, hash);
  }

  lemma PendingGoesThrough(db: Db, c: nat) returns (events: seq<Event>)
    requires Pending(db, c)
    ensures Run(db, events).claimed != db.claimed
  {
    hide Run, Step, Live, Claimable;
    var id := db.claims[c].id;
    events := [];
    RunNothing(db);
    if id !in db.tokens {
      var m: nat :| InFlight(db, m);
      var hashes := set other | other in db.tokens :: db.tokens[other].hash;
      var hash := Above(hashes);
      assert forall other :: other in db.tokens ==> db.tokens[other].hash in hashes;
      InFlightMakesLive(db, m, id, hash);
      RunSnoc(db, [], Revoke);
      RunSnoc(db, [] + [Revoke], Advance(m, id, hash));
      RunSnoc(db, [] + [Revoke] + [Advance(m, id, hash)], Advance(m, id, hash));
      events := [] + [Revoke] + [Advance(m, id, hash)] + [Advance(m, id, hash)];
    }
    var here := Run(db, events);
    if !Claimable(here, id) {
      RedeemMakesClaimable(here, id);
      RunSnoc(db, events, Redeem(here.tokens[id].hash));
      events := events + [Redeem(here.tokens[id].hash)];
    }
    ClaimGoesThrough(Run(db, events), c);
    RunSnoc(db, events, AdvanceClaim(c));
    events := events + [AdvanceClaim(c)];
  }

  /**
   Once an admin exists, bootstrap can create another one exactly when a claim has already counted, for an admin that is
   not there yet and a token that is claimable, redeemable or still being minted.
   */
  lemma ClaimAfterAdminIff(db: Db)
    requires db.admins != {}
    ensures (exists events :: Run(db, events).claimed != db.claimed) <==> exists c: nat :: Pending(db, c)
  {
    hide Run, Pending;
    if exists c: nat :: Pending(db, c) {
      var c: nat :| Pending(db, c);
      var events := PendingGoesThrough(db, c);
    } else {
      forall events ensures Run(db, events).claimed == db.claimed { SettledRun(db, events); }
    }
  }

  // Two admins from an empty database.

  /** Minting a token and redeeming it, undisturbed. */
  function MintAndRedeem(m: nat, id: TokenId, hash: nat): seq<Event> {
    [Mint, Advance(m, id, hash), Advance(m, id, hash), Advance(m, id, hash), Redeem(hash)]
  }

  lemma RedeemOnly(db: Db, others: map<TokenId, Token>, id: TokenId, hash: nat, m: nat)
    requires Insertable(others, id, hash) && db.tokens == others[id := Token(hash, db.now + TTL, None, None, m)]
    ensures Redeemed(db, hash).tokens == others[id := Token(hash, db.now + TTL, Some(db.now), None, m)]
  {}

  lemma MintAndRedeemRun(db: Db, id: TokenId, hash: nat)
    requires db.admins == {} && Insertable(db.tokens, id, hash)
    ensures var r := Run(db, MintAndRedeem(|db.calls|, id, hash));
            && r.tokens == db.tokens[id := Token(hash, db.now + TTL, Some(db.now), None, |db.calls|)]
            && r.admins == {} && r.claims == db.claims && r.claimed == db.claimed && r.now == db.now
  {
    hide Run;
    var m := |db.calls|;
    var a := Advance(m, id, hash);
    var s1 := Step(db, Mint);
    var s2 := Step(s1, a);
    assert !AnyLive(s2) && s2.calls == db.calls + [CountTokens(false)];
    var s3 := Step(s2, a);
    assert s3.calls == db.calls + [Insert];
    var s4 := Step(s3, a);
    assert s4.tokens == db.tokens[id := Token(hash, db.now + TTL, None, None, m)];
    RedeemOnly(s4, db.tokens, id, hash, m);
    RunThree(db, Mint, a, a);
    RunSnoc(db, [Mint, a, a], a);
    RunSnoc(db, [Mint, a, a, a], Redeem(hash));
    assert [Mint, a, a] + [a] == [Mint, a, a, a] && [Mint, a, a, a] + [Redeem(hash)] == MintAndRedeem(m, id, hash);
  }

  lemma {:induction false} RunConcat(db: Db, a: seq<Event>, b: seq<Event>)
    ensures Run(db, a + b) == Run(Run(db, a), b)
    decreases |b|
  {
    hide Step;
    if b == [] {
      assert a + b == a;
    } else {
      RunConcat(db, a, b[..|b| - 1]);
      assert (a + b)[..|a + b| - 1] == a + b[..|b| - 1];
    }
  }

  /** Two claims that both count before either commits. */
  lemma TwoClaimsRun(db: Db, a: TokenId, b: TokenId)
    requires db.admins == {} && a != b && Claimable(db, a) && Claimable(db, b)
    ensures var c := |db.claims|;
            var counted := Run(db, [Claim(a, 0), Claim(b, 1), AdvanceClaim(c)] + [AdvanceClaim(c + 1), AdvanceClaim(c),
                AdvanceClaim(c + 1)]);
            |counted.claimed| == |db.claimed| + 2
  {
    hide Run;
    var c := |db.claims|;
    var s1 := Step(Step(Step(db, Claim(a, 0)), Claim(b, 1)), AdvanceClaim(c));
    RunThree(db, Claim(a, 0), Claim(b, 1), AdvanceClaim(c));
    RunThree(s1, AdvanceClaim(c + 1), AdvanceClaim(c), AdvanceClaim(c + 1));
    RunConcat(db, [Claim(a, 0), Claim(b, 1), AdvanceClaim(c)],
              [AdvanceClaim(c + 1), AdvanceClaim(c), AdvanceClaim(c + 1)]);
    assert s1.claims == db.claims + [ClaimCall(a, 0, Counted), ClaimCall(b, 1, Counting)];
    var s2 := Step(s1, AdvanceClaim(c + 1));
    assert s2.claims == db.claims + [ClaimCall(a, 0, Counted), ClaimCall(b, 1, Counted)];
    OverlapMakesTwo(s2, c, c + 1);
  }

  /** It happens from an empty database: two tokens minted and redeemed one after the other, then claimed at once. */
  lemma TwoAdminsAreReachable(now: int)
    ensures exists events :: |Run(Fresh(now), events).claimed| == 2
  {
    hide Run;
    var db := Fresh(now);
    MintAndRedeemRun(db, 0, 0);
    var one := Run(db, MintAndRedeem(0, 0, 0));
    MintAndRedeemRun(one, 1, 1);
    var second := MintAndRedeem(|one.calls|, 1, 1);
    var two := Run(one, second);
    TwoClaimsRun(two, 0, 1);
    var c := |two.claims|;
    var claims := [Claim(0, 0), Claim(1, 1), AdvanceClaim(c)] + [AdvanceClaim(c + 1), AdvanceClaim(c),
                                                                 AdvanceClaim(c + 1)];
    RunConcat(db, MintAndRedeem(0, 0, 0), second);
    RunConcat(db, MintAndRedeem(0, 0, 0) + second, claims);
    assert |Run(db, MintAndRedeem(0, 0, 0) + second + claims).claimed| == 2;
  }

  lemma Above(s: set<nat>) returns (n: nat)
    ensures forall x :: x in s ==> x < n
  {
    n := 0;
    var todo := s;
    while todo != {}
      invariant todo <= s && forall x :: x in s && x !in todo ==> x < n
      decreases todo
    {
      var x :| x in todo;
      if x >= n { n := x + 1; }
      todo := todo - {x};
    }
  }

  /** A token nobody used blocks minting even after it has expired: only a revocation clears the way. */
  lemma UnusedTokenBlocksMint(db: Db, c: nat, id: TokenId, hash: nat, other: TokenId)
    requires c < |db.calls| && other in db.tokens && Unused(db.tokens[other])
    ensures Advanced(db, c, id, hash).tokens == db.tokens
  {}

  class Service {
    var tokens: map<TokenId, Token>
    var admins: set<AdminId>
    var now: int

    constructor (now: int)
      ensures tokens == map[] && admins == {} && this.now == now
    { this.tokens, this.admins, this.now := map[], {}, now; }

    ghost function Current(): Db reads this { Db(tokens, admins, [], [], now, multiset{}, []) }

    /** `IsFirstBoot`. */
    method IsFirstBoot() returns (first: bool)
      ensures first == (admins == {} && forall id :: id in tokens ==>
                          tokens[id].consumed.Some? || tokens[id].revoked.Some? || tokens[id].expires <= now)
    {
      if admins != {} { return false; }
      var live := set id | id in tokens && Live(tokens[id], now);
      assert forall id :: id in tokens && Live(tokens[id], now) ==> id in live;
      first := live == {};
    }

    /** `MintSetupToken` undisturbed: it mints exactly when there is no admin and no unused token, expired or not. */
    method MintSetupToken(id: TokenId, hash: nat) returns (ok: bool)
      requires id !in tokens && forall other :: other in tokens ==> tokens[other].hash != hash
      modifies this
      ensures ok == (old(admins) == {} && forall other :: other in old(tokens) ==>
                       old(tokens)[other].consumed.Some? || old(tokens)[other].revoked.Some?)
      ensures tokens == (if ok then old(tokens)[id := Token(hash, now + 86_400, None, None, 0)] else old(tokens))
      ensures admins == old(admins) && now == old(now)
    {
      ok := IsFirstBoot();
      if !ok { return; }
      ok := forall other :: other in tokens ==> !Unused(tokens[other]) && tokens[other].hash != hash;
      if ok { tokens := tokens[id := Token(hash, now + TTL, None, None, 0)]; }
    }

    /** `RedeemSetupToken`. */
    method RedeemSetupToken(hash: nat) returns (id: Option<TokenId>)
      modifies this
      ensures tokens == Redeemed(old(Current()), hash).tokens && admins == old(admins) && now == old(now)
      ensures forall t :: t in old(tokens) ==>
                tokens[t] == if old(tokens)[t].hash == hash && old(tokens)[t].consumed.None? &&
                                old(tokens)[t].revoked.None? && old(tokens)[t].expires > now
                             then old(tokens)[t].(consumed := Some(now)) else old(tokens)[t]
      ensures match id
              case Some(t) => t in old(tokens) && old(tokens)[t].consumed.None? && tokens[t].consumed == Some(now)
              case None => tokens == old(tokens)
    {
      var ids := set t | t in tokens && tokens[t].hash == hash && Live(tokens[t], now);
      assert forall t :: t in tokens && tokens[t].hash == hash && Live(tokens[t], now) ==> t in ids;
      tokens := map t | t in tokens :: if t in ids then tokens[t].(consumed := Some(now)) else tokens[t];
      if ids == {} { return None; }
      var t :| t in ids;
      id := Some(t);
    }

    /** `createFirstInstanceAdmin`. */
    method CreateFirstInstanceAdmin(id: TokenId, admin: AdminId) returns (ok: bool)
      modifies this
      ensures ok == (old(admins) == {} && Claimable(old(Current()), id))
      ensures ok ==> id in old(tokens) && old(tokens)[id].consumed.Some? && old(tokens)[id].revoked.None?
                     && old(tokens)[id].expires > now
                     && tokens == old(tokens)[id := old(tokens)[id].(revoked := Some(now))]
      ensures tokens == (if ok then Claimed(old(Current()), id, admin).tokens else old(tokens))
      ensures admins == (if ok then {admin} else old(admins)) && now == old(now)
    {
      if admins != {} { return false; }
      if !(id in tokens && tokens[id].consumed.Some? && tokens[id].revoked.None? && tokens[id].expires > now) {
        return false;
      }
      tokens := tokens[id := tokens[id].(revoked := Some(now))];
      admins := admins + {admin};
      ok := true;
    }

    /** `RevokeSetupToken` undisturbed: whatever tokens there were, it mints exactly when there is no admin. */
    method RevokeSetupToken(id: TokenId, hash: nat) returns (ok: bool)
      requires id !in tokens && forall other :: other in tokens ==> tokens[other].hash != hash
      modifies this
      ensures ok == (old(admins) == {}) && admins == old(admins) && now == old(now)
      ensures var revoked := RevokeAll(old(Current())).tokens;
              tokens == if ok then revoked[id := Token(hash, now + 86_400, None, None, 0)] else revoked
      ensures forall t :: t in old(tokens) ==>
                tokens[t] == if old(tokens)[t].consumed.None? && old(tokens)[t].revoked.None?
                             then old(tokens)[t].(revoked := Some(now)) else old(tokens)[t]
    {
      tokens := map t | t in tokens :: if Unused(tokens[t]) then tokens[t].(revoked := Some(now)) else tokens[t];
      ok := IsFirstBoot();
      if ok { ok := MintSetupToken(id, hash); }
    }
  }
}
