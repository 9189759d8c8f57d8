/**
 Refresh-token rotation with reuse detection. The table is changed in place by the class; runs are
 over the same operations as functions, with a history that remembers which login each token ever
 issued descends from. The practice is that of section 4.14.2 of RFC 9700.
 */
module RefreshTokens {
  import opened JsText
  import opened Wrappers

  datatype UserId = UserId(uuid: Text)

  /** SHA-256 of a token, in hexadecimal. */
  datatype TokenHash = TokenHash(hex: Text)

  /** A row of `refresh_tokens`; the table is indexed by the unique token hash. Times are milliseconds. */
  datatype Token = Token(userId: UserId, expiresAt: int, absoluteExpiresAt: int, revokedAt: Option<int>)

  type Table = map<TokenHash, Token>

  const DAY := 24 * 60 * 60 * 1000
  const SLIDING := 7 * DAY

  datatype Outcome =
    | Issued            // the new token is stored
    | InvalidToken      // the signature does not verify
    | AccessDenied      // unknown, expired or already revoked
    | SessionExpired    // past the absolute expiry
    | Failed            // user gone, or the token hash is already taken

  // ---------------------------------------------------------------- the operations on a table

  /** `revokeAllUserTokens` */
  function RevokeAll(t: Table, userId: UserId, now: int): Table {
    map h | h in t :: if t[h].userId == userId && t[h].revokedAt.None? then t[h].(revokedAt := Some(now)) else t[h]
  }

  /** `deleteExpiredTokens` */
  function DeleteExpired(t: Table, now: int): Table {
    map h | h in t && !(t[h].expiresAt < now) :: t[h]
  }

  function Revoke(t: Table, hash: TokenHash, now: int): Table
    requires hash in t
  {
    t[hash := t[hash].(revokedAt := Some(now))]
  }

  /** `storeRefreshToken`; the unique index refuses a hash that is already there. */
  function StoreToken(t: Table, userId: UserId, hash: TokenHash, absolute: int, now: int): (Table, Outcome) {
    if hash in t then (t, Failed)
    else (t[hash := Token(userId, now + SLIDING, absolute, None)], Issued)
  }

  /** Any way of logging in: a fresh session with a fresh absolute expiry. */
  function Login(t: Table, userId: UserId, hash: TokenHash, absoluteDays: nat, now: int): (Table, Outcome) {
    StoreToken(t, userId, hash, now + absoluteDays * DAY, now)
  }

  /** `refreshTokens` with a token that hashes to `hash`; `newHash` is the hash of the next token. */
  function Refresh(t: Table, hash: TokenHash, signed: bool, userFound: bool, newHash: TokenHash, now: int): (Table, Outcome) {
    if !signed then (t, InvalidToken)
    else if hash !in t then (t, AccessDenied)
    else if t[hash].revokedAt.Some? then (RevokeAll(t, t[hash].userId, now), AccessDenied)
    else if t[hash].expiresAt < now then (RevokeAll(t, t[hash].userId, now), AccessDenied)
    else if t[hash].absoluteExpiresAt < now then (Revoke(t, hash, now), SessionExpired)
    else if !userFound then (Revoke(t, hash, now), Failed)
    else StoreToken(Revoke(t, hash, now), t[hash].userId, newHash, t[hash].absoluteExpiresAt, now)
  }

  function RevokeSession(t: Table, userId: UserId, hash: TokenHash, now: int): (Table, bool) {
    if hash !in t || t[hash].userId != userId then (t, false) else (Revoke(t, hash, now), true)
  }

  function Logout(t: Table, userId: UserId, hash: Option<TokenHash>, now: int): Table {
    if hash.None? then RevokeAll(t, userId, now)
    else if hash.value in t then Revoke(t, hash.value, now)
    else t
  }

  /** A token as it was, or revoked since. */
  predicate OnlyRevoked(before: Token, after: Token) {
    after == before.(revokedAt := after.revokedAt) && (after.revokedAt.None? ==> before.revokedAt.None?)
  }

  /**
   A refresh issues a token exactly for a signed, stored, unrevoked token within both its expiries, of a
   user who exists, and then revokes the old token and adds one that lasts seven days and inherits the
   absolute expiry, and changes nothing else.
   */
  lemma IssuedIff(t: Table, hash: TokenHash, signed: bool, userFound: bool, newHash: TokenHash, now: int)
    ensures var (u, r) := Refresh(t, hash, signed, userFound, newHash, now);
            && (r == Issued <==>
                  && signed && userFound && hash in t && newHash !in t && t[hash].revokedAt.None?
                  && now <= t[hash].expiresAt && now <= t[hash].absoluteExpiresAt)
            && (r == Issued ==>
                  && u.Keys == t.Keys + {newHash} && u[hash] == t[hash].(revokedAt := Some(now))
                  && u[newHash] == Token(t[hash].userId, now + 604800000, t[hash].absoluteExpiresAt, None)
                  && forall h :: h in t && h != hash ==> u[h] == t[h])
  {
  }

  /** What the other answers mean, and what they leave of the table. */
  lemma RefusedIff(t: Table, hash: TokenHash, signed: bool, userFound: bool, newHash: TokenHash, now: int)
    ensures var (u, r) := Refresh(t, hash, signed, userFound, newHash, now);
            && (r == InvalidToken <==> !signed)
            && (r == AccessDenied <==> signed && (hash !in t || t[hash].revokedAt.Some? || t[hash].expiresAt < now))
            && (r == SessionExpired <==>
                  signed && hash in t && t[hash].revokedAt.None? && now <= t[hash].expiresAt && t[hash].absoluteExpiresAt < now)
            && u.Keys == (if r == Issued then t.Keys + {newHash} else t.Keys)
            && (r == InvalidToken || hash !in t ==> u == t)
            && (r == AccessDenied && hash in t ==> forall h :: h in t ==>
                  u[h] == if t[h].userId == t[hash].userId && t[h].revokedAt.None? then t[h].(revokedAt := Some(now)) else t[h])
            && (r == SessionExpired || r == Failed ==> u == t[hash := t[hash].(revokedAt := Some(now))])
  {
  }

  /** A login stores one token for seven days, with an absolute expiry counted in days from now. */
  lemma LoginStores(t: Table, userId: UserId, hash: TokenHash, absoluteDays: nat, now: int)
    ensures var (u, r) := Login(t, userId, hash, absoluteDays, now);
            if hash in t then r == Failed && u == t
            else r == Issued && u == t[hash := Token(userId, now + 604800000, now + absoluteDays * 86400000, None)]
  {
  }

  /** Revoking a session succeeds exactly for the owner of a stored token, and stamps that token alone. */
  lemma RevokeSessionIff(t: Table, userId: UserId, hash: TokenHash, now: int)
    ensures var (u, found) := RevokeSession(t, userId, hash, now);
            && (found <==> hash in t && t[hash].userId == userId)
            && u.Keys == t.Keys
            && forall h :: h in t ==> u[h] == if h == hash && found then t[h].(revokedAt := Some(now)) else t[h]
  {
  }

  /** Logging out stamps the given token alone, whoever owns it, or else every unrevoked token of the user. */
  lemma LogoutRevokes(t: Table, userId: UserId, hash: Option<TokenHash>, now: int)
    ensures var u := Logout(t, userId, hash, now);
            && u.Keys == t.Keys
            && (hash.Some? ==> forall h :: h in t ==> u[h] == if h == hash.value then t[h].(revokedAt := Some(now)) else t[h])
            && (hash.None? ==> forall h :: h in t ==>
                  u[h] == if t[h].userId == userId && t[h].revokedAt.None? then t[h].(revokedAt := Some(now)) else t[h])
  {
  }

  /** Deleting expired tokens changes no later answer, as long as the next token is not one of the deleted. */
  lemma DeletionKeepsAnswers(t: Table, now: int, hash: TokenHash, signed: bool, userFound: bool, newHash: TokenHash, later: int)
    requires now <= later && (newHash in t ==> newHash in DeleteExpired(t, now))
    ensures Refresh(DeleteExpired(t, now), hash, signed, userFound, newHash, later).1 == Refresh(t, hash, signed, userFound, newHash, later).1
  {
  }

  /**
   But it forgets reuse: a deleted token revokes nothing when it is presented, where the stored token
   would have revoked all its user's sessions.
   */
  lemma DeletionForgetsReuse(t: Table, now: int, hash: TokenHash, userFound: bool, newHash: TokenHash, later: int)
    requires hash in t && now <= later
    ensures t[hash].expiresAt < now ==>
              && Refresh(DeleteExpired(t, now), hash, true, userFound, newHash, later) == (DeleteExpired(t, now), AccessDenied)
              && Refresh(t, hash, true, userFound, newHash, later) == (RevokeAll(t, t[hash].userId, later), AccessDenied)
    ensures now <= t[hash].expiresAt && t[hash].revokedAt.Some? ==>
              Refresh(DeleteExpired(t, now), hash, true, userFound, newHash, later)
              == (RevokeAll(DeleteExpired(t, now), t[hash].userId, later), AccessDenied)
  {
  }

  // ---------------------------------------------------------------- the store

  class TokenStore {
    var tokens: Table
    const absoluteDays: nat  // REFRESH_TOKEN_ABSOLUTE_EXPIRY_DAYS

    constructor (days: nat)
      ensures tokens == map[] && absoluteDays == days
    {
      tokens, absoluteDays := map[], days;
    }

    method RevokeAllUserTokens(userId: UserId, now: int)
      modifies this
      ensures tokens.Keys == old(tokens).Keys
      ensures forall h :: h in tokens ==> OnlyRevoked(old(tokens)[h], tokens[h])
      ensures forall h :: h in tokens && tokens[h].userId == userId ==> tokens[h].revokedAt.Some?
      ensures forall h :: h in tokens && (tokens[h].userId != userId || old(tokens)[h].revokedAt.Some?) ==> tokens[h] == old(tokens)[h]
      ensures tokens == RevokeAll(old(tokens), userId, now)
    {
      tokens := map h | h in tokens ::
        if tokens[h].userId == userId && tokens[h].revokedAt.None? then tokens[h].(revokedAt := Some(now)) else tokens[h];
    }

    method StoreRefreshToken(userId: UserId, hash: TokenHash, absoluteExpiresAt: Option<int>, now: int) returns (r: Outcome)
      modifies this
      ensures var absolute := if absoluteExpiresAt.Some? then absoluteExpiresAt.value else now + absoluteDays * DAY;
              (tokens, r) == StoreToken(old(tokens), userId, hash, absolute, now)
    {
      var absolute := if absoluteExpiresAt.Some? then absoluteExpiresAt.value else now + absoluteDays * DAY;
      if hash in tokens { return Failed; }
      tokens := tokens[hash := Token(userId, now + SLIDING, absolute, None)];
      r := Issued;
    }

    method RefreshTokens(hash: TokenHash, signed: bool, userFound: bool, newHash: TokenHash, now: int) returns (r: Outcome)
      modifies this
      ensures (tokens, r) == Refresh(old(tokens), hash, signed, userFound, newHash, now)
    {
      if !signed { return InvalidToken; }
      var stored := if hash in tokens then Some(tokens[hash]) else None;
      if stored.Some? && stored.value.revokedAt.Some? {
        RevokeAllUserTokens(stored.value.userId, now);
        return AccessDenied;
      }
      if stored.None? || stored.value.expiresAt < now {
        if stored.Some? {
          RevokeAllUserTokens(stored.value.userId, now);
        }
        return AccessDenied;
      }
      tokens := tokens[hash := stored.value.(revokedAt := Some(now))];
      if stored.value.absoluteExpiresAt < now { return SessionExpired; }
      if !userFound { return Failed; }
      r := StoreRefreshToken(stored.value.userId, newHash, Some(stored.value.absoluteExpiresAt), now);
    }

    method RevokeOneSession(userId: UserId, hash: TokenHash, now: int) returns (found: bool)
      modifies this
      ensures found <==> hash in old(tokens) && old(tokens)[hash].userId == userId
      ensures tokens == if found then old(tokens)[hash := old(tokens)[hash].(revokedAt := Some(now))] else old(tokens)
      ensures (tokens, found) == RevokeSession(old(tokens), userId, hash, now)
    {
      if hash !in tokens || tokens[hash].userId != userId { return false; }
      tokens := tokens[hash := tokens[hash].(revokedAt := Some(now))];
      found := true;
    }

    method LogOut(userId: UserId, hash: Option<TokenHash>, now: int)
      modifies this
      ensures tokens.Keys == old(tokens).Keys
      ensures forall h :: h in tokens && hash == Some(h) ==> tokens[h].revokedAt == Some(now)
      ensures forall h :: h in tokens && hash.None? && tokens[h].userId == userId ==> tokens[h].revokedAt.Some?
      ensures forall h :: h in tokens && (if hash.Some? then h != hash.value else tokens[h].userId != userId) ==> tokens[h] == old(tokens)[h]
      ensures tokens == Logout(old(tokens), userId, hash, now)
    {
      if hash.Some? {
        if hash.value in tokens {
          tokens := tokens[hash.value := tokens[hash.value].(revokedAt := Some(now))];
        }
      } else {
        RevokeAllUserTokens(userId, now);
      }
    }

    method DeleteExpiredTokens(now: int)
      modifies this
      ensures forall h :: h in tokens <==> h in old(tokens) && now <= old(tokens)[h].expiresAt
      ensures forall h :: h in tokens ==> tokens[h] == old(tokens)[h]
      ensures tokens == DeleteExpired(old(tokens), now)
    {
      tokens := map h | h in tokens && !(tokens[h].expiresAt < now) :: tokens[h];
    }
  }

  // ---------------------------------------------------------------- runs

  datatype Session = Session(userId: UserId, absoluteExpiresAt: int)

  /** The table and the history: every login so far, and the login each token ever issued belongs to. */
  datatype State = State(tokens: Table, sessions: seq<Session>, sessionOf: map<TokenHash, nat>)

  datatype Event =
    | DoLogin(userId: UserId, hash: TokenHash, absoluteDays: nat, now: int)
    | DoRefresh(hash: TokenHash, signed: bool, userFound: bool, newHash: TokenHash, now: int)
    | DoRevoke(userId: UserId, hash: TokenHash, now: int)
    | DoLogout(userId: UserId, logoutHash: Option<TokenHash>, now: int)
    | DoRevokeAll(userId: UserId, now: int)
    | DoDeleteExpired(now: int)

  const INIT: State := State(map[], [], map[])

  /** A new token never repeats one that was issued and deleted: tokens carry their time of issue. */
  predicate Repeats(s: State, hash: TokenHash) {
    hash in s.sessionOf && hash !in s.tokens
  }

  function RefreshOutcome(s: State, e: Event): Outcome
    requires e.DoRefresh?
  {
    Refresh(s.tokens, e.hash, e.signed, e.userFound, e.newHash, e.now).1
  }

  function LoginStep(s: State, e: Event): State
    requires e.DoLogin?
  {
    var (t, r) := Login(s.tokens, e.userId, e.hash, e.absoluteDays, e.now);
    if Repeats(s, e.hash) || r != Issued then s
    else State(t, s.sessions + [Session(e.userId, e.now + e.absoluteDays * DAY)], s.sessionOf[e.hash := |s.sessions|])
  }

  function RefreshStep(s: State, e: Event): State
    requires e.DoRefresh?
  {
    var (t, r) := Refresh(s.tokens, e.hash, e.signed, e.userFound, e.newHash, e.now);
    if Repeats(s, e.newHash) then s
    else if r == Issued && e.hash in s.sessionOf then s.(tokens := t, sessionOf := s.sessionOf[e.newHash := s.sessionOf[e.hash]])
    else s.(tokens := t)
  }

  function Step(s: State, e: Event): State {
    match e
    case DoLogin(_, _, _, _) => LoginStep(s, e)
    case DoRefresh(_, _, _, _, _) => RefreshStep(s, e)
    case DoRevoke(u, h, now) => s.(tokens := RevokeSession(s.tokens, u, h, now).0)
    case DoLogout(u, h, now) => s.(tokens := Logout(s.tokens, u, h, now))
    case DoRevokeAll(u, now) => s.(tokens := RevokeAll(s.tokens, u, now))
    case DoDeleteExpired(now) => s.(tokens := DeleteExpired(s.tokens, now))
  }

  function Run(s: State, es: seq<Event>): State {
    if es == [] then s else Step(Run(s, es[..|es| - 1]), es[|es| - 1])
  }

  // ---------------------------------------------------------------- the invariant

  /** Every stored token belongs to a login and carries that login's user and absolute expiry. */
  ghost predicate Traced(s: State) {
    && (forall h :: h in s.sessionOf ==> s.sessionOf[h] < |s.sessions|)
    && (forall h :: h in s.tokens ==>
          && h in s.sessionOf
          && s.tokens[h].userId == s.sessions[s.sessionOf[h]].userId
          && s.tokens[h].absoluteExpiresAt == s.sessions[s.sessionOf[h]].absoluteExpiresAt)
  }

  predicate Live(s: State, h: TokenHash) {
    h in s.tokens && s.tokens[h].revokedAt.None?
  }

  /** A login's chain has at most one token that can still be used. */
  ghost predicate OneLive(s: State) {
    forall h, k :: Live(s, h) && Live(s, k) && h in s.sessionOf && k in s.sessionOf && s.sessionOf[h] == s.sessionOf[k] ==> h == k
  }

  ghost predicate Invariant(s: State) {
    Traced(s) && OneLive(s)
  }

  /** Revoking and deleting, in any combination. */
  lemma ShrinkKeeps(s: State, t: Table)
    requires Invariant(s)
    requires forall h :: h in t ==> h in s.tokens && OnlyRevoked(s.tokens[h], t[h])
    ensures Invariant(s.(tokens := t))
  {
    assert forall h :: Live(s.(tokens := t), h) ==> Live(s, h);
  }

  /** The state with a new live token in the chain of login i. */
  function Added(s: State, hash: TokenHash, i: nat, now: int): State
    requires i < |s.sessions|
  {
    s.(tokens := s.tokens[hash := Token(s.sessions[i].userId, now + SLIDING, s.sessions[i].absoluteExpiresAt, None)],
       sessionOf := s.sessionOf[hash := i])
  }

  /** A token with a new hash joins a login that has no live token. */
  lemma AddKeeps(s: State, hash: TokenHash, i: nat, now: int)
    requires Invariant(s) && hash !in s.sessionOf && i < |s.sessions|
    requires forall h :: Live(s, h) && h in s.sessionOf ==> s.sessionOf[h] != i
    ensures Invariant(Added(s, hash, i, now))
  {
    var t := Added(s, hash, i, now);
    assert forall h :: Live(t, h) && h != hash ==> Live(s, h) && t.sessionOf[h] == s.sessionOf[h];
  }

  lemma NewSessionKeeps(s: State, x: Session)
    requires Invariant(s)
    ensures var u := s.(sessions := s.sessions + [x]);
            Invariant(u) && forall h :: Live(u, h) && h in u.sessionOf ==> u.sessionOf[h] != |s.sessions|
  {
    var u := s.(sessions := s.sessions + [x]);
    assert forall h :: Live(u, h) ==> Live(s, h);
  }

  lemma LoginAsAdd(s: State, e: Event)
    requires Traced(s) && e.DoLogin? && LoginStep(s, e) != s
    ensures var u := s.(sessions := s.sessions + [Session(e.userId, e.now + e.absoluteDays * DAY)]);
            e.hash !in s.sessionOf && LoginStep(s, e) == Added(u, e.hash, |s.sessions|, e.now)
  {
  }

  lemma LoginKeeps(s: State, e: Event)
    requires Invariant(s) && e.DoLogin?
    ensures Invariant(LoginStep(s, e))
  {
    if LoginStep(s, e) != s {
      var x := Session(e.userId, e.now + e.absoluteDays * DAY);
      var u := s.(sessions := s.sessions + [x]);
      NewSessionKeeps(s, x);
      LoginAsAdd(s, e);
      AddKeeps(u, e.hash, |s.sessions|, e.now);
    }
  }

  lemma RevokedOneKeeps(s: State, hash: TokenHash, now: int)
    requires Invariant(s) && Live(s, hash)
    ensures var u := s.(tokens := Revoke(s.tokens, hash, now));
            Invariant(u) && forall h :: Live(u, h) && h in u.sessionOf ==> u.sessionOf[h] != s.sessionOf[hash]
  {
    var u := s.(tokens := Revoke(s.tokens, hash, now));
    ShrinkKeeps(s, u.tokens);
    assert forall h :: Live(u, h) ==> Live(s, h) && h != hash;
  }

  lemma RotateAsAdd(s: State, e: Event)
    requires Traced(s) && e.DoRefresh? && !Repeats(s, e.newHash) && RefreshOutcome(s, e) == Issued
    ensures Live(s, e.hash) && e.newHash !in s.sessionOf
    ensures RefreshStep(s, e) == Added(s.(tokens := Revoke(s.tokens, e.hash, e.now)), e.newHash, s.sessionOf[e.hash], e.now)
  {
  }

  /** Rotation: the old token is revoked before the new one joins its chain. */
  lemma RotateKeeps(s: State, e: Event)
    requires Invariant(s) && e.DoRefresh? && !Repeats(s, e.newHash) && RefreshOutcome(s, e) == Issued
    ensures Invariant(RefreshStep(s, e))
  {
    RotateAsAdd(s, e);
    RevokedOneKeeps(s, e.hash, e.now);
    AddKeeps(s.(tokens := Revoke(s.tokens, e.hash, e.now)), e.newHash, s.sessionOf[e.hash], e.now);
  }

  lemma RefreshKeeps(s: State, e: Event)
    requires Invariant(s) && e.DoRefresh?
    ensures Invariant(RefreshStep(s, e))
  {
    if !Repeats(s, e.newHash) {
      if RefreshOutcome(s, e) == Issued {
        RotateKeeps(s, e);
      } else {
        ShrinkKeeps(s, RefreshStep(s, e).tokens);
      }
    }
  }

  lemma StepKeepsInvariant(s: State, e: Event)
    requires Invariant(s)
    ensures Invariant(Step(s, e))
  {
    if e.DoLogin? {
      LoginKeeps(s, e);
    } else if e.DoRefresh? {
      RefreshKeeps(s, e);
    } else {
      ShrinkKeeps(s, Step(s, e).tokens);
    }
  }

  lemma {:induction false} RunKeepsInvariant(es: seq<Event>)
    ensures Invariant(Run(INIT, es))
  {
    if es != [] {
      RunKeepsInvariant(es[..|es| - 1]);
      StepKeepsInvariant(Run(INIT, es[..|es| - 1]), es[|es| - 1]);
    }
  }

  // ---------------------------------------------------------------- the history only grows

  ghost predicate Extends(t: State, s: State) {
    && s.sessions <= t.sessions
    && forall h :: h in s.sessionOf ==> h in t.sessionOf && t.sessionOf[h] == s.sessionOf[h]
  }

  /** An issued token that is gone or revoked. */
  predicate Dead(s: State, h: TokenHash) {
    h in s.sessionOf && !Live(s, h)
  }

  lemma StepExtends(s: State, e: Event)
    requires Invariant(s)
    ensures Extends(Step(s, e), s)
    ensures forall h :: Dead(s, h) ==> Dead(Step(s, e), h)
  {
  }

  lemma {:induction false} RunExtends(s: State, more: seq<Event>)
    requires Invariant(s)
    ensures Invariant(Run(s, more)) && Extends(Run(s, more), s)
    ensures forall h :: Dead(s, h) ==> Dead(Run(s, more), h)
  {
    if more != [] {
      var init := more[..|more| - 1];
      RunExtends(s, init);
      StepKeepsInvariant(Run(s, init), more[|more| - 1]);
      StepExtends(Run(s, init), more[|more| - 1]);
    }
  }

  // ---------------------------------------------------------------- main results

  /** In every run a login's chain has at most one usable token, and one expiry for all its tokens. */
  lemma ChainsAreLinear(es: seq<Event>, h: TokenHash, k: TokenHash)
    requires var s := Run(INIT, es);
             h in s.tokens && k in s.tokens && h in s.sessionOf && k in s.sessionOf && s.sessionOf[h] == s.sessionOf[k]
    ensures var s := Run(INIT, es);
            && s.tokens[h].absoluteExpiresAt == s.tokens[k].absoluteExpiresAt
            && s.tokens[h].userId == s.tokens[k].userId
            && (Live(s, h) && Live(s, k) ==> h == k)
  {
    RunKeepsInvariant(es);
  }

  /** A refresh that succeeds does so within its login's lifetime and stays in its login's chain. */
  lemma RefreshWithinSession(es: seq<Event>, e: Event)
    requires e.DoRefresh? && !Repeats(Run(INIT, es), e.newHash) && RefreshOutcome(Run(INIT, es), e) == Issued
    ensures var s, t := Run(INIT, es), Step(Run(INIT, es), e);
            && e.hash in s.sessionOf && e.newHash in t.sessionOf && t.sessionOf[e.newHash] == s.sessionOf[e.hash] < |s.sessions|
            && e.now <= s.sessions[s.sessionOf[e.hash]].absoluteExpiresAt
            && t.sessions == s.sessions
            && Live(t, e.newHash) && !Live(t, e.hash)
  {
    RunKeepsInvariant(es);
  }

  /** The token's user, as the history knows it. */
  function UserOf(s: State, h: TokenHash): Option<UserId> {
    if h in s.sessionOf && s.sessionOf[h] < |s.sessions| then Some(s.sessions[s.sessionOf[h]].userId) else None
  }

  /** Presenting a stored, already revoked token kills every token the user had. */
  lemma ReuseKillsAll(s: State, e: Event, h: TokenHash)
    requires Invariant(s) && e.DoRefresh? && e.signed && !Repeats(s, e.newHash)
    requires e.hash in s.tokens && s.tokens[e.hash].revokedAt.Some?
    requires UserOf(s, h) == Some(s.tokens[e.hash].userId)
    ensures RefreshOutcome(s, e) == AccessDenied
    ensures Dead(Step(s, e), h)
  {
  }

  /**
   After any attempt to refresh with a stored, already revoked token, no token issued to that user
   before the attempt can refresh again, whatever happens later.
   */
  lemma NoRefreshAfterReuse(es: seq<Event>, e: Event, h: TokenHash, more: seq<Event>, again: Event)
    requires e.DoRefresh? && e.signed && !Repeats(Run(INIT, es), e.newHash)
    requires e.hash in Run(INIT, es).tokens && Run(INIT, es).tokens[e.hash].revokedAt.Some?
    requires UserOf(Run(INIT, es), h) == Some(Run(INIT, es).tokens[e.hash].userId)
    requires again.DoRefresh? && again.hash == h
    ensures RefreshOutcome(Run(Step(Run(INIT, es), e), more), again) != Issued
  {
    var s := Run(INIT, es);
    RunKeepsInvariant(es);
    ReuseKillsAll(s, e, h);
    StepKeepsInvariant(s, e);
    RunExtends(Step(s, e), more);
    assert Dead(Run(Step(s, e), more), h);
  }

  /** A rotated token, replayed while its row still exists, is detected and kills every session of its user. */
  lemma ReplayIsDetected(es: seq<Event>, e: Event, more: seq<Event>, replay: Event, h: TokenHash)
    requires e.DoRefresh? && !Repeats(Run(INIT, es), e.newHash) && RefreshOutcome(Run(INIT, es), e) == Issued
    requires replay.DoRefresh? && replay.hash == e.hash && replay.signed
    requires var t := Run(Step(Run(INIT, es), e), more);
             e.hash in t.tokens && !Repeats(t, replay.newHash) && UserOf(t, h) == Some(t.tokens[e.hash].userId)
    ensures var t := Run(Step(Run(INIT, es), e), more);
            RefreshOutcome(t, replay) == AccessDenied && Dead(Step(t, replay), h)
  {
    var s := Step(Run(INIT, es), e);
    RunKeepsInvariant(es);
    StepKeepsInvariant(Run(INIT, es), e);
    RefreshWithinSession(es, e);
    RunExtends(s, more);
    assert Dead(s, e.hash);
    ReuseKillsAll(Run(s, more), replay, h);
  }

  /** After all of a user's tokens are revoked, or a logout without a token, none issued before refreshes again, whatever happens later. */
  lemma NoRefreshAfterRevokeAll(es: seq<Event>, e: Event, h: TokenHash, more: seq<Event>, again: Event)
    requires e.DoRevokeAll? || (e.DoLogout? && e.logoutHash.None?)
    requires UserOf(Run(INIT, es), h) == Some(e.userId)
    requires again.DoRefresh? && again.hash == h
    ensures RefreshOutcome(Run(Step(Run(INIT, es), e), more), again) != Issued
  {
    var s := Run(INIT, es);
    RunKeepsInvariant(es);
    StepKeepsInvariant(s, e);
    assert Dead(Step(s, e), h);
    RunExtends(Step(s, e), more);
    assert Dead(Run(Step(s, e), more), h);
  }

  /** Once the owner has revoked a login's live token, no token of that login refreshes again, whatever happens later. */
  lemma NoRefreshAfterRevokedSession(es: seq<Event>, e: Event, h: TokenHash, more: seq<Event>, again: Event)
    requires e.DoRevoke?
    requires var s := Run(INIT, es);
             && Live(s, e.hash) && s.tokens[e.hash].userId == e.userId
             && e.hash in s.sessionOf && h in s.sessionOf && s.sessionOf[h] == s.sessionOf[e.hash]
    requires again.DoRefresh? && again.hash == h
    ensures RefreshOutcome(Run(Step(Run(INIT, es), e), more), again) != Issued
  {
    var s := Run(INIT, es);
    RunKeepsInvariant(es);
    StepKeepsInvariant(s, e);
    assert Dead(Step(s, e), h);
    RunExtends(Step(s, e), more);
    assert Dead(Run(Step(s, e), more), h);
  }

  /** A deletion step removes exactly the tokens past their expiry, and no login from the history. */
  lemma DeletionStep(s: State, now: int, h: TokenHash)
    ensures var t := Step(s, DoDeleteExpired(now));
            && (h in t.tokens <==> h in s.tokens && now <= s.tokens[h].expiresAt)
            && (h in t.tokens ==> t.tokens[h] == s.tokens[h])
            && t.sessions == s.sessions && t.sessionOf == s.sessionOf
  {
  }
}
