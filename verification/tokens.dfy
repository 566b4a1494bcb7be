/**
 * Refresh-token families (apps/api/src/auth/token.service.ts): rotation with reuse detection over
 * every run. A token is named by its hash; `rotate` is one atomic step.
 */
module Tokens {
  import opened Options

  datatype Token = Token(user: string, family: string, expires: int, consumed: bool, revoked: bool)

  type Table = map<string, Token>

  datatype Outcome = Rotated | Unknown | Revoked | Reused | Expired | PrincipalGone

  /** Why a rotation is refused, in the order the checks are made. */
  function Judge(t: Table, h: string, now: int, active: bool): Outcome {
    if h !in t then Unknown
    else if t[h].revoked then Revoked
    else if t[h].consumed then Reused
    else if t[h].expires <= now then Expired
    else if !active then PrincipalGone
    else Rotated
  }

  /**
   * A token is exchanged exactly when it is on record, neither revoked nor spent nor expired, and its user is
   * still there.
   */
  lemma RotatedExactly(t: Table, h: string, now: int, active: bool)
    ensures Judge(t, h, now, active) == Rotated
            <==> h in t && !t[h].revoked && !t[h].consumed && now < t[h].expires && active
  {
  }

  // ---- what the operations do to the table ----

  function Minted(t: Table, h: string, user: string, family: string, expires: int): Table {
    t[h := Token(user, family, expires, false, false)]
  }

  function FamilyRevoked(t: Table, family: string): Table {
    map h | h in t :: if t[h].family == family then t[h].(revoked := true) else t[h]
  }

  function OneRevoked(t: Table, token: string): Table {
    if token in t then t[token := t[token].(revoked := true)] else t
  }

  /** The family a presented token keeps alive: its own, when it is this user's. */
  function Spared(t: Table, user: string, except: Option<string>): Option<string> {
    if except.Some? && except.value != "" && except.value in t && t[except.value].user == user
    then Some(t[except.value].family) else None
  }

  function UserRevoked(t: Table, user: string, except: Option<string>): Table {
    map h | h in t ::
      if t[h].user == user && Spared(t, user, except) != Some(t[h].family) then t[h].(revoked := true) else t[h]
  }

  function Pruned(t: Table, olderThan: int): Table {
    map h | h in t && t[h].expires >= olderThan :: t[h]
  }

  /** One rotation: consume and re-issue, or revoke the family, or leave everything. */
  function AfterRotate(t: Table, h: string, now: int, active: bool, next: string, expires: int): Table {
    match Judge(t, h, now, active)
    case Rotated => Minted(t[h := t[h].(consumed := true)], next, t[h].user, t[h].family, expires)
    case Reused => FamilyRevoked(t, t[h].family)
    case PrincipalGone => FamilyRevoked(t, t[h].family)
    case _ => t
  }

  // ---- runs ----

  /** The table, and every token and family ever created. */
  datatype Sessions = Sessions(tokens: Table, hashes: set<string>, families: set<string>)

  datatype Request =
    | Issue(user: string, family: string, token: string, expires: int)
    | Rotate(token: string, now: int, active: bool, next: string, expires: int)
    | Revoke(token: string)
    | RevokeAll(user: string, except: Option<string>)
    | Prune(olderThan: int)

  /** New tokens and families are random: never seen before. */
  predicate Fresh(s: Sessions, r: Request) {
    match r
    case Issue(_, family, token, _) => token !in s.hashes && family !in s.families
    case Rotate(_, _, _, next, _) => next !in s.hashes
    case _ => true
  }

  function Next(s: Sessions, r: Request): Sessions {
    match r
    case Issue(user, family, token, expires) =>
      Sessions(Minted(s.tokens, token, user, family, expires), s.hashes + {token}, s.families + {family})
    case Rotate(token, now, active, next, expires) =>
      s.(tokens := AfterRotate(s.tokens, token, now, active, next, expires), hashes := s.hashes + {next})
    case Revoke(token) => s.(tokens := OneRevoked(s.tokens, token))
    case RevokeAll(user, except) => s.(tokens := UserRevoked(s.tokens, user, except))
    case Prune(olderThan) => s.(tokens := Pruned(s.tokens, olderThan))
  }

  predicate Live(t: Table, h: string) {
    h in t && !t[h].consumed && !t[h].revoked
  }

  ghost predicate OneLivePerFamily(t: Table) {
    forall a, b | Live(t, a) && Live(t, b) && t[a].family == t[b].family :: a == b
  }

  ghost predicate OneUserPerFamily(t: Table) {
    forall a, b | a in t && b in t && t[a].family == t[b].family :: t[a].user == t[b].user
  }

  ghost predicate Known(s: Sessions) {
    forall h | h in s.tokens :: h in s.hashes && s.tokens[h].family in s.families
  }

  ghost predicate Inv(s: Sessions) {
    Known(s) && OneLivePerFamily(s.tokens) && OneUserPerFamily(s.tokens)
  }

  /** No token of the family can be rotated. */
  ghost predicate Dead(s: Sessions, family: string) {
    family in s.families && forall h | Live(s.tokens, h) :: s.tokens[h].family != family
  }

  /** The later table's tokens are tokens of the earlier one, no more alive than they were. */
  ghost predicate OnlyDies(t: Table, u: Table) {
    forall h | h in u :: h in t && u[h].family == t[h].family && u[h].user == t[h].user && (Live(u, h) ==> Live(t, h))
  }

  lemma RequestKeepsInv(s: Sessions, r: Request)
    requires Inv(s) && Fresh(s, r)
    ensures Inv(Next(s, r))
  {
    if r.Rotate? && Judge(s.tokens, r.token, r.now, r.active) == Rotated {
      RotationKeepsInv(s, r);
    } else if !r.Issue? {
      assert OnlyDies(s.tokens, Next(s, r).tokens);
    }
  }

  lemma RotationKeepsInv(s: Sessions, r: Request)
    requires Inv(s) && Fresh(s, r) && r.Rotate? && Judge(s.tokens, r.token, r.now, r.active) == Rotated
    ensures Inv(Next(s, r))
  {
    var u := Next(s, r).tokens;
    assert forall h | h in u && h != r.next ::
             h in s.tokens && u[h].family == s.tokens[h].family && u[h].user == s.tokens[h].user;
    assert forall h | Live(u, h) && h != r.next :: Live(s.tokens, h) && h != r.token;
  }

  lemma DeadStaysDead(s: Sessions, r: Request, family: string)
    requires Inv(s) && Fresh(s, r) && Dead(s, family)
    ensures Dead(Next(s, r), family)
    ensures r.Rotate? && r.token in s.tokens && s.tokens[r.token].family == family ==>
              Judge(s.tokens, r.token, r.now, r.active) != Rotated
  {
    var u := Next(s, r).tokens;
    forall h | Live(u, h) ensures u[h].family != family {
      if r.Rotate? && Judge(s.tokens, r.token, r.now, r.active) == Rotated {
        assert Live(s.tokens, r.token);
        if h != r.next { assert Live(s.tokens, h); }
      } else if !r.Issue? {
        assert OnlyDies(s.tokens, u);
      } else if h != r.token {
        assert Live(s.tokens, h);
      }
    }
  }

  ghost predicate Run(s: Sessions, rs: seq<Request>)
    decreases |rs|
  {
    rs == [] || (Fresh(s, rs[0]) && Run(Next(s, rs[0]), rs[1..]))
  }

  function Final(s: Sessions, rs: seq<Request>): Sessions
    decreases |rs|
  {
    if rs == [] then s else Final(Next(s, rs[0]), rs[1..])
  }

  /** An exchange: the token, its family, when it expires and when it was presented. */
  datatype Use = Use(token: string, family: string, expires: int, at: int)

  /** The tokens exchanged for a new pair along a run, in order. */
  function Rotations(s: Sessions, rs: seq<Request>): seq<Use>
    decreases |rs|
  {
    if rs == [] then []
    else
      var r := rs[0];
      var rest := Rotations(Next(s, r), rs[1..]);
      if r.Rotate? && Judge(s.tokens, r.token, r.now, r.active) == Rotated
      then [Use(r.token, s.tokens[r.token].family, s.tokens[r.token].expires, r.now)] + rest
      else rest
  }

  const START := Sessions(map[], {}, {})

  lemma {:induction false} RunKeepsInv(s: Sessions, rs: seq<Request>)
    requires Inv(s) && Run(s, rs)
    ensures Inv(Final(s, rs))
    decreases |rs|
  {
    if rs != [] {
      RequestKeepsInv(s, rs[0]);
      RunKeepsInv(Next(s, rs[0]), rs[1..]);
    }
  }

  /** After any run a family has at most one token that could still be exchanged, and belongs to one user. */
  lemma FamiliesAreChains(rs: seq<Request>)
    requires Run(START, rs)
    ensures OneLivePerFamily(Final(START, rs).tokens) && OneUserPerFamily(Final(START, rs).tokens)
  {
    RunKeepsInv(START, rs);
  }

  /** A dead family never rotates again, whatever follows. */
  lemma {:induction false} DeadNeverRotates(s: Sessions, rs: seq<Request>, family: string)
    requires Inv(s) && Run(s, rs) && Dead(s, family)
    ensures Dead(Final(s, rs), family)
    ensures forall i | 0 <= i < |Rotations(s, rs)| :: Rotations(s, rs)[i].family != family
    decreases |rs|
  {
    if rs != [] {
      RequestKeepsInv(s, rs[0]);
      DeadStaysDead(s, rs[0], family);
      DeadNeverRotates(Next(s, rs[0]), rs[1..], family);
    }
  }

  /** Detected reuse kills the whole family for good, and with it the thief's or the victim's current token. */
  lemma ReuseEndsFamily(s: Sessions, r: Request, rs: seq<Request>)
    requires Inv(s) && Fresh(s, r) && r.Rotate? && Run(Next(s, r), rs)
    requires Judge(s.tokens, r.token, r.now, r.active) in {Reused, PrincipalGone}
    ensures forall i | 0 <= i < |Rotations(Next(s, r), rs)| ::
            Rotations(Next(s, r), rs)[i].family != s.tokens[r.token].family
  {
    RequestKeepsInv(s, r);
    DeadNeverRotates(Next(s, r), rs, s.tokens[r.token].family);
  }

  /**
   * Revoking a token ends its family for good exactly when no other token of the family is live: revoking
   * the current token always does, revoking a spent one while the current one lives does not.
   */
  lemma RevokeEndsFamilyExactly(s: Sessions, token: string)
    requires Inv(s) && token in s.tokens
    ensures Dead(Next(s, Revoke(token)), s.tokens[token].family)
            <==> forall h | Live(s.tokens, h) && s.tokens[h].family == s.tokens[token].family :: h == token
    ensures Live(s.tokens, token) ==> Dead(Next(s, Revoke(token)), s.tokens[token].family)
  {
    var u := Next(s, Revoke(token)).tokens;
    assert forall h :: Live(u, h) <==> Live(s.tokens, h) && h != token;
  }

  /**
   * After a revocation for a user only the family of the presented token, when it is that user's, can still be
   * live.
   */
  lemma RevokeAllSparesOnlyOwnFamily(s: Sessions, user: string, except: Option<string>)
    requires Inv(s)
    ensures var u := Next(s, RevokeAll(user, except));
            var own := except.Some? && except.value != "" && except.value in s.tokens
                       && s.tokens[except.value].user == user;
            && u.tokens.Keys == s.tokens.Keys
            && (forall h | h in s.tokens && s.tokens[h].user == user ::
                  if own && s.tokens[h].family == s.tokens[except.value].family
                  then u.tokens[h] == s.tokens[h] else Dead(u, s.tokens[h].family))
            && (forall h | h in s.tokens && s.tokens[h].user != user :: u.tokens[h] == s.tokens[h])
  {
    var u := Next(s, RevokeAll(user, except));
    forall h | h in s.tokens && s.tokens[h].user == user && Spared(s.tokens, user, except) != Some(s.tokens[h].family)
      ensures Dead(u, s.tokens[h].family)
    {
      forall g | Live(u.tokens, g) ensures u.tokens[g].family != s.tokens[h].family {
        assert g in s.tokens && u.tokens[g].family == s.tokens[g].family;
      }
    }
  }

  /** A token that is not this user's spares nothing: every session of the user ends. */
  lemma ForeignTokenSparesNothing(s: Sessions, user: string, token: string, rs: seq<Request>)
    requires Inv(s) && (token !in s.tokens || s.tokens[token].user != user)
    requires Run(Next(s, RevokeAll(user, Some(token))), rs)
    ensures forall h, i | h in s.tokens && s.tokens[h].user == user
                          && 0 <= i < |Rotations(Next(s, RevokeAll(user, Some(token))), rs)| ::
              Rotations(Next(s, RevokeAll(user, Some(token))), rs)[i].family != s.tokens[h].family
  {
    var u := Next(s, RevokeAll(user, Some(token)));
    RequestKeepsInv(s, RevokeAll(user, Some(token)));
    RevokeAllSparesOnlyOwnFamily(s, user, Some(token));
    forall h | h in s.tokens && s.tokens[h].user == user
      ensures forall i | 0 <= i < |Rotations(u, rs)| :: Rotations(u, rs)[i].family != s.tokens[h].family
    {
      DeadNeverRotates(u, rs, s.tokens[h].family);
    }
  }

  // ---- expiry ----

  /** Every exchange of a run is of a token that had not expired. */
  lemma {:induction false} ExchangedInTime(s: Sessions, rs: seq<Request>)
    ensures forall i | 0 <= i < |Rotations(s, rs)| :: Rotations(s, rs)[i].at < Rotations(s, rs)[i].expires
    decreases |rs|
  {
    if rs != [] { ExchangedInTime(Next(s, rs[0]), rs[1..]); }
  }

  /** A token after a request is one from before, on the terms it was made on, and no less spent or revoked. */
  ghost predicate OnSameTerms(a: Token, b: Token) {
    && b.expires == a.expires && b.user == a.user && b.family == a.family
    && (a.consumed ==> b.consumed) && (a.revoked ==> b.revoked)
  }

  lemma RequestKeepsTerms(s: Sessions, r: Request, h: string)
    requires Inv(s) && Fresh(s, r) && h in s.hashes && h in Next(s, r).tokens
    ensures h in s.tokens && OnSameTerms(s.tokens[h], Next(s, r).tokens[h])
  {
  }

  /** Nothing in a run extends the life of a token, moves it to another user or family, or brings it back. */
  lemma {:induction false} TokensKeepTheirTerms(s: Sessions, rs: seq<Request>, h: string)
    requires Inv(s) && Run(s, rs) && h in s.hashes && h in Final(s, rs).tokens
    ensures h in s.tokens && OnSameTerms(s.tokens[h], Final(s, rs).tokens[h])
    decreases |rs|
  {
    if rs != [] {
      RequestKeepsInv(s, rs[0]);
      TokensKeepTheirTerms(Next(s, rs[0]), rs[1..], h);
      RequestKeepsTerms(s, rs[0], h);
    }
  }

  /**
   * Housekeeping that drops what has expired by then changes no later answer to a token that could be
   * exchanged, nor makes one.
   */
  lemma PruneSparesLive(t: Table, olderThan: int, h: string, now: int, active: bool)
    requires olderThan <= now
    ensures Judge(Pruned(t, olderThan), h, now, active) == Rotated <==> Judge(t, h, now, active) == Rotated
    ensures h in Pruned(t, olderThan) <==> h in t && olderThan <= t[h].expires
    ensures h in Pruned(t, olderThan) ==> Pruned(t, olderThan)[h] == t[h]
  {
  }

  // ---- single exchange ----

  /** A spent token is never exchanged again. */
  lemma {:induction false} SpentStaysSpent(s: Sessions, rs: seq<Request>, token: string)
    requires Inv(s) && Run(s, rs) && token in s.hashes && !Live(s.tokens, token)
    ensures forall i | 0 <= i < |Rotations(s, rs)| :: Rotations(s, rs)[i].token != token
    decreases |rs|
  {
    if rs != [] {
      var r := rs[0];
      RequestKeepsInv(s, r);
      assert !Live(Next(s, r).tokens, token);
      SpentStaysSpent(Next(s, r), rs[1..], token);
    }
  }

  /** Every refresh token is exchanged at most once over any run. */
  lemma {:induction false} ExchangedAtMostOnce(s: Sessions, rs: seq<Request>)
    requires Inv(s) && Run(s, rs)
    ensures forall i, j | 0 <= i < j < |Rotations(s, rs)| :: Rotations(s, rs)[i].token != Rotations(s, rs)[j].token
    decreases |rs|
  {
    if rs != [] {
      var r := rs[0];
      RequestKeepsInv(s, r);
      ExchangedAtMostOnce(Next(s, r), rs[1..]);
      if r.Rotate? && Judge(s.tokens, r.token, r.now, r.active) == Rotated {
        SpentStaysSpent(Next(s, r), rs[1..], r.token);
      }
    }
  }

  /**
   * What the replay of a spent token does to its family, exactly: the family is dead afterwards if it
   * already was, or if the token's row is still there and was not revoked by itself. Otherwise its
   * current token lives on.
   */
  lemma ReplayEndsFamilyExactly(s: Sessions, r: Request, family: string)
    requires Inv(s) && Fresh(s, r) && r.Rotate? && r.token in s.hashes && !Live(s.tokens, r.token)
             && family in s.families
    requires r.token in s.tokens ==> s.tokens[r.token].family == family
    ensures Dead(Next(s, r), family) <==> Dead(s, family) || (r.token in s.tokens && !s.tokens[r.token].revoked)
    ensures r.token !in s.tokens ==> Judge(s.tokens, r.token, r.now, r.active) == Unknown
  {
    var u := Next(s, r).tokens;
    if r.token in s.tokens && !s.tokens[r.token].revoked {
      assert forall h | Live(u, h) :: u[h].family != family;
    } else {
      assert u == s.tokens;
    }
  }

  /** A session whose first token is spent and then dropped by housekeeping. */
  const PRUNED_SESSION := [
    Issue("user", "family", "first", 10),
    Rotate("first", 5, true, "second", 20),
    Prune(15)]

  const REPLAYED := [Rotate("first", 16, true, "third", 30), Rotate("second", 17, true, "fourth", 31)]

  /**
   * A run from the start in which a replay goes unnoticed: the spent token is refused as unknown, and the
   * token that replaced it is exchanged right after.
   */
  lemma PrunedReplayGoesUnnoticed()
    ensures Run(START, PRUNED_SESSION + REPLAYED)
    ensures Rotations(START, PRUNED_SESSION + REPLAYED)
         == [Use("first", "family", 10, 5), Use("second", "family", 20, 17)]
  {
    var rs := PRUNED_SESSION + REPLAYED;
    var s1 := Next(START, rs[0]);
    var s2 := Next(s1, rs[1]);
    var s3 := Next(s2, rs[2]);
    var s4 := Next(s3, rs[3]);
    var s5 := Next(s4, rs[4]);
    assert rs[1..][1..] == rs[2..] && rs[2..][1..] == rs[3..] && rs[3..][1..] == rs[4..] && rs[4..][1..] == [];
    assert s3.tokens == map["second" := Token("user", "family", 20, false, false)];
    assert s4.tokens == s3.tokens;
    assert Run(s5, []) && Rotations(s5, []) == [];
    assert Run(s4, rs[4..]) && Rotations(s4, rs[4..]) == [Use("second", "family", 20, 17)];
    assert Run(s3, rs[3..]) && Rotations(s3, rs[3..]) == [Use("second", "family", 20, 17)];
    assert Run(s2, rs[2..]) && Rotations(s2, rs[2..]) == [Use("second", "family", 20, 17)];
    assert Run(s1, rs[1..])
           && Rotations(s1, rs[1..]) == [Use("first", "family", 10, 5), Use("second", "family", 20, 17)];
  }

  // ---- the service ----

  class TokenService {
    var tokens: Table
    const lifetime: nat

    constructor (lifetime: nat)
      ensures tokens == map[] && this.lifetime == lifetime
    {
      tokens := map[];
      this.lifetime := lifetime;
    }

    method Mint(user: string, family: string, now: int, token: string)
      modifies this
      ensures tokens == Minted(old(tokens), token, user, family, now + lifetime)
    {
      tokens := tokens[token := Token(user, family, now + lifetime, false, false)];
    }

    method Issue(user: string, family: string, now: int, token: string)
      modifies this
      ensures tokens == Minted(old(tokens), token, user, family, now + lifetime)
    {
      Mint(user, family, now, token);
    }

    method Rotate(presented: string, now: int, active: bool, next: string) returns (outcome: Outcome)
      modifies this
      ensures outcome == Judge(old(tokens), presented, now, active)
      ensures tokens == AfterRotate(old(tokens), presented, now, active, next, now + lifetime)
      ensures outcome == Rotated <==>
                && presented in old(tokens) && !old(tokens)[presented].revoked && !old(tokens)[presented].consumed
                && now < old(tokens)[presented].expires && active
      ensures outcome == Rotated && next !in old(tokens) ==>
                && tokens.Keys == old(tokens).Keys + {next}
                && tokens[next] == Token(old(tokens)[presented].user, old(tokens)[presented].family, now + lifetime,
                                         false, false)
                && tokens[presented] == old(tokens)[presented].(consumed := true)
                && (forall h | h in old(tokens) && h != presented :: tokens[h] == old(tokens)[h])
      ensures outcome in {Reused, PrincipalGone} ==>
                && tokens.Keys == old(tokens).Keys
                && (forall h | h in tokens && old(tokens)[h].family == old(tokens)[presented].family ::
                      tokens[h] == old(tokens)[h].(revoked := true))
                && (forall h | h in tokens && old(tokens)[h].family != old(tokens)[presented].family ::
                      tokens[h] == old(tokens)[h])
      ensures outcome in {Unknown, Revoked, Expired} ==> tokens == old(tokens)
      ensures outcome == Unknown <==> presented !in old(tokens)
      ensures presented in old(tokens) ==>
                var row := old(tokens)[presented];
                && (outcome == Revoked <==> row.revoked)
                && (outcome == Reused <==> row.consumed && !row.revoked)
                && (outcome == Expired <==> row.expires <= now && !row.consumed && !row.revoked)
    {
      if presented !in tokens {
        return Unknown;
      }
      var record := tokens[presented];
      if record.revoked {
        return Revoked;
      }
      if record.consumed {
        RevokeFamily(record.family);
        return Reused;
      }
      if record.expires <= now {
        return Expired;
      }
      if !active {
        RevokeFamily(record.family);
        return PrincipalGone;
      }
      tokens := tokens[presented := record.(consumed := true)];
      Mint(record.user, record.family, now, next);
      outcome := Rotated;
    }

    method Revoke(presented: string)
      modifies this
      ensures tokens == OneRevoked(old(tokens), presented)
    {
      if presented in tokens && !tokens[presented].revoked {
        tokens := tokens[presented := tokens[presented].(revoked := true)];
      }
    }

    method RevokeFamily(family: string)
      modifies this
      ensures tokens == FamilyRevoked(old(tokens), family)
    {
      tokens := map h | h in tokens ::
        if tokens[h].family == family && !tokens[h].revoked then tokens[h].(revoked := true) else tokens[h];
    }

    method RevokeAllForUser(user: string, except: Option<string>)
      modifies this
      ensures tokens == UserRevoked(old(tokens), user, except)
    {
      var keep: Option<string> := None;
      if except.Some? && except.value != "" {
        if except.value in tokens && tokens[except.value].user == user {
          keep := Some(tokens[except.value].family);
        }
      }
      tokens := map h | h in tokens ::
        if tokens[h].user == user && !tokens[h].revoked && (keep.None? || tokens[h].family != keep.value)
        then tokens[h].(revoked := true) else tokens[h];
    }

    method PruneExpired(olderThan: int) returns (count: nat)
      modifies this
      ensures tokens == Pruned(old(tokens), olderThan)
      ensures count == |old(tokens)| - |tokens|
    {
      var gone := set h | h in tokens && tokens[h].expires < olderThan;
      count := |gone|;
      assert tokens - gone == Pruned(tokens, olderThan);
      assert tokens.Keys == (tokens - gone).Keys + gone;
      tokens := tokens - gone;
    }
  }
}
