/** Install grants and their single use (packages/tls-grant/src/index.ts). Times are milliseconds. */
module Grants {
  import opened Options

  const PURPOSE := "console-tls-install"
  const VERSION := "v1"
  const DEFAULT_TTL_SECONDS: nat := 300

  /** The signed part of a token as it decodes; `None` fields are of the wrong type. */
  datatype Body = Undecodable | Decoded(nonce: Option<string>, exp: Option<int>, purpose: string)

  /** A token on the wire. `sealedWith` is the secret whose signature it carries. */
  datatype Token = Junk | Token(version: string, body: Body, sealedWith: string)

  datatype Verdict = Valid | Malformed | BadSignature | Expired | WrongPurpose | Replayed

  type Seen = map<string, nat>

  function Mint(secret: string, nonce: string, now: nat, ttl: nat): Token {
    Token(VERSION, Decoded(Some(nonce), Some(now / 1000 + ttl), PURPOSE), secret)
  }

  /** Nonces remembered at `now`: everything not older than twice the default lifetime. */
  function Kept(seen: Seen, now: nat): Seen {
    map n | n in seen && seen[n] >= now - DEFAULT_TTL_SECONDS * 2000 :: seen[n]
  }

  function Verify(secret: string, token: Token, now: nat, seen: Seen): (Verdict, Seen) {
    if token.Junk? || token.version != VERSION then (Malformed, seen)
    else if token.sealedWith != secret then (BadSignature, seen)
    else if token.body.Undecodable? || token.body.nonce == None || token.body.exp == None then (Malformed, seen)
    else if token.body.purpose != PURPOSE then (WrongPurpose, seen)
    else if now / 1000 >= token.body.exp.value then (Expired, seen)
    else if token.body.nonce.value in Kept(seen, now) then (Replayed, Kept(seen, now))
    else (Valid, Kept(seen, now)[token.body.nonce.value := now])
  }

  /**
   * A grant is valid exactly when it carries this secret's seal, the version and the purpose, has a nonce and
   * an expiry that has not come, and the nonce was not spent in the last ten minutes.
   */
  lemma ValidExactly(secret: string, token: Token, now: nat, seen: Seen)
    ensures Verify(secret, token, now, seen).0 == Valid <==>
              && token.Token? && token.sealedWith == secret && token.version == "v1"
              && token.body.Decoded? && token.body.purpose == "console-tls-install"
              && token.body.nonce.Some? && token.body.exp.Some? && now / 1000 < token.body.exp.value
              && (token.body.nonce.value in seen ==> seen[token.body.nonce.value] + 600_000 < now)
  {
  }

  /** Nothing in a forged token is looked at, and it leaves what is remembered alone. */
  lemma ForgedIsRefused(secret: string, token: Token, now: nat, seen: Seen)
    requires token.Token? && token.sealedWith != secret
    ensures Verify(secret, token, now, seen).0 == if token.version == "v1" then BadSignature else Malformed
    ensures Verify(secret, token, now, seen).1 == seen
  {
  }

  /** Why a sealed token is refused: by its shape, then its purpose, then its age, and last because it was spent. */
  lemma RefusedExactly(secret: string, token: Token, now: nat, seen: Seen)
    requires token.Token? && token.version == "v1" && token.sealedWith == secret
    ensures var v := Verify(secret, token, now, seen).0;
            var whole := token.body.Decoded? && token.body.nonce.Some? && token.body.exp.Some?;
            && v != BadSignature
            && (v == Malformed <==> !whole)
            && (v == WrongPurpose <==> whole && token.body.purpose != "console-tls-install")
            && (v == Expired <==> whole && token.body.purpose == "console-tls-install"
                                  && now / 1000 >= token.body.exp.value)
            && (v == Replayed <==> whole && token.body.purpose == "console-tls-install"
                                   && now / 1000 < token.body.exp.value
                                   && token.body.nonce.value in seen && seen[token.body.nonce.value] + 600_000 >= now)
  {
  }

  /** Only a grant that is otherwise good touches what is remembered: its nonce is, if it is accepted. */
  lemma SpentLast(secret: string, token: Token, now: nat, seen: Seen)
    ensures var (v, seen') := Verify(secret, token, now, seen);
            && (v !in {Valid, Replayed} ==> seen' == seen)
            && (v == Valid ==> token.body.nonce.value in seen' && seen'[token.body.nonce.value] == now)
            && (forall n | n in seen && !(v == Valid && token.body.nonce == Some(n)) ::
                  (n in seen' ==> seen'[n] == seen[n]) && (seen[n] + 600_000 >= now ==> n in seen'))
            && (forall n | n in seen' :: n in seen || (v == Valid && token.body.nonce == Some(n)))
  {
  }

  class SpentGrants {
    var seen: Seen

    constructor ()
      ensures seen == map[]
    {
      seen := map[];
    }

    method Sweep(now: nat)
      modifies this
      ensures seen == Kept(old(seen), now)
    {
      var left := seen.Keys;
      var cutoff: int := now - DEFAULT_TTL_SECONDS * 2000;
      while left != {}
        invariant left <= seen.Keys <= old(seen).Keys
        invariant forall n | n in seen :: seen[n] == old(seen)[n]
        invariant forall n | n in old(seen) && n !in left :: n in seen <==> old(seen)[n] >= cutoff
        decreases |left|
      {
        var n :| n in left;
        if seen[n] < cutoff {
          seen := seen - {n};
        }
        left := left - {n};
      }
    }

    method Consume(nonce: string, now: nat) returns (first: bool)
      modifies this
      ensures first <==> nonce !in Kept(old(seen), now)
      ensures seen == if first then Kept(old(seen), now)[nonce := now] else Kept(old(seen), now)
    {
      Sweep(now);
      if nonce in seen {
        return false;
      }
      seen := seen[nonce := now];
      first := true;
    }

    /** Signature first, then shape, purpose and expiry; the nonce is spent last. */
    method VerifyGrant(secret: string, token: Token, now: nat) returns (verdict: Verdict)
      modifies this
      ensures (verdict, seen) == Verify(secret, token, now, old(seen))
      ensures verdict == Valid <==>
                && token.Token? && token.sealedWith == secret && token.version == "v1"
                && token.body.Decoded? && token.body.purpose == "console-tls-install"
                && token.body.nonce.Some? && token.body.exp.Some? && now / 1000 < token.body.exp.value
                && (token.body.nonce.value in old(seen) ==> old(seen)[token.body.nonce.value] + 600_000 < now)
    {
      ValidExactly(secret, token, now, seen);
      if token.Junk? || token.version != VERSION {
        return Malformed;
      }
      if token.sealedWith != secret {
        return BadSignature;
      }
      if token.body.Undecodable? || token.body.nonce == None || token.body.exp == None {
        return Malformed;
      }
      if token.body.purpose != PURPOSE {
        return WrongPurpose;
      }
      if now / 1000 >= token.body.exp.value {
        return Expired;
      }
      var first := Consume(token.body.nonce.value, now);
      verdict := if first then Valid else Replayed;
    }
  }

  // ---- single use over runs ----

  datatype Attempt = Attempt(token: Token, at: nat)

  /** How often `token` is accepted in a run of attempts. */
  function Accepted(secret: string, seen: Seen, run: seq<Attempt>, token: Token): nat
    decreases |run|
  {
    if run == [] then 0
    else
      var (v, seen') := Verify(secret, run[0].token, run[0].at, seen);
      (if v == Valid && run[0].token == token then 1 else 0) + Accepted(secret, seen', run[1..], token)
  }

  /** The clock never goes back, and starts no earlier than `from`. */
  predicate Forward(from: nat, run: seq<Attempt>)
    decreases |run|
  {
    run == [] || (from <= run[0].at && Forward(run[0].at, run[1..]))
  }

  /** Spent at `at`: still remembered, or so long ago that it was forgotten. */
  predicate SpentAt(seen: Seen, nonce: string, at: nat, now: nat) {
    (nonce in seen && seen[nonce] == at) || at + DEFAULT_TTL_SECONDS * 2000 < now
  }

  /** A grant living at most ten minutes has expired by the time its nonce is forgotten. */
  lemma {:induction false} NeverAgain(secret: string, seen: Seen, run: seq<Attempt>, nonce: string, minted: nat,
      ttl: nat, at: nat, now: nat)
    requires minted <= at <= now && ttl <= 2 * DEFAULT_TTL_SECONDS
    requires SpentAt(seen, nonce, at, now) && Forward(now, run)
    ensures Accepted(secret, seen, run, Mint(secret, nonce, minted, ttl)) == 0
    decreases |run|
  {
    if run != [] {
      var t := run[0].at;
      var (v, seen') := Verify(secret, run[0].token, t, seen);
      if t > at + DEFAULT_TTL_SECONDS * 2000 {
        assert t / 1000 >= minted / 1000 + ttl;
      }
      NeverAgain(secret, seen', run[1..], nonce, minted, ttl, at, t);
    }
  }

  lemma {:induction false} AcceptedAtMostOnce(secret: string, seen: Seen, run: seq<Attempt>, nonce: string, minted: nat,
      ttl: nat, now: nat)
    requires minted <= now && ttl <= 2 * DEFAULT_TTL_SECONDS && Forward(now, run)
    ensures Accepted(secret, seen, run, Mint(secret, nonce, minted, ttl)) <= 1
    decreases |run|
  {
    if run != [] {
      var t := run[0].at;
      var (v, seen') := Verify(secret, run[0].token, t, seen);
      if v == Valid && run[0].token == Mint(secret, nonce, minted, ttl) {
        NeverAgain(secret, seen', run[1..], nonce, minted, ttl, t, t);
      } else {
        AcceptedAtMostOnce(secret, seen', run[1..], nonce, minted, ttl, t);
      }
    }
  }

  /** One millisecond after the sweep forgets a nonce, a longer-lived grant is accepted again. */
  lemma LongLivedGrantReplays(secret: string, nonce: string, ttl: nat)
    requires ttl > 2 * DEFAULT_TTL_SECONDS
    ensures var g := Mint(secret, nonce, 0, ttl);
            var run := [Attempt(g, 0), Attempt(g, 600_001)];
            Forward(0, run) && Accepted(secret, map[], run, g) == 2
  {
    var g := Mint(secret, nonce, 0, ttl);
    var run := [Attempt(g, 0), Attempt(g, 600_001)];
    var seen1 := Verify(secret, g, 0, map[]).1;
    assert Kept(map[], 0) == map[];
    assert seen1 == map[nonce := 0];
    assert Kept(seen1, 600_001) == map[];
    assert Verify(secret, g, 600_001, seen1).0 == Valid;
    var rest := [run[1]];
    assert run[1..] == rest && rest[1..] == [];
    assert Accepted(secret, seen1, rest, g) == 1;
  }

  ghost predicate SingleUse(secret: string, nonce: string, minted: nat, ttl: nat, run: seq<Attempt>) {
    Accepted(secret, map[], run, Mint(secret, nonce, minted, ttl)) <= 1
  }

  /** Grants of a lifetime are single-use in every run exactly when they live no longer than the sweep remembers. */
  lemma SingleUseExactly(secret: string, ttl: nat)
    ensures ttl <= 2 * DEFAULT_TTL_SECONDS <==>
            (forall nonce, minted: nat, run | Forward(minted, run) :: SingleUse(secret, nonce, minted, ttl, run))
  {
    if ttl <= 2 * DEFAULT_TTL_SECONDS {
      forall nonce, minted: nat, run | Forward(minted, run) ensures SingleUse(secret, nonce, minted, ttl, run) {
        AcceptedAtMostOnce(secret, map[], run, nonce, minted, ttl, minted);
      }
    } else {
      LongLivedGrantReplays(secret, "", ttl);
      var run := [Attempt(Mint(secret, "", 0, ttl), 0), Attempt(Mint(secret, "", 0, ttl), 600_001)];
      assert Forward(0, run) && !SingleUse(secret, "", 0, ttl, run);
    }
  }

  // ---- what is not a grant, and what is ----

  /** What is remembered after a run of attempts. */
  function Remembered(secret: string, seen: Seen, run: seq<Attempt>): Seen
    decreases |run|
  {
    if run == [] then seen else Remembered(secret, Verify(secret, run[0].token, run[0].at, seen).1, run[1..])
  }

  /** A token that another secret sealed is never accepted. */
  lemma {:induction false} ForgedNeverAccepted(secret: string, seen: Seen, run: seq<Attempt>, token: Token)
    requires token.Token? && token.sealedWith != secret
    ensures Accepted(secret, seen, run, token) == 0
    decreases |run|
  {
    if run != [] {
      var (v, seen') := Verify(secret, run[0].token, run[0].at, seen);
      if run[0].token == token { ForgedIsRefused(secret, token, run[0].at, seen); }
      ForgedNeverAccepted(secret, seen', run[1..], token);
    }
  }

  /**
   * Forged attempts make no difference: without one of them every token is accepted as often, and as much
   * remembered.
   */
  lemma {:induction false} ForgedMakesNoDifference(
      secret: string, seen: Seen, before: seq<Attempt>, forged: Attempt, after: seq<Attempt>, token: Token)
    requires forged.token.Token? && forged.token.sealedWith != secret
    ensures Accepted(secret, seen, before + [forged] + after, token) == Accepted(secret, seen, before + after, token)
    ensures Remembered(secret, seen, before + [forged] + after) == Remembered(secret, seen, before + after)
    decreases |before|
  {
    var run, without := before + [forged] + after, before + after;
    if before == [] {
      assert run[0] == forged && run[1..] == after && without == after;
      ForgedIsRefused(secret, forged.token, forged.at, seen);
    } else {
      assert run[0] == before[0] && run[1..] == before[1..] + [forged] + after;
      assert without[0] == before[0] && without[1..] == before[1..] + after;
      var seen' := Verify(secret, before[0].token, before[0].at, seen).1;
      ForgedMakesNoDifference(secret, seen', before[1..], forged, after, token);
    }
  }

  predicate Carries(token: Token, nonce: string) {
    token.Token? && token.body.Decoded? && token.body.nonce == Some(nonce)
  }

  /** A nonce that no attempt carries is not remembered. */
  lemma {:induction false} UnusedNotRemembered(secret: string, seen: Seen, run: seq<Attempt>, nonce: string)
    requires nonce !in seen && forall i | 0 <= i < |run| :: !Carries(run[i].token, nonce)
    ensures nonce !in Remembered(secret, seen, run)
    decreases |run|
  {
    if run != [] {
      assert !Carries(run[0].token, nonce);
      SpentLast(secret, run[0].token, run[0].at, seen);
      assert forall i | 0 <= i < |run[1..]| :: run[1..][i] == run[i + 1];
      UnusedNotRemembered(secret, Verify(secret, run[0].token, run[0].at, seen).1, run[1..], nonce);
    }
  }

  /** After any run that does not carry its nonce, a minted grant is accepted exactly while it lives. */
  lemma FreshGrantAcceptedExactly(
      secret: string, run: seq<Attempt>, nonce: string, minted: nat, ttl: nat, at: nat)
    requires forall i | 0 <= i < |run| :: !Carries(run[i].token, nonce)
    ensures Verify(secret, Mint(secret, nonce, minted, ttl), at, Remembered(secret, map[], run)).0
            == if at / 1000 < minted / 1000 + ttl then Valid else Expired
  {
    UnusedNotRemembered(secret, map[], run, nonce);
  }
}
