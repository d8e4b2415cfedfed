/** The two tables of src/auth.c in place. Every call runs under the manager's mutex. */
module AuthManagers {
  import opened Bytes
  import opened Auth

  /** constant_time_equal: all `size` bytes are looked at, and the answer is whether none differs. */
  method ConstantTimeEqual(left: Bytes, right: Bytes, size: nat) returns (equal: bool)
    requires size <= |left| && size <= |right|
    ensures equal <==> left[..size] == right[..size]
  {
    var difference: byte := 0;
    for index := 0 to size
      invariant difference == 0 <==> left[..index] == right[..index]
    {
      DifferenceStep(difference, left[index], right[index]);
      assert left[..index + 1] == left[..index] + [left[index]];
      assert right[..index + 1] == right[..index] + [right[index]];
      difference := difference | (left[index] ^ right[index]);
    }
    return difference == 0;
  }

  lemma DifferenceStep(difference: byte, x: byte, y: byte)
    ensures difference | (x ^ y) == 0 <==> difference == 0 && x == y
  {
  }

  /** Texts have the sizes of their arrays. */
  predicate Sized(c: Challenge) {
    c.occupied ==> |c.id| == ID_BYTES && (!c.used && c.attempts < MAX_ATTEMPTS ==> |c.pin| == PIN_DIGITS)
  }

  predicate OnePerAddress(cs: seq<Challenge>) {
    forall i, j :: 0 <= i < j < |cs| && cs[i].occupied && cs[j].occupied ==> cs[i].address != cs[j].address
  }

  predicate WellKept(t: Tables) {
    && |t.challenges| == MAX_CHALLENGES && |t.sessions| == MAX_SESSIONS
    && (forall i :: 0 <= i < |t.challenges| ==> Sized(t.challenges[i]))
    && (forall i :: 0 <= i < |t.sessions| && t.sessions[i].occupied ==> |t.sessions[i].token| == TOKEN_BYTES)
    && OnePerAddress(t.challenges)
  }

  lemma FirstFreeIs(cs: seq<Challenge>, i: nat, k: nat)
    requires i <= k <= |cs| && (forall j :: i <= j < k ==> cs[j].occupied) && (k < |cs| ==> !cs[k].occupied)
    ensures FirstFree(cs, i) == k
  {
  }

  lemma FindIdIs(cs: seq<Challenge>, id: Bytes, i: nat, k: nat)
    requires i <= k <= |cs| && (forall j :: i <= j < k ==> !(cs[j].occupied && cs[j].id == id))
    requires k < |cs| ==> cs[k].occupied && cs[k].id == id
    ensures FindId(cs, id, i) == k
  {
  }

  class AuthManager {
    const challenges: array<Challenge>
    const sessions: array<Session>
    const pinTtl: nat
    const sessionTtl: nat

    ghost function View(): Tables
      reads challenges, sessions
    {
      Tables(challenges[..], sessions[..], pinTtl, sessionTtl)
    }

    ghost predicate Valid()
      reads challenges, sessions
    {
      challenges.Length == MAX_CHALLENGES && sessions.Length == MAX_SESSIONS && WellKept(View())
    }

    constructor (pinTtl: nat, sessionTtl: nat)
      ensures Valid() && fresh(challenges) && fresh(sessions) && View() == Fresh(pinTtl, sessionTtl)
    {
      this.pinTtl, this.sessionTtl := pinTtl, sessionTtl;
      challenges := new Challenge[MAX_CHALLENGES](_ => NO_CHALLENGE);
      sessions := new Session[MAX_SESSIONS](_ => NO_SESSION);
      new;
      assert challenges[..] == Fresh(pinTtl, sessionTtl).challenges;
      assert sessions[..] == Fresh(pinTtl, sessionTtl).sessions;
    }

    /** auth_manager_create. */
    static method Make(pinTtl: nat, sessionTtl: nat) returns (m: AuthManager?)
      ensures m == null <==> pinTtl == 0 || sessionTtl == 0
      ensures m != null ==> fresh(m) && m.Valid() && m.View() == Fresh(pinTtl, sessionTtl)
    {
      if pinTtl == 0 || sessionTtl == 0 { return null; }
      m := new AuthManager(pinTtl, sessionTtl);
    }

    method CleanChallengeSlots(now: nat)
      requires Valid()
      modifies challenges
      ensures challenges[..] == CleanChallenges(old(challenges[..]), now)
    {
      for index := 0 to challenges.Length
        invariant forall j :: 0 <= j < index ==> challenges[j] == CleanChallenges(old(challenges[..]), now)[j]
        invariant forall j :: index <= j < challenges.Length ==> challenges[j] == old(challenges[j])
      {
        var c := challenges[index];
        if c.occupied && c.expires <= now && c.limitedUntil <= now {
          challenges[index] := NO_CHALLENGE;
        }
      }
    }

    method CleanSessionSlots(now: nat)
      requires Valid()
      modifies sessions
      ensures sessions[..] == CleanSessions(old(sessions[..]), now)
    {
      for index := 0 to sessions.Length
        invariant forall j :: 0 <= j < index ==> sessions[j] == CleanSessions(old(sessions[..]), now)[j]
        invariant forall j :: index <= j < sessions.Length ==> sessions[j] == old(sessions[j])
      {
        var s := sessions[index];
        if s.occupied && s.expires <= now {
          sessions[index] := NO_SESSION;
        }
      }
    }

    /** cleanup_expired. */
    method CleanupExpired(now: nat)
      requires Valid()
      modifies challenges, sessions
      ensures Valid() && View() == Cleanup(old(View()), now)
    {
      CleanChallengeSlots(now);
      CleanSessionSlots(now);
    }

    /** The scan that drops the old challenge of the address and remembers the first free slot. */
    method FindSlot(address: Bytes, now: nat) returns (locked: bool, slot: nat)
      requires Valid()
      modifies challenges
      ensures Valid() && locked == Locked(old(challenges[..]), address, now)
      ensures challenges[..] == if locked then old(challenges[..]) else Drop(old(challenges[..]), address)
      ensures !locked ==> slot == FirstFree(challenges[..], 0)
    {
      ghost var d := challenges[..];
      slot := challenges.Length;
      for index := 0 to challenges.Length
        invariant forall j :: 0 <= j < index ==> challenges[j] == Drop(d, address)[j]
        invariant forall j :: index <= j < challenges.Length ==> challenges[j] == d[j]
        invariant forall j :: 0 <= j < index ==> !(Mine(d[j], address) && d[j].limitedUntil > now)
        invariant slot == challenges.Length || slot < index
        invariant forall j :: 0 <= j < index && j < slot ==> challenges[j].occupied
        invariant slot < index ==> !challenges[slot].occupied
      {
        var c := challenges[index];
        if c.occupied && c.address == address {
          if c.limitedUntil > now {
            assert challenges[..] == d;
            return true, slot;
          }
          challenges[index] := NO_CHALLENGE;
        }
        if slot == challenges.Length && !challenges[index].occupied {
          slot := index;
        }
      }
      assert challenges[..] == Drop(d, address);
      FirstFreeIs(challenges[..], 0, slot);
      locked := false;
    }

    /** auth_create_challenge_at. */
    method CreateChallenge(address: Bytes, now: nat, draw: Option<Draw>) returns (result: Result)
      requires Valid() && DrawOk(draw)
      modifies challenges, sessions
      ensures Valid() && Outcome(View(), result) == Create(old(View()), address, now, draw)
    {
      if !ValidAddress(address) { return Invalid; }
      if draw.None? { return RandomFailure; }
      CleanupExpired(now);
      var locked, slot := FindSlot(address, now);
      if locked { return RateLimited; }
      if slot == challenges.Length { return Capacity; }
      challenges[slot] := Challenge(true, false, 0, After(now, pinTtl), 0, address, draw.value.id, draw.value.pin);
      result := Ok;
    }

    /** The scan for an id. */
    method FindChallenge(id: Bytes) returns (k: nat)
      requires Valid() && |id| == ID_BYTES
      ensures k == FindId(challenges[..], id, 0)
    {
      k := 0;
      while k < challenges.Length
        invariant k <= challenges.Length
        invariant forall j :: 0 <= j < k ==> !(challenges[j].occupied && challenges[j].id == id)
      {
        if challenges[k].occupied {
          assert Sized(View().challenges[k]);
          var same := ConstantTimeEqual(challenges[k].id, id, ID_BYTES);
          assert challenges[k].id[..ID_BYTES] == challenges[k].id && id[..ID_BYTES] == id;
          if same { break; }
        }
        k := k + 1;
      }
      FindIdIs(challenges[..], id, 0, k);
    }

    /** A wrong PIN on slot `k`. */
    method CountMiss(k: nat, now: nat) returns (limited: bool)
      requires Valid() && k < MAX_CHALLENGES
      modifies challenges
      ensures challenges[..] == old(challenges[..])[k := Miss(old(challenges[k]), now)]
      ensures limited == (Miss(old(challenges[k]), now).attempts >= MAX_ATTEMPTS)
    {
      challenges[k] := challenges[k].(attempts := challenges[k].attempts + 1);
      limited := challenges[k].attempts >= MAX_ATTEMPTS;
      if limited {
        challenges[k] := challenges[k].(pin := [], limitedUntil := After(now, RATE_LIMIT_SECONDS));
      }
    }

    /** The new session replaces every other one. */
    method OpenSession(address: Bytes, now: nat, token: Bytes)
      requires Valid()
      modifies sessions
      ensures sessions[..] ==
              [Session(true, After(now, sessionTtl), address, token)] + seq(MAX_SESSIONS - 1, _ => NO_SESSION)
    {
      for index := 0 to sessions.Length
        invariant forall j :: 0 <= j < index ==> sessions[j] == NO_SESSION
      {
        sessions[index] := NO_SESSION;
      }
      sessions[0] := Session(true, After(now, sessionTtl), address, token);
    }

    /** auth_verify_challenge_at. */
    method VerifyChallenge(address: Bytes, id: Bytes, pin: Bytes, now: nat, token: Option<Bytes>)
        returns (result: Result)
      requires Valid() && (token.Some? ==> |token.value| == TOKEN_BYTES)
      modifies challenges, sessions
      ensures Valid() && Outcome(View(), result) == Verify(old(View()), address, id, pin, now, token)
    {
      if !ValidAddress(address) || |id| != ID_BYTES || |pin| != PIN_DIGITS { return Invalid; }
      var k := FindChallenge(id);
      if k == challenges.Length || challenges[k].address != address { return Invalid; }
      if challenges[k].used { return Used; }
      if challenges[k].expires <= now {
        challenges[k] := NO_CHALLENGE;
        return Expired;
      }
      if challenges[k].attempts >= MAX_ATTEMPTS { return RateLimited; }
      assert Sized(View().challenges[k]);
      var matches := ConstantTimeEqual(challenges[k].pin, pin, PIN_DIGITS);
      assert challenges[k].pin[..PIN_DIGITS] == challenges[k].pin && pin[..PIN_DIGITS] == pin;
      if !matches {
        var limited := CountMiss(k, now);
        return if limited then RateLimited else Invalid;
      }
      if token.None? { return RandomFailure; }
      challenges[k] := challenges[k].(used := true, pin := []);
      OpenSession(address, now, token.value);
      result := Ok;
    }

    /** auth_validate_bearer_at. */
    method ValidateBearer(address: Bytes, authorization: Bytes, now: nat) returns (result: Result)
      requires Valid()
      modifies challenges, sessions
      ensures Valid() && Outcome(View(), result) == Bearer(old(View()), address, authorization, now)
    {
      if !ValidAddress(address) || !(BEARER <= authorization) { return Invalid; }
      var token := authorization[7..];
      if |token| != TOKEN_BYTES { return Invalid; }
      CleanupExpired(now);
      result := Invalid;
      ghost var d := View();
      for index := 0 to sessions.Length
        invariant Valid() && View() == d
        invariant result == if exists i :: 0 <= i < index && Opens(sessions[i], address, token) then Ok else Invalid
      {
        if sessions[index].occupied {
          assert View().sessions[index].occupied;
          var same := ConstantTimeEqual(sessions[index].token, token, TOKEN_BYTES);
          assert sessions[index].token[..TOKEN_BYTES] == sessions[index].token && token[..TOKEN_BYTES] == token;
          if same && sessions[index].address == address {
            result := Ok;
          }
        }
      }
      assert forall i :: 0 <= i < sessions.Length ==> View().sessions[i] == sessions[i];
    }
  }
}
