/**
  The PIN challenges and sessions of src/auth.c. A call gives the clock, and the random id, PIN or token it would
  draw, None when the random source fails. Seconds are uint64, so an expiry wraps around.
 */
module Auth {
  import opened Bytes

  const MAX_CHALLENGES: nat := 8
  const MAX_SESSIONS: nat := 4
  const MAX_ATTEMPTS: nat := 5
  const RATE_LIMIT_SECONDS: nat := 30
  const ID_BYTES: nat := 32
  const PIN_DIGITS: nat := 6
  const TOKEN_BYTES: nat := 64
  const ADDRESS_BYTES: nat := 64
  const BEARER: Bytes := [0x42, 0x65, 0x61, 0x72, 0x65, 0x72, 0x20]

  datatype Result = Ok | Invalid | Expired | Used | RateLimited | Capacity | RandomFailure

  datatype Challenge = Challenge(occupied: bool, used: bool, attempts: nat, expires: nat, limitedUntil: nat,
                                 address: Bytes, id: Bytes, pin: Bytes)

  datatype Session = Session(occupied: bool, expires: nat, address: Bytes, token: Bytes)

  datatype Tables = Tables(challenges: seq<Challenge>, sessions: seq<Session>, pinTtl: nat, sessionTtl: nat)

  /** What the random source yields for a challenge. */
  datatype Draw = Draw(id: Bytes, pin: Bytes)

  predicate DrawOk(d: Option<Draw>) { d.Some? ==> |d.value.id| == ID_BYTES && |d.value.pin| == PIN_DIGITS }

  const NO_CHALLENGE := Challenge(false, false, 0, 0, 0, [], [], [])
  const NO_SESSION := Session(false, 0, [], [])

  function After(now: nat, seconds: nat): nat { (now + seconds) % U64_LIMIT }

  predicate ValidAddress(address: Bytes) { 0 < |address| < ADDRESS_BYTES }

  // ---------------------------------------------------------------- the calls, on the tables

  datatype Outcome = Outcome(t: Tables, result: Result)

  predicate Dead(c: Challenge, now: nat) { c.occupied && c.expires <= now && c.limitedUntil <= now }

  function CleanChallenges(cs: seq<Challenge>, now: nat): seq<Challenge> {
    seq(|cs|, i requires 0 <= i < |cs| => if Dead(cs[i], now) then NO_CHALLENGE else cs[i])
  }

  function CleanSessions(ss: seq<Session>, now: nat): seq<Session> {
    seq(|ss|, i requires 0 <= i < |ss| => if ss[i].occupied && ss[i].expires <= now then NO_SESSION else ss[i])
  }

  /** cleanup_expired. */
  function Cleanup(t: Tables, now: nat): Tables {
    t.(challenges := CleanChallenges(t.challenges, now), sessions := CleanSessions(t.sessions, now))
  }

  predicate Mine(c: Challenge, address: Bytes) { c.occupied && c.address == address }

  predicate Locked(cs: seq<Challenge>, address: Bytes, now: nat) {
    exists i :: 0 <= i < |cs| && Mine(cs[i], address) && cs[i].limitedUntil > now
  }

  function Drop(cs: seq<Challenge>, address: Bytes): seq<Challenge> {
    seq(|cs|, i requires 0 <= i < |cs| => if Mine(cs[i], address) then NO_CHALLENGE else cs[i])
  }

  /** The first free slot, or the size of the table. */
  function FirstFree(cs: seq<Challenge>, i: nat): (k: nat)
    requires i <= |cs|
    ensures i <= k <= |cs|
    ensures k < |cs| ==> !cs[k].occupied
    ensures forall j :: i <= j < k ==> cs[j].occupied
    decreases |cs| - i
  {
    if i == |cs| || !cs[i].occupied then i else FirstFree(cs, i + 1)
  }

  function NewChallenge(t: Tables, address: Bytes, now: nat, draw: Draw): Challenge {
    Challenge(true, false, 0, After(now, t.pinTtl), 0, address, draw.id, draw.pin)
  }

  /** auth_create_challenge_at. */
  function Create(t: Tables, address: Bytes, now: nat, draw: Option<Draw>): Outcome {
    if !ValidAddress(address) then Outcome(t, Invalid)
    else if draw.None? then Outcome(t, RandomFailure)
    else
      var d := Cleanup(t, now);
      if Locked(d.challenges, address, now) then Outcome(d, RateLimited)
      else
        var e := Drop(d.challenges, address);
        var k := FirstFree(e, 0);
        if k == |e| then Outcome(d.(challenges := e), Capacity)
        else Outcome(d.(challenges := e[k := NewChallenge(t, address, now, draw.value)]), Ok)
  }

  /** The first occupied slot with this id, or the size of the table. */
  function FindId(cs: seq<Challenge>, id: Bytes, i: nat): (k: nat)
    requires i <= |cs|
    ensures i <= k <= |cs|
    ensures k < |cs| ==> cs[k].occupied && cs[k].id == id
    ensures forall j :: i <= j < k ==> !(cs[j].occupied && cs[j].id == id)
    decreases |cs| - i
  {
    if i == |cs| || (cs[i].occupied && cs[i].id == id) then i else FindId(cs, id, i + 1)
  }

  /** A wrong PIN: the fifth one forgets the PIN and starts the lockout. */
  function Miss(c: Challenge, now: nat): Challenge {
    var d := c.(attempts := c.attempts + 1);
    if d.attempts >= MAX_ATTEMPTS then d.(pin := [], limitedUntil := After(now, RATE_LIMIT_SECONDS)) else d
  }

  /** auth_verify_challenge_at. */
  function Verify(t: Tables, address: Bytes, id: Bytes, pin: Bytes, now: nat, token: Option<Bytes>): Outcome {
    if !ValidAddress(address) || |id| != ID_BYTES || |pin| != PIN_DIGITS then Outcome(t, Invalid)
    else
      var cs := t.challenges;
      var k := FindId(cs, id, 0);
      if k == |cs| || cs[k].address != address then Outcome(t, Invalid)
      else if cs[k].used then Outcome(t, Used)
      else if cs[k].expires <= now then Outcome(t.(challenges := cs[k := NO_CHALLENGE]), Expired)
      else if cs[k].attempts >= MAX_ATTEMPTS then Outcome(t, RateLimited)
      else if cs[k].pin != pin then
        var c := Miss(cs[k], now);
        Outcome(t.(challenges := cs[k := c]), if c.attempts >= MAX_ATTEMPTS then RateLimited else Invalid)
      else if token.None? then Outcome(t, RandomFailure)
      else
        Outcome(t.(challenges := cs[k := cs[k].(used := true, pin := [])],
                   sessions := [Session(true, After(now, t.sessionTtl), address, token.value)] +
                               seq(MAX_SESSIONS - 1, _ => NO_SESSION)),
                Ok)
  }

  predicate Opens(s: Session, address: Bytes, token: Bytes) { s.occupied && s.token == token && s.address == address }

  /** auth_validate_bearer_at. A request without the header gives the empty text. */
  function Bearer(t: Tables, address: Bytes, authorization: Bytes, now: nat): Outcome {
    if !ValidAddress(address) || !(BEARER <= authorization) || |authorization| != 7 + TOKEN_BYTES
    then Outcome(t, Invalid)
    else
      var d := Cleanup(t, now);
      Outcome(d, if exists i :: 0 <= i < |d.sessions| && Opens(d.sessions[i], address, authorization[7..])
          then Ok else Invalid)
  }

  datatype Call =
    | CreateCall(address: Bytes, now: nat, draw: Option<Draw>)
    | VerifyCall(address: Bytes, id: Bytes, pin: Bytes, now: nat, token: Option<Bytes>)
    | BearerCall(address: Bytes, authorization: Bytes, now: nat)

  function Answer(t: Tables, call: Call): Outcome {
    match call
    case CreateCall(address, now, draw) => Create(t, address, now, draw)
    case VerifyCall(address, id, pin, now, token) => Verify(t, address, id, pin, now, token)
    case BearerCall(address, authorization, now) => Bearer(t, address, authorization, now)
  }

  // ---------------------------------------------------------------- the log of all calls

  datatype Event = Event(call: Call, result: Result)

  /** A challenge as it was handed out. */
  datatype Issue = Issue(id: Bytes, pin: Bytes, expires: nat)

  predicate Issues(e: Event) { e.call.CreateCall? && e.result == Ok && e.call.draw.Some? }

  predicate Wins(e: Event, id: Bytes) { e.call.VerifyCall? && e.result == Ok && e.call.id == id && e.call.token.Some? }

  /** The challenge last handed out to `address`. */
  function Latest(log: seq<Event>, ttl: nat, address: Bytes): Option<Issue> {
    if log == [] then None
    else
      var e := log[|log| - 1];
      if Issues(e) && e.call.address == address then
        Some(Issue(e.call.draw.value.id, e.call.draw.value.pin, After(e.call.now, ttl)))
      else Latest(log[..|log| - 1], ttl, address)
  }

  function Successes(log: seq<Event>, id: Bytes): nat {
    if log == [] then 0
    else Successes(log[..|log| - 1], id) + if Wins(log[|log| - 1], id) then 1 else 0
  }

  /** The call names the latest challenge of its address, in time, with another PIN. */
  predicate Wrong(log: seq<Event>, ttl: nat, call: Call, id: Bytes) {
    && call.VerifyCall? && call.id == id && ValidAddress(call.address) && |call.pin| == PIN_DIGITS
    && var issue := Latest(log, ttl, call.address);
       issue.Some? && issue.value.id == id && issue.value.pin != call.pin && call.now < issue.value.expires
  }

  function WrongPins(log: seq<Event>, ttl: nat, id: Bytes): nat {
    if log == [] then 0
    else
      var before := log[..|log| - 1];
      WrongPins(before, ttl, id) + if Wrong(before, ttl, log[|log| - 1].call, id) then 1 else 0
  }

  /**
    The call finds the latest challenge of `a` expired and never won: it names that challenge, from its address, with
    a well-formed PIN. The source then clears it, lockout and all.
   */
  predicate FindsOver(log: seq<Event>, ttl: nat, call: Call, a: Bytes) {
    && call.VerifyCall? && call.address == a && ValidAddress(a) && |call.pin| == PIN_DIGITS
    && Latest(log, ttl, a).Some?
    && var issue := Latest(log, ttl, a).value;
       issue.id == call.id && issue.expires <= call.now && Successes(log, call.id) == 0
  }

  /** The call is the fifth wrong PIN on the latest challenge of `a`, which was never won. */
  predicate FifthMiss(log: seq<Event>, ttl: nat, call: Call, a: Bytes) {
    && call.VerifyCall? && call.address == a && Wrong(log, ttl, call, call.id)
    && Successes(log, call.id) == 0 && WrongPins(log, ttl, call.id) == MAX_ATTEMPTS - 1
  }

  /** When the lockout of `a` ends: 30 seconds after the fifth wrong PIN; 0 if there was none, or it was cleared. */
  function LockedUntil(log: seq<Event>, ttl: nat, a: Bytes): nat {
    if log == [] then 0
    else
      var before, e := log[..|log| - 1], log[|log| - 1];
      if (Issues(e) && e.call.address == a) || FindsOver(before, ttl, e.call, a) then 0
      else if FifthMiss(before, ttl, e.call, a) then After(e.call.now, RATE_LIMIT_SECONDS)
      else LockedUntil(before, ttl, a)
  }

  /** `a` still takes up a slot: its latest challenge is in time, or its lockout runs. */
  predicate Holds(log: seq<Event>, ttl: nat, a: Bytes, now: nat) {
    Latest(log, ttl, a).Some? && (Latest(log, ttl, a).value.expires > now || LockedUntil(log, ttl, a) > now)
  }

  /** The call gets as far as clearing what is over. */
  predicate Cleans(call: Call) {
    match call
    case CreateCall(address, _, draw) => ValidAddress(address) && draw.Some?
    case VerifyCall(_, _, _, _, _) => false
    case BearerCall(address, authorization, _) =>
      ValidAddress(address) && BEARER <= authorization && |authorization| == 7 + TOKEN_BYTES
  }

  /** The latest challenge of `a` was not cleared: no call found it over, and none that cleans came once it was dead. */
  predicate Kept(log: seq<Event>, ttl: nat, a: Bytes) {
    log != [] &&
    var before, e := log[..|log| - 1], log[|log| - 1];
    || (Issues(e) && e.call.address == a)
    || (Kept(before, ttl, a) && !FindsOver(before, ttl, e.call, a) &&
        (Cleans(e.call) ==> Holds(before, ttl, a, e.call.now)))
  }

  /** The session of the last PIN that was accepted. */
  function LastGrant(log: seq<Event>, ttl: nat): Option<Session> {
    if log == [] then None
    else
      var e := log[|log| - 1];
      if e.call.VerifyCall? && e.result == Ok && e.call.token.Some? then
        Some(Session(true, After(e.call.now, ttl), e.call.address, e.call.token.value))
      else LastGrant(log[..|log| - 1], ttl)
  }

  predicate Drew(e: Event, id: Bytes) { e.call.CreateCall? && e.call.draw.Some? && e.call.draw.value.id == id }

  /** No earlier call drew this id. */
  predicate NewId(log: seq<Event>, id: Bytes) { forall i :: 0 <= i < |log| ==> !Drew(log[i], id) }

  // ---------------------------------------------------------------- the tables track the log

  function Min(a: nat, b: nat): nat { if a < b then a else b }

  /** An occupied slot holds the latest challenge of its address, with what happened to it since. */
  predicate Tracked(c: Challenge, log: seq<Event>, ttl: nat) {
    && |c.id| == ID_BYTES
    && var issue := Latest(log, ttl, c.address);
       && issue.Some? && issue.value.id == c.id && issue.value.expires == c.expires
       && (c.used <==> Successes(log, c.id) > 0)
       && c.attempts <= MAX_ATTEMPTS && (c.attempts < MAX_ATTEMPTS ==> c.limitedUntil == 0)
       && c.limitedUntil == LockedUntil(log, ttl, c.address)
       && (!c.used ==> c.attempts == Min(MAX_ATTEMPTS, WrongPins(log, ttl, c.id)))
       && (!c.used && c.attempts < MAX_ATTEMPTS ==> c.pin == issue.value.pin)
  }

  predicate HasSlot(cs: seq<Challenge>, a: Bytes) { exists i :: 0 <= i < |cs| && Mine(cs[i], a) }

  ghost predicate ChallengesTrack(t: Tables, log: seq<Event>, clock: nat) {
    && |t.challenges| == MAX_CHALLENGES
    && (forall i :: 0 <= i < |t.challenges| && t.challenges[i].occupied ==> Tracked(t.challenges[i], log, t.pinTtl))
    && (forall i, j :: 0 <= i < j < |t.challenges| && t.challenges[i].occupied && t.challenges[j].occupied ==>
          t.challenges[i].address != t.challenges[j].address)
    && (forall a :: Holds(log, t.pinTtl, a, clock) ==> HasSlot(t.challenges, a))
  }

  /** The latest challenge of `a` has not expired. */
  predicate InTime(log: seq<Event>, ttl: nat, a: Bytes, clock: nat) {
    Latest(log, ttl, a).Some? && Latest(log, ttl, a).value.expires > clock
  }

  ghost predicate SessionsTrack(t: Tables, log: seq<Event>, clock: nat) {
    && |t.sessions| == MAX_SESSIONS
    && (forall i :: 1 <= i < MAX_SESSIONS ==> !t.sessions[i].occupied)
    && var g := LastGrant(log, t.sessionTtl);
       && (t.sessions[0].occupied ==> g == Some(t.sessions[0]))
       && (g.Some? && g.value.expires > clock ==> t.sessions[0].occupied)
  }

  predicate SameId(log: seq<Event>, ttl: nat, a: Bytes, b: Bytes) {
    Latest(log, ttl, a).Some? && Latest(log, ttl, b).Some? &&
    Latest(log, ttl, a).value.id == Latest(log, ttl, b).value.id
  }

  /** Ids belong to one address, and nothing happened to an id before it was drawn. */
  ghost predicate LogOk(log: seq<Event>, ttl: nat) {
    && (forall a, b :: SameId(log, ttl, a, b) ==> a == b)
    && (forall a :: Latest(log, ttl, a).Some? ==> !NewId(log, Latest(log, ttl, a).value.id))
    && (forall id :: Successes(log, id) <= 1)
    && (forall id :: NewId(log, id) ==> Successes(log, id) == 0 && WrongPins(log, ttl, id) == 0)
  }

  ghost predicate Tracks(t: Tables, log: seq<Event>, clock: nat) {
    ChallengesTrack(t, log, clock) && SessionsTrack(t, log, clock) && LogOk(log, t.pinTtl)
  }

  // ---------------------------------------------------------------- what a call answers

  /**
    By the log, this PIN is due: it is the PIN of the latest challenge of that address, the id matches, the challenge
    has not expired, was never won, and fewer than five wrong PINs were tried on it.
   */
  predicate PinDue(log: seq<Event>, ttl: nat, address: Bytes, id: Bytes, pin: Bytes, now: nat) {
    && ValidAddress(address) && |id| == ID_BYTES && |pin| == PIN_DIGITS
    && Latest(log, ttl, address).Some?
    && var issue := Latest(log, ttl, address).value;
       && issue.id == id && issue.pin == pin && now < issue.expires
       && Successes(log, id) == 0 && WrongPins(log, ttl, id) < MAX_ATTEMPTS
  }

  /** By the log, this header carries the token of the last accepted PIN, from its address, in time. */
  predicate TokenDue(log: seq<Event>, ttl: nat, address: Bytes, authorization: Bytes, now: nat) {
    && ValidAddress(address) && |authorization| == 7 + TOKEN_BYTES
    && LastGrant(log, ttl).Some?
    && var g := LastGrant(log, ttl).value;
       g.address == address && authorization == BEARER + g.token && now < g.expires
  }

  /** The latest challenge of an address is found by its id when the address has a slot. */
  lemma FindsSlot(t: Tables, log: seq<Event>, clock: nat, address: Bytes, i: nat)
    requires ChallengesTrack(t, log, clock) && LogOk(log, t.pinTtl)
    requires i < |t.challenges| && Mine(t.challenges[i], address)
    ensures Latest(log, t.pinTtl, address).Some?
    ensures
      var k := FindId(t.challenges, Latest(log, t.pinTtl, address).value.id, 0);
      k < |t.challenges| && t.challenges[k].address == address
  {
    assert Tracked(t.challenges[i], log, t.pinTtl);
    var k := FindId(t.challenges, Latest(log, t.pinTtl, address).value.id, 0);
    assert k < |t.challenges|;
    assert Tracked(t.challenges[k], log, t.pinTtl);
    assert SameId(log, t.pinTtl, t.challenges[k].address, address);
  }

  lemma FindsHeld(t: Tables, log: seq<Event>, clock: nat, address: Bytes)
    requires ChallengesTrack(t, log, clock) && LogOk(log, t.pinTtl) && Holds(log, t.pinTtl, address, clock)
    ensures
      var k := FindId(t.challenges, Latest(log, t.pinTtl, address).value.id, 0);
      k < |t.challenges| && t.challenges[k].address == address
  {
    var i :| 0 <= i < |t.challenges| && Mine(t.challenges[i], address);
    FindsSlot(t, log, clock, address, i);
  }

  /** A PIN is accepted exactly when it is due and a token can be drawn. */
  lemma VerifyExactly(t: Tables, log: seq<Event>, clock: nat, address: Bytes, id: Bytes, pin: Bytes, now: nat,
                      token: Option<Bytes>)
    requires Tracks(t, log, clock) && now >= clock
    ensures Verify(t, address, id, pin, now, token).result == Ok <==>
              PinDue(log, t.pinTtl, address, id, pin, now) && token.Some?
  {
    var k := FindId(t.challenges, id, 0);
    if InTime(log, t.pinTtl, address, clock) && Latest(log, t.pinTtl, address).value.id == id {
      FindsHeld(t, log, clock, address);
    }
    if k < |t.challenges| {
      assert Tracked(t.challenges[k], log, t.pinTtl);
    }
  }

  /** A bearer token opens exactly the session of the last accepted PIN, for its address, until it expires. */
  lemma BearerExactly(t: Tables, log: seq<Event>, clock: nat, address: Bytes, authorization: Bytes, now: nat)
    requires Tracks(t, log, clock) && now >= clock
    ensures Bearer(t, address, authorization, now).result == Ok <==>
              TokenDue(log, t.sessionTtl, address, authorization, now)
  {
    var d := Cleanup(t, now);
    if BEARER <= authorization && |authorization| == 7 + TOKEN_BYTES {
      var token := authorization[7..];
      assert authorization == BEARER + token;
      assert (exists i :: 0 <= i < |d.sessions| && Opens(d.sessions[i], address, token)) <==>
          Opens(d.sessions[0], address, token);
    }
    if LastGrant(log, t.sessionTtl).Some? {
      var g := LastGrant(log, t.sessionTtl).value;
      assert authorization == BEARER + g.token ==> authorization[7..] == g.token;
    }
  }

  // ---------------------------------------------------------------- every call keeps the tables on track

  lemma CleanupTracks(t: Tables, log: seq<Event>, clock: nat, now: nat)
    requires Tracks(t, log, clock) && now >= clock
    ensures Tracks(Cleanup(t, now), log, now)
  {
    var d := Cleanup(t, now);
    forall a | Holds(log, t.pinTtl, a, now) ensures HasSlot(d.challenges, a) {
      assert Holds(log, t.pinTtl, a, clock);
      var i :| 0 <= i < |t.challenges| && Mine(t.challenges[i], a);
      assert Tracked(t.challenges[i], log, t.pinTtl);
      assert Mine(d.challenges[i], a);
    }
  }

  /** An event that issues nothing to this address and neither wins nor misses this id says nothing about the slot. */
  lemma TrackedStays(c: Challenge, log: seq<Event>, ttl: nat, e: Event)
    requires Tracked(c, log, ttl)
    requires !(Issues(e) && e.call.address == c.address) && !Wins(e, c.id) && !Wrong(log, ttl, e.call, c.id)
    requires !FindsOver(log, ttl, e.call, c.address)
    ensures Tracked(c, log + [e], ttl)
  {
    assert (log + [e])[..|log|] == log;
  }

  /** What one more event does to the readings of the log. */
  lemma LogStep(log: seq<Event>, ttl: nat, e: Event)
    ensures forall a :: Latest(log + [e], ttl, a) ==
                        if Issues(e) && e.call.address == a then
                          Some(Issue(e.call.draw.value.id, e.call.draw.value.pin, After(e.call.now, ttl)))
                        else Latest(log, ttl, a)
    ensures forall id :: Successes(log + [e], id) == Successes(log, id) + if Wins(e, id) then 1 else 0
    ensures forall id :: WrongPins(log + [e], ttl, id) ==
                         WrongPins(log, ttl, id) + if Wrong(log, ttl, e.call, id) then 1 else 0
    ensures LastGrant(log + [e], ttl) ==
            if e.call.VerifyCall? && e.result == Ok && e.call.token.Some? then
              Some(Session(true, After(e.call.now, ttl), e.call.address, e.call.token.value))
            else LastGrant(log, ttl)
    ensures forall id :: NewId(log + [e], id) <==> NewId(log, id) && !Drew(e, id)
    ensures forall a :: LockedUntil(log + [e], ttl, a) ==
                        if (Issues(e) && e.call.address == a) || FindsOver(log, ttl, e.call, a) then 0
                        else if FifthMiss(log, ttl, e.call, a) then After(e.call.now, RATE_LIMIT_SECONDS)
                        else LockedUntil(log, ttl, a)
  {
    var log' := log + [e];
    assert log'[..|log|] == log;
    forall id ensures NewId(log', id) <==> NewId(log, id) && !Drew(e, id) {
      if NewId(log', id) {
        assert !Drew(log'[|log|], id);
        forall i | 0 <= i < |log| ensures !Drew(log[i], id) {
          assert log'[i] == log[i];
        }
      }
    }
  }

  /** A call may be made: the clock does not run backwards, and a drawn id is new. */
  predicate Allowed(log: seq<Event>, clock: nat, call: Call) {
    call.now >= clock && (call.CreateCall? && call.draw.Some? ==> DrawOk(call.draw) && NewId(log, call.draw.value.id))
  }

  lemma LogOkKeeps(t: Tables, log: seq<Event>, clock: nat, call: Call)
    requires Tracks(t, log, clock) && Allowed(log, clock, call)
    ensures LogOk(log + [Event(call, Answer(t, call).result)], t.pinTtl)
  {
    var e := Event(call, Answer(t, call).result);
    LogStep(log, t.pinTtl, e);
    if call.VerifyCall? {
      VerifyExactly(t, log, clock, call.address, call.id, call.pin, call.now, call.token);
    }
    forall a, b | SameId(log + [e], t.pinTtl, a, b) ensures a == b {
      if !(Issues(e) && (e.call.address == a || e.call.address == b)) {
        assert SameId(log, t.pinTtl, a, b);
      }
    }
  }

  /** An event that issues nothing, wins nothing and is no wrong PIN. */
  predicate Quiet(log: seq<Event>, ttl: nat, e: Event) {
    !Issues(e) && (e.call.VerifyCall? ==> e.result != Ok && !Wrong(log, ttl, e.call, e.call.id))
  }

  /** No slot's challenge was found over by this call. */
  predicate FindsNoSlot(cs: seq<Challenge>, log: seq<Event>, ttl: nat, call: Call) {
    forall i :: 0 <= i < |cs| && cs[i].occupied ==> !FindsOver(log, ttl, call, cs[i].address)
  }

  /** After a quiet event nobody holds a slot who did not. */
  lemma QuietHolds(log: seq<Event>, ttl: nat, e: Event, a: Bytes, now: nat)
    requires Quiet(log, ttl, e) && Holds(log + [e], ttl, a, now)
    ensures Holds(log, ttl, a, now)
  {
    LogStep(log, ttl, e);
  }

  lemma QuietKeeps(t: Tables, log: seq<Event>, clock: nat, e: Event)
    requires ChallengesTrack(t, log, clock) && SessionsTrack(t, log, clock) && Quiet(log, t.pinTtl, e)
    requires FindsNoSlot(t.challenges, log, t.pinTtl, e.call)
    ensures ChallengesTrack(t, log + [e], clock) && SessionsTrack(t, log + [e], clock)
  {
    LogStep(log, t.pinTtl, e);
    LogStep(log, t.sessionTtl, e);
    forall i | 0 <= i < |t.challenges| && t.challenges[i].occupied
      ensures Tracked(t.challenges[i], log + [e], t.pinTtl)
    {
      TrackedStays(t.challenges[i], log, t.pinTtl, e);
    }
    forall a | Holds(log + [e], t.pinTtl, a, clock) ensures HasSlot(t.challenges, a) {
      QuietHolds(log, t.pinTtl, e, a, clock);
    }
  }

  lemma LaterKeeps(t: Tables, log: seq<Event>, clock: nat, now: nat)
    requires Tracks(t, log, clock) && now >= clock
    ensures Tracks(t, log, now)
  {
    forall a | Holds(log, t.pinTtl, a, now) ensures HasSlot(t.challenges, a) {
      assert Holds(log, t.pinTtl, a, clock);
    }
  }

  /** The table after a create call that succeeds on the cleaned tables `d`. */
  function Issued(d: Tables, address: Bytes, now: nat, draw: Draw): Tables
    requires FirstFree(Drop(d.challenges, address), 0) < |d.challenges|
  {
    var cs := Drop(d.challenges, address);
    d.(challenges := cs[FirstFree(cs, 0) := NewChallenge(d, address, now, draw)])
  }

  /** The new challenge of an address takes a free slot. */
  lemma IssuedTracked(d: Tables, log: seq<Event>, e: Event)
    requires Tracks(d, log, e.call.now) && Issues(e) && Allowed(log, e.call.now, e.call)
    requires FirstFree(Drop(d.challenges, e.call.address), 0) < |d.challenges|
    ensures
      var d' := Issued(d, e.call.address, e.call.now, e.call.draw.value);
      forall i :: 0 <= i < |d'.challenges| && d'.challenges[i].occupied ==>
          Tracked(d'.challenges[i], log + [e], d.pinTtl)
  {
    var k := FirstFree(Drop(d.challenges, e.call.address), 0);
    var cs' := Issued(d, e.call.address, e.call.now, e.call.draw.value).challenges;
    LogStep(log, d.pinTtl, e);
    forall i | 0 <= i < |cs'| && cs'[i].occupied ensures Tracked(cs'[i], log + [e], d.pinTtl) {
      if i != k {
        assert cs'[i] == d.challenges[i];
        TrackedStays(cs'[i], log, d.pinTtl, e);
      }
    }
  }

  lemma IssuedFound(d: Tables, log: seq<Event>, e: Event, a: Bytes)
    requires ChallengesTrack(d, log, e.call.now) && Issues(e)
    requires FirstFree(Drop(d.challenges, e.call.address), 0) < |d.challenges|
    requires Holds(log + [e], d.pinTtl, a, e.call.now)
    ensures HasSlot(Issued(d, e.call.address, e.call.now, e.call.draw.value).challenges, a)
  {
    var k := FirstFree(Drop(d.challenges, e.call.address), 0);
    var cs' := Issued(d, e.call.address, e.call.now, e.call.draw.value).challenges;
    LogStep(log, d.pinTtl, e);
    if a == e.call.address {
      assert Mine(cs'[k], a);
    } else {
      assert Holds(log, d.pinTtl, a, e.call.now);
      var i :| 0 <= i < |d.challenges| && Mine(d.challenges[i], a);
      assert Mine(cs'[i], a);
    }
  }

  /** The old challenge of the address is gone, and no other one. */
  lemma IssuedKeeps(d: Tables, log: seq<Event>, e: Event)
    requires Tracks(d, log, e.call.now) && Issues(e) && Allowed(log, e.call.now, e.call)
    requires FirstFree(Drop(d.challenges, e.call.address), 0) < |d.challenges|
    ensures ChallengesTrack(Issued(d, e.call.address, e.call.now, e.call.draw.value), log + [e], e.call.now)
  {
    var d' := Issued(d, e.call.address, e.call.now, e.call.draw.value);
    IssuedTracked(d, log, e);
    forall a | Holds(log + [e], d.pinTtl, a, e.call.now) ensures HasSlot(d'.challenges, a) {
      IssuedFound(d, log, e, a);
    }
  }

  lemma CreateKeeps(t: Tables, log: seq<Event>, clock: nat, address: Bytes, now: nat, draw: Option<Draw>)
    requires Tracks(t, log, clock) && Allowed(log, clock, CreateCall(address, now, draw))
    ensures
      var out := Create(t, address, now, draw);
      var log' := log + [Event(CreateCall(address, now, draw), out.result)];
      ChallengesTrack(out.t, log', now) && SessionsTrack(out.t, log', now)
  {
    var out := Create(t, address, now, draw);
    var e := Event(CreateCall(address, now, draw), out.result);
    LaterKeeps(t, log, clock, now);
    CleanupTracks(t, log, clock, now);
    var d := Cleanup(t, now);
    if out.result == Ok {
      IssuedKeeps(d, log, e);
      LogStep(log, d.sessionTtl, e);
    } else if out.result == Capacity {
      assert Drop(d.challenges, address) == d.challenges by {
        var cs := Drop(d.challenges, address);
        forall i | 0 <= i < |cs| ensures cs[i] == d.challenges[i] {
          assert cs[i].occupied;
        }
      }
      QuietKeeps(d, log, now, e);
    } else if out.result == RateLimited {
      QuietKeeps(d, log, now, e);
    } else {
      QuietKeeps(t, log, now, e);
    }
  }

  lemma BearerKeeps(t: Tables, log: seq<Event>, clock: nat, address: Bytes, authorization: Bytes, now: nat)
    requires Tracks(t, log, clock) && now >= clock
    ensures
      var out := Bearer(t, address, authorization, now);
      var log' := log + [Event(BearerCall(address, authorization, now), out.result)];
      ChallengesTrack(out.t, log', now) && SessionsTrack(out.t, log', now)
  {
    var out := Bearer(t, address, authorization, now);
    LaterKeeps(t, log, clock, now);
    CleanupTracks(t, log, clock, now);
    QuietKeeps(out.t, log, now, Event(BearerCall(address, authorization, now), out.result));
  }

  /** A verify call that names the challenge in slot `k` is about no other slot. */
  lemma OtherSlotStays(t: Tables, log: seq<Event>, e: Event, i: nat, k: nat)
    requires ChallengesTrack(t, log, e.call.now) && LogOk(log, t.pinTtl) && e.call.VerifyCall?
    requires i < |t.challenges| && k < |t.challenges| && i != k && t.challenges[i].occupied
    requires t.challenges[k].occupied && t.challenges[k].id == e.call.id
    ensures t.challenges[i].id != e.call.id
    ensures !FindsOver(log, t.pinTtl, e.call, t.challenges[i].address)
  {
    assert Tracked(t.challenges[i], log, t.pinTtl) && Tracked(t.challenges[k], log, t.pinTtl);
    assert !SameId(log, t.pinTtl, t.challenges[i].address, t.challenges[k].address);
  }

  /** The address whose latest challenge has the id of slot `k` is that of slot `k`. */
  lemma FoundByItsId(t: Tables, log: seq<Event>, call: Call, k: nat, a: Bytes)
    requires ChallengesTrack(t, log, call.now) && LogOk(log, t.pinTtl) && call.VerifyCall?
    requires k < |t.challenges| && t.challenges[k].occupied && t.challenges[k].id == call.id
    requires Latest(log, t.pinTtl, a).Some? && Latest(log, t.pinTtl, a).value.id == call.id
    ensures t.challenges[k].address == a
  {
    assert Tracked(t.challenges[k], log, t.pinTtl);
    assert SameId(log, t.pinTtl, a, t.challenges[k].address);
  }

  /** A verify call that finds slot `k` and leaves it as `c`. */
  lemma SlotKeeps(t: Tables, log: seq<Event>, e: Event, k: nat, c: Challenge)
    requires ChallengesTrack(t, log, e.call.now) && LogOk(log, t.pinTtl) && e.call.VerifyCall?
    requires k < |t.challenges| && t.challenges[k].occupied && t.challenges[k].id == e.call.id
    requires c.occupied && c.address == t.challenges[k].address && Tracked(c, log + [e], t.pinTtl)
    ensures ChallengesTrack(t.(challenges := t.challenges[k := c]), log + [e], e.call.now)
  {
    var cs, cs' := t.challenges, t.challenges[k := c];
    LogStep(log, t.pinTtl, e);
    forall i | 0 <= i < |cs'| && cs'[i].occupied ensures Tracked(cs'[i], log + [e], t.pinTtl) {
      if i != k {
        assert !SameId(log, t.pinTtl, cs[i].address, cs[k].address);
        OtherSlotStays(t, log, e, i, k);
        TrackedStays(cs[i], log, t.pinTtl, e);
      }
    }
    forall a | Holds(log + [e], t.pinTtl, a, e.call.now) ensures HasSlot(cs', a) {
      assert Holds(log, t.pinTtl, a, e.call.now);
      var i :| 0 <= i < |cs| && Mine(cs[i], a);
      assert Mine(cs'[i], a);
    }
  }

  /** A verify call that finds slot `k` expired clears it, and its address holds none any more. */
  lemma ExpiredKeeps(t: Tables, log: seq<Event>, e: Event, k: nat)
    requires ChallengesTrack(t, log, e.call.now) && LogOk(log, t.pinTtl) && e.call.VerifyCall? && e.result == Expired
    requires k < |t.challenges| && t.challenges[k].occupied && t.challenges[k].id == e.call.id
    requires FindsOver(log, t.pinTtl, e.call, t.challenges[k].address)
    ensures ChallengesTrack(t.(challenges := t.challenges[k := NO_CHALLENGE]), log + [e], e.call.now)
  {
    var cs, cs' := t.challenges, t.challenges[k := NO_CHALLENGE];
    LogStep(log, t.pinTtl, e);
    forall i | 0 <= i < |cs'| && cs'[i].occupied ensures Tracked(cs'[i], log + [e], t.pinTtl) {
      OtherSlotStays(t, log, e, i, k);
      TrackedStays(cs[i], log, t.pinTtl, e);
    }
    forall a | Holds(log + [e], t.pinTtl, a, e.call.now) ensures HasSlot(cs', a) {
      assert a != cs[k].address;
      assert Holds(log, t.pinTtl, a, e.call.now);
      var i :| 0 <= i < |cs| && Mine(cs[i], a);
      assert Mine(cs'[i], a);
    }
  }

  /** No slot with this id and address: the call was not a wrong PIN of a challenge in time. */
  lemma NotFoundIsQuiet(t: Tables, log: seq<Event>, call: Call)
    requires ChallengesTrack(t, log, call.now) && LogOk(log, t.pinTtl) && call.VerifyCall?
    requires
      var k := FindId(t.challenges, call.id, 0);
      k == |t.challenges| || t.challenges[k].address != call.address
    ensures !Wrong(log, t.pinTtl, call, call.id)
    ensures FindsNoSlot(t.challenges, log, t.pinTtl, call)
  {
    if Wrong(log, t.pinTtl, call, call.id) {
      FindsHeld(t, log, call.now, call.address);
    }
    forall i | 0 <= i < |t.challenges| && t.challenges[i].occupied
      ensures !FindsOver(log, t.pinTtl, call, t.challenges[i].address)
    {
      if FindsOver(log, t.pinTtl, call, t.challenges[i].address) {
        assert Tracked(t.challenges[i], log, t.pinTtl);
        FoundByItsId(t, log, call, FindId(t.challenges, call.id, 0), call.address);
      }
    }
  }

  lemma VerifyKeeps(t: Tables, log: seq<Event>, clock: nat, address: Bytes, id: Bytes, pin: Bytes, now: nat,
                    token: Option<Bytes>)
    requires Tracks(t, log, clock) && now >= clock
    ensures
      var out := Verify(t, address, id, pin, now, token);
      ChallengesTrack(out.t, log + [Event(VerifyCall(address, id, pin, now, token), out.result)], now)
  {
    var out := Verify(t, address, id, pin, now, token);
    var e := Event(VerifyCall(address, id, pin, now, token), out.result);
    LaterKeeps(t, log, clock, now);
    LogStep(log, t.pinTtl, e);
    var k := FindId(t.challenges, id, 0);
    if !ValidAddress(address) || |id| != ID_BYTES || |pin| != PIN_DIGITS {
      WrongIsAddressed(t, log, e.call);
      QuietKeeps(t, log, now, e);
    } else if k == |t.challenges| || t.challenges[k].address != address {
      NotFoundIsQuiet(t, log, e.call);
      QuietKeeps(t, log, now, e);
    } else {
      assert Tracked(t.challenges[k], log, t.pinTtl);
      if out.result == Expired {
        ExpiredKeeps(t, log, e, k);
      } else {
        assert out.t.challenges == t.challenges[k := out.t.challenges[k]];
        SlotKeeps(t, log, e, k, out.t.challenges[k]);
      }
    }
  }

  lemma WrongIsAddressed(t: Tables, log: seq<Event>, call: Call)
    requires ChallengesTrack(t, log, call.now) && call.VerifyCall?
    ensures Wrong(log, t.pinTtl, call, call.id) ==>
              ValidAddress(call.address) && |call.id| == ID_BYTES && |call.pin| == PIN_DIGITS
    ensures !(ValidAddress(call.address) && |call.id| == ID_BYTES && |call.pin| == PIN_DIGITS) ==>
              FindsNoSlot(t.challenges, log, t.pinTtl, call)
  {
    if Wrong(log, t.pinTtl, call, call.id) {
      assert InTime(log, t.pinTtl, call.address, call.now) && Holds(log, t.pinTtl, call.address, call.now);
    }
    forall i | 0 <= i < |t.challenges| && t.challenges[i].occupied
              && FindsOver(log, t.pinTtl, call, t.challenges[i].address)
      ensures ValidAddress(call.address) && |call.id| == ID_BYTES && |call.pin| == PIN_DIGITS
    {
      assert Tracked(t.challenges[i], log, t.pinTtl);
    }
  }

  lemma VerifySessionKeeps(t: Tables, log: seq<Event>, clock: nat, call: Call)
    requires Tracks(t, log, clock) && call.now >= clock && call.VerifyCall?
    ensures
      var out := Answer(t, call);
      SessionsTrack(out.t, log + [Event(call, out.result)], call.now)
  {
    LogStep(log, t.sessionTtl, Event(call, Answer(t, call).result));
  }

  lemma AnswerKeeps(t: Tables, log: seq<Event>, clock: nat, call: Call)
    requires Tracks(t, log, clock) && Allowed(log, clock, call)
    ensures
      var out := Answer(t, call);
      Tracks(out.t, log + [Event(call, out.result)], call.now)
  {
    LogOkKeeps(t, log, clock, call);
    match call
    case CreateCall(address, now, draw) => CreateKeeps(t, log, clock, address, now, draw);
    case BearerCall(address, authorization, now) => BearerKeeps(t, log, clock, address, authorization, now);
    case VerifyCall(address, id, pin, now, token) =>
      VerifyKeeps(t, log, clock, address, id, pin, now, token);
      VerifySessionKeeps(t, log, clock, call);
  }

  // ---------------------------------------------------------------- what a request for a challenge answers

  /** By the log, eight other addresses take up the slots. */
  ghost predicate CrowdedOut(log: seq<Event>, ttl: nat, address: Bytes, now: nat) {
    exists others: set<Bytes> :: TakeUp(log, ttl, others, now) && |others| == MAX_CHALLENGES && address !in others
  }

  ghost predicate TakeUp(log: seq<Event>, ttl: nat, others: set<Bytes>, now: nat) {
    forall a :: a in others ==> Holds(log, ttl, a, now)
  }

  /** The addresses in the first `n` slots. */
  function Holders(cs: seq<Challenge>, n: nat): set<Bytes>
    requires n <= |cs|
  {
    if n == 0 then {} else Holders(cs, n - 1) + if cs[n - 1].occupied then {cs[n - 1].address} else {}
  }

  predicate Distinct(cs: seq<Challenge>) {
    forall i, j :: 0 <= i < j < |cs| && cs[i].occupied && cs[j].occupied ==> cs[i].address != cs[j].address
  }

  lemma {:induction false} HoldersMembers(cs: seq<Challenge>, n: nat)
    requires n <= |cs|
    ensures forall a :: a in Holders(cs, n) <==> exists i :: 0 <= i < n && Mine(cs[i], a)
  {
    if n > 0 {
      HoldersMembers(cs, n - 1);
      forall a | a in Holders(cs, n) ensures exists i :: 0 <= i < n && Mine(cs[i], a) {
        if a !in Holders(cs, n - 1) { assert Mine(cs[n - 1], a); }
      }
    }
  }

  /** As many addresses as slots, exactly when no slot is free. */
  lemma {:induction false} HoldersCount(cs: seq<Challenge>, n: nat)
    requires n <= |cs| && Distinct(cs)
    ensures |Holders(cs, n)| <= n
    ensures |Holders(cs, n)| == n <==> forall i :: 0 <= i < n ==> cs[i].occupied
  {
    if n > 0 {
      HoldersCount(cs, n - 1);
      HoldersMembers(cs, n - 1);
      assert cs[n - 1].occupied ==> cs[n - 1].address !in Holders(cs, n - 1);
    }
  }

  /** After cleaning, an address has a slot exactly when it holds one by the log. */
  lemma CleanedHolds(t: Tables, log: seq<Event>, now: nat, a: Bytes)
    requires Tracks(t, log, now)
    ensures HasSlot(Cleanup(t, now).challenges, a) <==> Holds(log, t.pinTtl, a, now)
  {
    var d := Cleanup(t, now);
    if Holds(log, t.pinTtl, a, now) {
      CleanupTracks(t, log, now, now);
    }
    forall i | 0 <= i < |d.challenges| && Mine(d.challenges[i], a) ensures Holds(log, t.pinTtl, a, now) {
      assert d.challenges[i] == t.challenges[i];
      assert Tracked(t.challenges[i], log, t.pinTtl);
    }
  }

  /** A lockout by the log is one in the tables. */
  lemma CleanedLocked(t: Tables, log: seq<Event>, now: nat, a: Bytes)
    requires Tracks(t, log, now)
    ensures Locked(Cleanup(t, now).challenges, a, now) <==>
              Latest(log, t.pinTtl, a).Some? && LockedUntil(log, t.pinTtl, a) > now
  {
    var d := Cleanup(t, now);
    CleanedHolds(t, log, now, a);
    forall i | 0 <= i < |d.challenges| && Mine(d.challenges[i], a)
      ensures d.challenges[i].limitedUntil == LockedUntil(log, t.pinTtl, a)
    {
      assert Tracked(t.challenges[i], log, t.pinTtl);
    }
  }

  /** The addresses in the cleaned slots are those that hold one by the log. */
  lemma CleanedHolders(t: Tables, log: seq<Event>, now: nat)
    requires Tracks(t, log, now)
    ensures |Cleanup(t, now).challenges| == MAX_CHALLENGES
    ensures forall a :: a in Holders(Cleanup(t, now).challenges, MAX_CHALLENGES) <==> Holds(log, t.pinTtl, a, now)
  {
    var cs := Cleanup(t, now).challenges;
    HoldersMembers(cs, MAX_CHALLENGES);
    forall a ensures a in Holders(cs, MAX_CHALLENGES) <==> Holds(log, t.pinTtl, a, now) {
      CleanedHolds(t, log, now, a);
    }
  }

  lemma CleanedDistinct(t: Tables, log: seq<Event>, now: nat)
    requires Tracks(t, log, now)
    ensures Distinct(Cleanup(t, now).challenges)
  {
    CleanupTracks(t, log, now, now);
  }

  /** No slot is free once those of `address` are dropped: all are taken, and none is its own. */
  lemma NoneFree(cs: seq<Challenge>, address: Bytes)
    ensures FirstFree(Drop(cs, address), 0) == |cs| <==>
            forall i :: 0 <= i < |cs| ==> cs[i].occupied && cs[i].address != address
  {
    var e := Drop(cs, address);
    if FirstFree(e, 0) == |cs| {
      forall i | 0 <= i < |cs| ensures cs[i].occupied && cs[i].address != address {
        assert e[i].occupied;
      }
    }
  }

  lemma FullIsCrowded(t: Tables, log: seq<Event>, now: nat, address: Bytes)
    requires Tracks(t, log, now)
    requires
      var cs := Cleanup(t, now).challenges;
      forall i :: 0 <= i < |cs| ==> cs[i].occupied && cs[i].address != address
    ensures CrowdedOut(log, t.pinTtl, address, now)
  {
    var cs := Cleanup(t, now).challenges;
    var all := Holders(cs, MAX_CHALLENGES);
    CleanedHolders(t, log, now);
    CleanedDistinct(t, log, now);
    HoldersCount(cs, MAX_CHALLENGES);
    HoldersMembers(cs, MAX_CHALLENGES);
    assert TakeUp(log, t.pinTtl, all, now);
  }

  lemma CrowdedIsFull(t: Tables, log: seq<Event>, now: nat, address: Bytes)
    requires Tracks(t, log, now) && CrowdedOut(log, t.pinTtl, address, now)
    ensures
      var cs := Cleanup(t, now).challenges;
      forall i :: 0 <= i < |cs| ==> cs[i].occupied && cs[i].address != address
  {
    var cs := Cleanup(t, now).challenges;
    var all := Holders(cs, MAX_CHALLENGES);
    CleanedHolders(t, log, now);
    CleanedDistinct(t, log, now);
    HoldersCount(cs, MAX_CHALLENGES);
    HoldersMembers(cs, MAX_CHALLENGES);
    var others :| TakeUp(log, t.pinTtl, others, now) && |others| == MAX_CHALLENGES && address !in others;
    SameSize(others, all);
    forall i | 0 <= i < |cs| ensures cs[i].occupied && cs[i].address != address {
      assert Mine(cs[i], cs[i].address);
    }
  }

  /** No slot is free for `address` exactly when eight others hold them by the log. */
  lemma CrowdedOutExactly(t: Tables, log: seq<Event>, now: nat, address: Bytes)
    requires Tracks(t, log, now)
    ensures
      var cs := Cleanup(t, now).challenges;
      FirstFree(Drop(cs, address), 0) == |cs| <==> CrowdedOut(log, t.pinTtl, address, now)
  {
    NoneFree(Cleanup(t, now).challenges, address);
    if CrowdedOut(log, t.pinTtl, address, now) {
      CrowdedIsFull(t, log, now, address);
    } else if FirstFree(Drop(Cleanup(t, now).challenges, address), 0) == |Cleanup(t, now).challenges| {
      FullIsCrowded(t, log, now, address);
    }
  }

  lemma SameSize(s: set<Bytes>, t: set<Bytes>)
    requires s <= t && |t| <= |s|
    ensures s == t
  {
    var more := t - s;
    assert t == s + more && |t| == |s| + |more|;
  }

  /** By the log, the lockout of `a` runs. */
  predicate LockedOut(log: seq<Event>, ttl: nat, a: Bytes, now: nat) {
    Latest(log, ttl, a).Some? && LockedUntil(log, ttl, a) > now
  }

  /** What a request for a challenge is due by the log. */
  ghost function CreateDue(log: seq<Event>, ttl: nat, address: Bytes, now: nat, draw: Option<Draw>): Result {
    if !ValidAddress(address) then Invalid
    else if draw.None? then RandomFailure
    else if LockedOut(log, ttl, address, now) then RateLimited
    else if CrowdedOut(log, ttl, address, now) then Capacity
    else Ok
  }

  /**
    A request for a challenge answers by the log of past calls. It is rate-limited exactly while the lockout of that
    same address runs, finds no capacity exactly while eight other addresses hold a challenge in time or a running
    lockout, and otherwise hands out what it drew, which is then the latest challenge of its address.
   */
  lemma CreateExactly(t: Tables, log: seq<Event>, clock: nat, address: Bytes, now: nat, draw: Option<Draw>)
    requires Tracks(t, log, clock) && now >= clock
    ensures Create(t, address, now, draw).result == CreateDue(log, t.pinTtl, address, now, draw)
    ensures
      var result := Create(t, address, now, draw).result;
      var latest := Latest(log + [Event(CreateCall(address, now, draw), result)], t.pinTtl, address);
      latest == if result == Ok then Some(Issue(draw.value.id, draw.value.pin, After(now, t.pinTtl)))
                else Latest(log, t.pinTtl, address)
  {
    LaterKeeps(t, log, clock, now);
    CleanedLocked(t, log, now, address);
    CrowdedOutExactly(t, log, now, address);
    LogStep(log, t.pinTtl, Event(CreateCall(address, now, draw), Create(t, address, now, draw).result));
  }

  // ---------------------------------------------------------------- which challenges are still there

  /** An address has a slot exactly when its latest challenge was not cleared. */
  ghost predicate SlotsTrack(t: Tables, log: seq<Event>) {
    forall a :: HasSlot(t.challenges, a) <==> Kept(log, t.pinTtl, a)
  }

  ghost predicate Follows(t: Tables, log: seq<Event>, clock: nat) { Tracks(t, log, clock) && SlotsTrack(t, log) }

  lemma KeptStep(log: seq<Event>, ttl: nat, e: Event)
    ensures forall a :: Kept(log + [e], ttl, a) <==>
                        || (Issues(e) && e.call.address == a)
                        || (Kept(log, ttl, a) && !FindsOver(log, ttl, e.call, a) &&
                            (Cleans(e.call) ==> Holds(log, ttl, a, e.call.now)))
  {
    assert (log + [e])[..|log|] == log;
  }

  lemma FindsKept(t: Tables, log: seq<Event>, clock: nat, address: Bytes)
    requires Follows(t, log, clock) && Kept(log, t.pinTtl, address) && Latest(log, t.pinTtl, address).Some?
    ensures
      var k := FindId(t.challenges, Latest(log, t.pinTtl, address).value.id, 0);
      k < |t.challenges| && t.challenges[k].address == address
  {
    var i :| 0 <= i < |t.challenges| && Mine(t.challenges[i], address);
    FindsSlot(t, log, clock, address, i);
  }

  lemma CleanedSlots(t: Tables, log: seq<Event>, now: nat, a: Bytes)
    requires Follows(t, log, now)
    ensures HasSlot(Cleanup(t, now).challenges, a) <==> Kept(log, t.pinTtl, a) && Holds(log, t.pinTtl, a, now)
  {
    CleanedHolds(t, log, now, a);
    if Holds(log, t.pinTtl, a, now) {
      var i :| 0 <= i < |t.challenges| && Mine(t.challenges[i], a);
      assert HasSlot(t.challenges, a);
    }
  }

  lemma IssuedSlots(d: Tables, address: Bytes, now: nat, draw: Draw, a: Bytes)
    requires FirstFree(Drop(d.challenges, address), 0) < |d.challenges|
    ensures HasSlot(Issued(d, address, now, draw).challenges, a) <==> a == address || HasSlot(d.challenges, a)
  {
    var k := FirstFree(Drop(d.challenges, address), 0);
    var cs' := Issued(d, address, now, draw).challenges;
    assert Mine(cs'[k], address);
    if a != address && HasSlot(d.challenges, a) {
      var i :| 0 <= i < |d.challenges| && Mine(d.challenges[i], a);
      assert Mine(cs'[i], a);
    }
    if a != address && HasSlot(cs', a) {
      var i :| 0 <= i < |cs'| && Mine(cs'[i], a);
      assert Mine(d.challenges[i], a);
    }
  }

  lemma CreateSlots(t: Tables, log: seq<Event>, clock: nat, address: Bytes, now: nat, draw: Option<Draw>)
    requires Follows(t, log, clock) && now >= clock
    ensures
      var out := Create(t, address, now, draw);
      SlotsTrack(out.t, log + [Event(CreateCall(address, now, draw), out.result)])
  {
    var out := Create(t, address, now, draw);
    var e := Event(CreateCall(address, now, draw), out.result);
    KeptStep(log, t.pinTtl, e);
    LaterKeeps(t, log, clock, now);
    var d := Cleanup(t, now);
    forall a ensures HasSlot(out.t.challenges, a) <==> Kept(log + [e], t.pinTtl, a) {
      CleanedSlots(t, log, now, a);
      if out.result == Ok {
        IssuedSlots(d, address, now, draw.value, a);
      } else if out.result == Capacity {
        NoneFree(d.challenges, address);
        assert Drop(d.challenges, address) == d.challenges;
      }
    }
  }

  lemma BearerSlots(t: Tables, log: seq<Event>, clock: nat, address: Bytes, authorization: Bytes, now: nat)
    requires Follows(t, log, clock) && now >= clock
    ensures
      var out := Bearer(t, address, authorization, now);
      SlotsTrack(out.t, log + [Event(BearerCall(address, authorization, now), out.result)])
  {
    var out := Bearer(t, address, authorization, now);
    var e := Event(BearerCall(address, authorization, now), out.result);
    KeptStep(log, t.pinTtl, e);
    LaterKeeps(t, log, clock, now);
    forall a ensures HasSlot(out.t.challenges, a) <==> Kept(log + [e], t.pinTtl, a) {
      CleanedSlots(t, log, now, a);
    }
  }

  /** A slot replaced by one of the same address, or emptied where no other has it. */
  lemma ReplacedSlot(cs: seq<Challenge>, k: nat, c: Challenge, a: Bytes)
    requires Distinct(cs) && k < |cs| && cs[k].occupied && (c.occupied ==> c.address == cs[k].address)
    ensures HasSlot(cs[k := c], a) <==> HasSlot(cs, a) && (c.occupied || a != cs[k].address)
  {
    var cs' := cs[k := c];
    if HasSlot(cs, a) && (c.occupied || a != cs[k].address) {
      var i :| 0 <= i < |cs| && Mine(cs[i], a);
      assert Mine(cs'[i], a);
    }
    if HasSlot(cs', a) {
      var i :| 0 <= i < |cs'| && Mine(cs'[i], a);
      assert Mine(cs[i], a);
    }
  }

  /** The call finds a kept challenge over exactly when it is answered Expired. */
  lemma FindsOverExactly(t: Tables, log: seq<Event>, clock: nat, call: Call, a: Bytes)
    requires Follows(t, log, clock) && call.VerifyCall? && call.now >= clock && Kept(log, t.pinTtl, a)
    ensures FindsOver(log, t.pinTtl, call, a) <==> Answer(t, call).result == Expired && call.address == a
  {
    var k := FindId(t.challenges, call.id, 0);
    if FindsOver(log, t.pinTtl, call, a) {
      FindsKept(t, log, clock, a);
    }
    if k < |t.challenges| {
      assert Tracked(t.challenges[k], log, t.pinTtl);
    }
  }

  lemma VerifySlots(t: Tables, log: seq<Event>, clock: nat, call: Call)
    requires Follows(t, log, clock) && call.VerifyCall? && call.now >= clock
    ensures SlotsTrack(Answer(t, call).t, log + [Event(call, Answer(t, call).result)])
  {
    var out := Answer(t, call);
    var e := Event(call, out.result);
    KeptStep(log, t.pinTtl, e);
    var k := FindId(t.challenges, call.id, 0);
    forall a ensures HasSlot(out.t.challenges, a) <==> Kept(log + [e], t.pinTtl, a) {
      if Kept(log, t.pinTtl, a) { FindsOverExactly(t, log, clock, call, a); }
      if out.t.challenges != t.challenges {
        assert out.t.challenges == t.challenges[k := out.t.challenges[k]];
        ReplacedSlot(t.challenges, k, out.t.challenges[k], a);
      }
    }
  }

  lemma AnswerFollows(t: Tables, log: seq<Event>, clock: nat, call: Call)
    requires Follows(t, log, clock) && Allowed(log, clock, call)
    ensures
      var out := Answer(t, call);
      Follows(out.t, log + [Event(call, out.result)], call.now)
  {
    AnswerKeeps(t, log, clock, call);
    match call
    case CreateCall(address, now, draw) => CreateSlots(t, log, clock, address, now, draw);
    case BearerCall(address, authorization, now) => BearerSlots(t, log, clock, address, authorization, now);
    case VerifyCall(_, _, _, _, _) => VerifySlots(t, log, clock, call);
  }

  // ---------------------------------------------------------------- what a PIN answers

  /** By the log, the call names the latest challenge of its address. */
  predicate NamesLatest(log: seq<Event>, ttl: nat, address: Bytes, id: Bytes) {
    Latest(log, ttl, address).Some? && Latest(log, ttl, address).value.id == id
  }

  /** What a PIN check is due by the log. */
  function VerifyDue(log: seq<Event>, ttl: nat, address: Bytes, id: Bytes, pin: Bytes, now: nat, tokenOk: bool): Result
  {
    if !ValidAddress(address) || |id| != ID_BYTES || |pin| != PIN_DIGITS || !NamesLatest(log, ttl, address, id)
       || !Kept(log, ttl, address)
    then Invalid
    else if Successes(log, id) > 0 then Used
    else if now >= Latest(log, ttl, address).value.expires then Expired
    else if WrongPins(log, ttl, id) >= MAX_ATTEMPTS then RateLimited
    else if pin != Latest(log, ttl, address).value.pin then
      (if WrongPins(log, ttl, id) + 1 == MAX_ATTEMPTS then RateLimited else Invalid)
    else if tokenOk then Ok
    else RandomFailure
  }

  /**
    A PIN check answers by the log of past calls. A challenge that is not the latest of its address, or was cleared
    since, is unknown; one that was won is used; one that is over is expired; and from the fifth wrong PIN on it is
    locked.
   */
  lemma VerifyAnswers(t: Tables, log: seq<Event>, clock: nat, address: Bytes, id: Bytes, pin: Bytes, now: nat,
                      token: Option<Bytes>)
    requires Follows(t, log, clock) && now >= clock
    ensures Verify(t, address, id, pin, now, token).result ==
            VerifyDue(log, t.pinTtl, address, id, pin, now, token.Some?)
  {
    var k := FindId(t.challenges, id, 0);
    if NamesLatest(log, t.pinTtl, address, id) && Kept(log, t.pinTtl, address) {
      FindsKept(t, log, clock, address);
    }
    if k < |t.challenges| {
      assert Tracked(t.challenges[k], log, t.pinTtl);
      assert Mine(t.challenges[k], t.challenges[k].address) && HasSlot(t.challenges, t.challenges[k].address);
    }
  }

  // ---------------------------------------------------------------- runs

  datatype Run = Run(t: Tables, log: seq<Event>, clock: nat)

  /** auth_manager_create. */
  function Fresh(pinTtl: nat, sessionTtl: nat): Tables {
    Tables(seq(MAX_CHALLENGES, _ => NO_CHALLENGE), seq(MAX_SESSIONS, _ => NO_SESSION), pinTtl, sessionTtl)
  }

  function RunAll(pinTtl: nat, sessionTtl: nat, calls: seq<Call>): Run {
    if calls == [] then Run(Fresh(pinTtl, sessionTtl), [], 0)
    else
      var before, call := RunAll(pinTtl, sessionTtl, calls[..|calls| - 1]), calls[|calls| - 1];
      var out := Answer(before.t, call);
      Run(out.t, before.log + [Event(call, out.result)], call.now)
  }

  predicate AllAllowed(pinTtl: nat, sessionTtl: nat, calls: seq<Call>) {
    calls == [] ||
    var init := calls[..|calls| - 1];
    var before := RunAll(pinTtl, sessionTtl, init);
    AllAllowed(pinTtl, sessionTtl, init) && Allowed(before.log, before.clock, calls[|calls| - 1])
  }

  lemma FreshFollows(pinTtl: nat, sessionTtl: nat)
    ensures Follows(Fresh(pinTtl, sessionTtl), [], 0)
  {
  }

  lemma {:induction false} RunTracks(pinTtl: nat, sessionTtl: nat, calls: seq<Call>)
    requires AllAllowed(pinTtl, sessionTtl, calls)
    ensures
      var r := RunAll(pinTtl, sessionTtl, calls);
      Follows(r.t, r.log, r.clock) && r.t.pinTtl == pinTtl && r.t.sessionTtl == sessionTtl
  {
    FreshFollows(pinTtl, sessionTtl);
    if calls != [] {
      var init := calls[..|calls| - 1];
      var before := RunAll(pinTtl, sessionTtl, init);
      RunTracks(pinTtl, sessionTtl, init);
      AnswerFollows(before.t, before.log, before.clock, calls[|calls| - 1]);
    }
  }

  /**
    After any run: at most one challenge per address and one live session; a challenge was won at most once; and
    one more call, be it a PIN, a bearer check or a request for a challenge, answers by the log of past calls alone.
   */
  lemma RunAnswersByItsLog(pinTtl: nat, sessionTtl: nat, calls: seq<Call>, call: Call)
    requires AllAllowed(pinTtl, sessionTtl, calls + [call])
    ensures
      var r := RunAll(pinTtl, sessionTtl, calls);
      var result := Answer(r.t, call).result;
      && (forall i, j :: 0 <= i < j < |r.t.challenges| && r.t.challenges[i].occupied && r.t.challenges[j].occupied ==>
            r.t.challenges[i].address != r.t.challenges[j].address)
      && (forall i :: 1 <= i < |r.t.sessions| ==> !r.t.sessions[i].occupied)
      && (forall id :: Successes(r.log, id) <= 1)
      && match call
         case CreateCall(address, now, draw) => result == CreateDue(r.log, pinTtl, address, now, draw)
         case VerifyCall(address, id, pin, now, token) =>
           && (result == Ok <==> PinDue(r.log, pinTtl, address, id, pin, now) && token.Some?)
           && result == VerifyDue(r.log, pinTtl, address, id, pin, now, token.Some?)
         case BearerCall(address, authorization, now) =>
           result == if TokenDue(r.log, sessionTtl, address, authorization, now) then Ok else Invalid
  {
    assert (calls + [call])[..|calls|] == calls;
    RunTracks(pinTtl, sessionTtl, calls);
    var r := RunAll(pinTtl, sessionTtl, calls);
    match call
    case CreateCall(address, now, draw) => CreateExactly(r.t, r.log, r.clock, address, now, draw);
    case VerifyCall(address, id, pin, now, token) =>
      VerifyExactly(r.t, r.log, r.clock, address, id, pin, now, token);
      VerifyAnswers(r.t, r.log, r.clock, address, id, pin, now, token);
    case BearerCall(address, authorization, now) => BearerExactly(r.t, r.log, r.clock, address, authorization, now);
  }

  // ---------------------------------------------------------------- the lockout

  /** A verify call that finds an unused challenge of its own address after it expired; the source then clears it. */
  predicate FindsExpired(t: Tables, call: Call) {
    && call.VerifyCall? && ValidAddress(call.address) && |call.id| == ID_BYTES && |call.pin| == PIN_DIGITS
    && var k := FindId(t.challenges, call.id, 0);
       && k < |t.challenges| && t.challenges[k].address == call.address
       && !t.challenges[k].used && t.challenges[k].expires <= call.now
  }

  lemma CreateLeavesLocked(t: Tables, i: nat, address: Bytes, now: nat, draw: Option<Draw>)
    requires i < |t.challenges| && t.challenges[i].occupied && t.challenges[i].limitedUntil > now
    ensures
      var cs' := Create(t, address, now, draw).t.challenges;
      |cs'| == |t.challenges| && cs'[i] == t.challenges[i]
  {
    var d := Cleanup(t, now);
    assert d.challenges[i] == t.challenges[i];
    if Mine(t.challenges[i], address) {
      assert Locked(d.challenges, address, now) by { assert Mine(d.challenges[i], address); }
    }
  }

  lemma VerifyAndLocked(t: Tables, log: seq<Event>, i: nat, call: Call)
    requires ChallengesTrack(t, log, call.now) && LogOk(log, t.pinTtl) && call.VerifyCall?
    requires i < |t.challenges| && t.challenges[i].occupied && t.challenges[i].limitedUntil > call.now
    ensures
      var cs' := Answer(t, call).t.challenges;
      && |cs'| == |t.challenges|
      && if FindsExpired(t, call) && t.challenges[i].address == call.address then
           forall j :: 0 <= j < |cs'| ==> !Mine(cs'[j], call.address)
         else cs'[i].occupied && cs'[i].address == t.challenges[i].address && cs'[i].limitedUntil > call.now
  {
    var k := FindId(t.challenges, call.id, 0);
    assert Tracked(t.challenges[i], log, t.pinTtl);
    if FindsExpired(t, call) && t.challenges[i].address == call.address {
      assert k == i;
    }
  }

  /**
    While the lockout of an address runs, one call ends it exactly when it is a verify call that finds the locked
    challenge expired; so a lockout need not last its 30 seconds.
   */
  lemma LockoutEndsEarlyExactly(t: Tables, log: seq<Event>, clock: nat, address: Bytes, call: Call)
    requires Tracks(t, log, clock) && call.now >= clock && Locked(t.challenges, address, call.now)
    ensures !Locked(Answer(t, call).t.challenges, address, call.now) <==>
            FindsExpired(t, call) && call.address == address
  {
    var i :| 0 <= i < |t.challenges| && Mine(t.challenges[i], address) && t.challenges[i].limitedUntil > call.now;
    LaterKeeps(t, log, clock, call.now);
    ghost var cs' := Answer(t, call).t.challenges;
    match call
    case CreateCall(other, now, draw) =>
      CreateLeavesLocked(t, i, other, now, draw);
      assert Mine(cs'[i], address);
    case BearerCall(_, _, _) =>
      assert cs'[i] == t.challenges[i];
    case VerifyCall(_, _, _, _, _) =>
      VerifyAndLocked(t, log, i, call);
      assert Mine(cs'[i], address) || FindsExpired(t, call);
  }

  // ---------------------------------------------------------------- a run in which it ends early

  /** The tables with one challenge. */
  function One(c: Challenge, pinTtl: nat, sessionTtl: nat): Tables {
    Fresh(pinTtl, sessionTtl).(challenges := [c] + seq(MAX_CHALLENGES - 1, _ => NO_CHALLENGE))
  }

  lemma CreateOnFresh(pinTtl: nat, sessionTtl: nat, address: Bytes, now: nat, draw: Draw)
    requires ValidAddress(address)
    ensures
      var t := Fresh(pinTtl, sessionTtl);
      Create(t, address, now, Some(draw)) == Outcome(One(NewChallenge(t, address, now, draw), pinTtl, sessionTtl), Ok)
  {
    var t := Fresh(pinTtl, sessionTtl);
    assert Cleanup(t, now).challenges == t.challenges && Cleanup(t, now).sessions == t.sessions;
    assert Drop(t.challenges, address) == t.challenges;
    var c := NewChallenge(t, address, now, draw);
    assert t.challenges[0 := c] == One(c, pinTtl, sessionTtl).challenges;
  }

  lemma MissOnOne(c: Challenge, pinTtl: nat, sessionTtl: nat, pin: Bytes, now: nat)
    requires c.occupied && !c.used && ValidAddress(c.address) && |c.id| == ID_BYTES && |pin| == PIN_DIGITS
    requires now < c.expires && c.attempts < MAX_ATTEMPTS && c.pin != pin
    ensures
      var out := Verify(One(c, pinTtl, sessionTtl), c.address, c.id, pin, now, None);
      out.t == One(Miss(c, now), pinTtl, sessionTtl) && out.result != Ok
  {
    var t := One(c, pinTtl, sessionTtl);
    assert t.challenges[0] == c;
    assert t.challenges[0 := Miss(c, now)] == One(Miss(c, now), pinTtl, sessionTtl).challenges;
  }

  lemma ExpiryOnOne(c: Challenge, pinTtl: nat, sessionTtl: nat, pin: Bytes, now: nat)
    requires c.occupied && !c.used && ValidAddress(c.address) && |c.id| == ID_BYTES && |pin| == PIN_DIGITS
    requires c.expires <= now
    ensures Verify(One(c, pinTtl, sessionTtl), c.address, c.id, pin, now, None) ==
            Outcome(Fresh(pinTtl, sessionTtl), Expired)
  {
    var t := One(c, pinTtl, sessionTtl);
    assert t.challenges[0] == c;
    assert t.challenges[0 := NO_CHALLENGE] == Fresh(pinTtl, sessionTtl).challenges;
  }

  /** Challenge `c` after `k` wrong PINs at the same second. */
  function Missed(c: Challenge, now: nat, k: nat): Challenge {
    if k == 0 then c else Miss(Missed(c, now, k - 1), now)
  }

  lemma {:induction false} MissedFacts(c: Challenge, now: nat, k: nat)
    requires c.attempts == 0 && c.limitedUntil == 0 && k <= MAX_ATTEMPTS
    ensures
      var d := Missed(c, now, k);
      && d.occupied == c.occupied && d.used == c.used && d.address == c.address && d.id == c.id
      && d.expires == c.expires
      && d.attempts == k && (k < MAX_ATTEMPTS ==> d.pin == c.pin)
      && d.limitedUntil == if k < MAX_ATTEMPTS then 0 else After(now, RATE_LIMIT_SECONDS)
  {
    if k > 0 { MissedFacts(c, now, k - 1); }
  }

  function WrongCall(address: Bytes, id: Bytes, pin: Bytes, now: nat): Call { VerifyCall(address, id, pin, now, None) }

  /** Calls, then `k` wrong PINs at the same second. */
  function ThenWrong(first: seq<Call>, address: Bytes, id: Bytes, wrong: Bytes, now: nat, k: nat): seq<Call> {
    if k == 0 then first
    else ThenWrong(first, address, id, wrong, now, k - 1) + [WrongCall(address, id, wrong, now)]
  }

  /** A challenge at second 0, then `k` wrong PINs in its last second. */
  function WrongRun(address: Bytes, draw: Draw, wrong: Bytes, pinTtl: nat, k: nat): seq<Call>
    requires pinTtl > 0
  {
    ThenWrong([CreateCall(address, 0, Some(draw))], address, draw.id, wrong, pinTtl - 1, k)
  }

  lemma RunOn(pinTtl: nat, sessionTtl: nat, calls: seq<Call>, call: Call)
    ensures
      var before := RunAll(pinTtl, sessionTtl, calls);
      var out := Answer(before.t, call);
      && RunAll(pinTtl, sessionTtl, calls + [call]) == Run(out.t, before.log + [Event(call, out.result)], call.now)
      && (AllAllowed(pinTtl, sessionTtl, calls + [call]) <==>
            AllAllowed(pinTtl, sessionTtl, calls) && Allowed(before.log, before.clock, call))
  {
    assert (calls + [call])[..|calls|] == calls;
  }

  /** The run so far: its tables, and that only its first call drew an id. */
  ghost predicate RunIs(r: Run, c: Challenge, pinTtl: nat, sessionTtl: nat, clock: nat) {
    r.t == One(c, pinTtl, sessionTtl) && r.clock == clock && forall id :: id != c.id ==> NewId(r.log, id)
  }

  /** These calls were allowed, and lead to the tables with challenge `d`. */
  ghost predicate LeadsTo(pinTtl: nat, sessionTtl: nat, calls: seq<Call>, d: Challenge, clock: nat) {
    AllAllowed(pinTtl, sessionTtl, calls) && RunIs(RunAll(pinTtl, sessionTtl, calls), d, pinTtl, sessionTtl, clock)
  }

  lemma NewIdOn(log: seq<Event>, e: Event, id: Bytes)
    requires NewId(log, id) && !Drew(e, id)
    ensures NewId(log + [e], id)
  {
  }

  lemma FirstCallIs(address: Bytes, draw: Draw, pinTtl: nat, sessionTtl: nat)
    requires ValidAddress(address) && DrawOk(Some(draw))
    ensures
      var calls := [CreateCall(address, 0, Some(draw))];
      var c := NewChallenge(Fresh(pinTtl, sessionTtl), address, 0, draw);
      LeadsTo(pinTtl, sessionTtl, calls, c, 0)
  {
    CreateOnFresh(pinTtl, sessionTtl, address, 0, draw);
    RunOn(pinTtl, sessionTtl, [], CreateCall(address, 0, Some(draw)));
    assert [] + [CreateCall(address, 0, Some(draw))] == [CreateCall(address, 0, Some(draw))];
  }

  /** One more wrong PIN. */
  lemma MissGoesOn(r: Run, d: Challenge, pinTtl: nat, sessionTtl: nat, clock: nat, pin: Bytes, now: nat)
    requires RunIs(r, d, pinTtl, sessionTtl, clock)
    requires d.occupied && !d.used && ValidAddress(d.address) && |d.id| == ID_BYTES && |pin| == PIN_DIGITS
    requires now < d.expires && d.attempts < MAX_ATTEMPTS && d.pin != pin
    ensures
      var call := WrongCall(d.address, d.id, pin, now);
      var out := Answer(r.t, call);
      RunIs(Run(out.t, r.log + [Event(call, out.result)], now), Miss(d, now), pinTtl, sessionTtl, now)
  {
    MissOnOne(d, pinTtl, sessionTtl, pin, now);
    var call := WrongCall(d.address, d.id, pin, now);
    forall id | id != d.id ensures NewId(r.log + [Event(call, Answer(r.t, call).result)], id) {
      NewIdOn(r.log, Event(call, Answer(r.t, call).result), id);
    }
  }

  /** A run ending in `r` with slot `d`, one more wrong PIN away from the next. */
  lemma MissExtends(pinTtl: nat, sessionTtl: nat, before: seq<Call>, d: Challenge, clock: nat, pin: Bytes, now: nat)
    requires LeadsTo(pinTtl, sessionTtl, before, d, clock) && clock <= now
    requires d.occupied && !d.used && ValidAddress(d.address) && |d.id| == ID_BYTES && |pin| == PIN_DIGITS
    requires now < d.expires && d.attempts < MAX_ATTEMPTS && d.pin != pin
    ensures LeadsTo(pinTtl, sessionTtl, before + [WrongCall(d.address, d.id, pin, now)], Miss(d, now), now)
  {
    MissGoesOn(RunAll(pinTtl, sessionTtl, before), d, pinTtl, sessionTtl, clock, pin, now);
    RunOn(pinTtl, sessionTtl, before, WrongCall(d.address, d.id, pin, now));
  }

  lemma {:induction false} WrongsExtend(pinTtl: nat, sessionTtl: nat, first: seq<Call>, c: Challenge, wrong: Bytes,
                                        now: nat, k: nat)
    requires LeadsTo(pinTtl, sessionTtl, first, c, 0)
    requires c.occupied && !c.used && ValidAddress(c.address) && |c.id| == ID_BYTES && |wrong| == PIN_DIGITS
    requires now < c.expires && c.attempts == 0 && c.limitedUntil == 0 && c.pin != wrong && k <= MAX_ATTEMPTS
    ensures LeadsTo(pinTtl, sessionTtl, ThenWrong(first, c.address, c.id, wrong, now, k), Missed(c, now, k),
                    if k == 0 then 0 else now)
  {
    if k > 0 {
      WrongsExtend(pinTtl, sessionTtl, first, c, wrong, now, k - 1);
      MissedFacts(c, now, k - 1);
      MissExtends(pinTtl, sessionTtl, ThenWrong(first, c.address, c.id, wrong, now, k - 1), Missed(c, now, k - 1),
                  if k == 1 then 0 else now, wrong, now);
    }
  }

  lemma WrongRunIs(address: Bytes, draw: Draw, wrong: Bytes, pinTtl: nat, sessionTtl: nat)
    requires ValidAddress(address) && DrawOk(Some(draw)) && |wrong| == PIN_DIGITS && wrong != draw.pin
    requires 0 < pinTtl < U64_LIMIT
    ensures
      var c := NewChallenge(Fresh(pinTtl, sessionTtl), address, 0, draw);
      LeadsTo(pinTtl, sessionTtl, WrongRun(address, draw, wrong, pinTtl, MAX_ATTEMPTS),
              Missed(c, pinTtl - 1, MAX_ATTEMPTS), pinTtl - 1)
  {
    FirstCallIs(address, draw, pinTtl, sessionTtl);
    WrongsExtend(pinTtl, sessionTtl, [CreateCall(address, 0, Some(draw))],
                 NewChallenge(Fresh(pinTtl, sessionTtl), address, 0, draw), wrong, pinTtl - 1, MAX_ATTEMPTS);
  }

  /**
    A run of allowed calls in which a lockout ends early. In the last second of a challenge five wrong PINs lock the
    address for 30 seconds; a second later the challenge has expired, one more try clears it, lockout and all, and a
    new challenge is handed out at once.
   */
  lemma LockoutCutShort(address: Bytes, draw: Draw, next: Draw, wrong: Bytes, pinTtl: nat, sessionTtl: nat)
    requires ValidAddress(address) && DrawOk(Some(draw)) && DrawOk(Some(next)) && next.id != draw.id
    requires |wrong| == PIN_DIGITS && wrong != draw.pin && 0 < pinTtl && pinTtl + RATE_LIMIT_SECONDS < U64_LIMIT
    ensures
      var locked := WrongRun(address, draw, wrong, pinTtl, MAX_ATTEMPTS);
      var cleared := locked + [WrongCall(address, draw.id, wrong, pinTtl)];
      var again := CreateCall(address, pinTtl, Some(next));
      && AllAllowed(pinTtl, sessionTtl, cleared + [again])
      && Locked(RunAll(pinTtl, sessionTtl, locked).t.challenges, address, pinTtl)
      && !Locked(RunAll(pinTtl, sessionTtl, cleared).t.challenges, address, pinTtl)
      && Answer(RunAll(pinTtl, sessionTtl, cleared).t, again).result == Ok
  {
    var locked := WrongRun(address, draw, wrong, pinTtl, MAX_ATTEMPTS);
    var call := WrongCall(address, draw.id, wrong, pinTtl);
    var again := CreateCall(address, pinTtl, Some(next));
    var c := NewChallenge(Fresh(pinTtl, sessionTtl), address, 0, draw);
    var d := Missed(c, pinTtl - 1, MAX_ATTEMPTS);
    WrongRunIs(address, draw, wrong, pinTtl, sessionTtl);
    MissedFacts(c, pinTtl - 1, MAX_ATTEMPTS);
    var r := RunAll(pinTtl, sessionTtl, locked);
    assert r.t.challenges[0] == d && Mine(r.t.challenges[0], address);
    RunOn(pinTtl, sessionTtl, locked, call);
    ExpiryOnOne(d, pinTtl, sessionTtl, wrong, pinTtl);
    NewIdOn(r.log, Event(call, Answer(r.t, call).result), next.id);
    RunOn(pinTtl, sessionTtl, locked + [call], again);
    CreateOnFresh(pinTtl, sessionTtl, address, pinTtl, next);
  }
}
