/**
  Why a stream call that clear_slot overtakes is kept out of the runs: upload_write does not look at the id again
  after waiting. Here is a run that parks a call, clears its upload and prepares the next one, and what the call does
  when it then goes on.
 */
module UploadOvertaken {
  import opened Bytes
  import opened Upload
  import opened UploadRing
  import opened UploadStaging
  import opened UploadSystem
  import opened UploadInvariant
  import opened UploadStreams
  import opened UploadRuns
  import opened UploadSteps
  import opened UploadCompletion
  import Sha256

  // ---------------------------------------------------------------- a call is parked

  /** A stream whose connection is in upload_write with `rest` to go and `k` full buffers queued; the writer sleeps. */
  ghost predicate Filling(s: System, rest: Bytes, k: nat) {
    && Inv(s) && s.m.occupied && Queued(s) && s.stream == Writing(rest)
    && s.m.error == 0 && !s.m.discard && !s.m.finalizing && s.m.job == NoJob
    && s.m.ring.queued == k && s.m.ring.buffered == 0
  }

  /** upload_write waits for a buffer. */
  ghost predicate Parked(s: System, rest: Bytes) { Filling(s, rest, DEPTH) }

  function BeginCall(m: Manager): Step { BeginStep(m.id, m.client, m.authorization, m.expected, m.lastActivity) }

  lemma BeginsStream(s: System)
    requires ReadyToStart(s)
    ensures
      var r := Next(s, BeginCall(s.m));
      && r.Some? && Inv(r.value)
      && r.value == s.(m := s.m.(started := true, sha := Sha256.ContextOf([])), stream := Open)
  {
    StepKeeps(s, BeginCall(s.m));
  }

  lemma WritesFromOpen(t: System, data: Bytes, now: nat)
    requires Shaped(t.m) && t.m.occupied && t.m.started && !t.m.direct && t.stream == Open && t.m.received == 0
    requires 0 < |data| <= t.m.expected && !LeaseExpired(t.m, now)
    ensures Next(t, WriteCall(data, now)) == Some(t.(stream := Writing(data)))
  {
  }

  lemma StartsWriting(s: System, data: Bytes)
    requires ReadyToStart(s) && 0 < |data| <= s.m.expected
    ensures
      var r := Run(s, [BeginCall(s.m), WriteCall(data, s.m.lastActivity)]);
      r.Some? && Filling(r.value, data, 0)
  {
    BeginsStream(s);
    var t := Next(s, BeginCall(s.m)).value;
    var call := WriteCall(data, s.m.lastActivity);
    WritesFromOpen(t, data, s.m.lastActivity);
    StepKeeps(t, call);
    TwoSteps(s, BeginCall(s.m), call);
  }

  lemma FullTurn(m: Manager, data: Bytes, now: nat)
    requires Shaped(m) && m.error == 0 && !m.discard && m.ring.queued < DEPTH && m.ring.buffered == 0 && |data| > CAP
    ensures
      var out := WriteTurn(m, data, now);
      && out.result == Ok && out.m.ring.queued == m.ring.queued + 1 && out.m.ring.buffered == 0
      && out.m == m.(ring := out.m.ring, sha := out.m.sha, received := m.received + CAP, lastActivity := now)
      && TurnCount(m.ring, data) == CAP
  {
  }

  lemma FillsOne(s: System, rest: Bytes, k: nat, now: nat)
    requires Filling(s, rest, k) && k < DEPTH && |rest| > CAP
    ensures
      var r := Next(s, WriteTurnStep(now));
      r.Some? && Filling(r.value, rest[CAP..], k + 1)
  {
    FullTurn(s.m, rest, now);
    StepKeeps(s, WriteTurnStep(now));
  }

  /** With more than four buffers of data and a writer that sleeps, the call comes to wait. */
  lemma {:induction false} FillsUp(s: System, rest: Bytes, k: nat, now: nat) returns (steps: seq<Step>)
    requires Filling(s, rest, k) && k <= DEPTH && |rest| > (DEPTH - k) * CAP
    ensures Run(s, steps).Some? && Parked(Run(s, steps).value, rest[(DEPTH - k) * CAP..])
    decreases DEPTH - k
  {
    if k == DEPTH {
      assert rest[0..] == rest;
      steps := [];
    } else {
      FillsOne(s, rest, k, now);
      var more := FillsUp(Next(s, WriteTurnStep(now)).value, rest[CAP..], k + 1, now);
      RunCons(s, WriteTurnStep(now), more);
      assert rest[CAP..][(DEPTH - k - 1) * CAP..] == rest[(DEPTH - k) * CAP..];
      steps := [WriteTurnStep(now)] + more;
    }
  }

  /** From every prepared upload of more than four buffers. */
  lemma CallIsParked(s: System, data: Bytes) returns (steps: seq<Step>)
    requires ReadyToStart(s) && DEPTH * CAP < |data| <= s.m.expected
    ensures Run(s, steps).Some? && Parked(Run(s, steps).value, data[DEPTH * CAP..])
  {
    StartsWriting(s, data);
    var first := [BeginCall(s.m), WriteCall(data, s.m.lastActivity)];
    var more := FillsUp(Run(s, first).value, data, 0, s.m.lastActivity);
    RunJoin(s, first, more);
    steps := first + more;
  }

  lemma {:induction false} RunJoin(s: System, first: seq<Step>, more: seq<Step>)
    requires Run(s, first).Some?
    ensures Run(s, first + more) == Run(Run(s, first).value, more)
    decreases |more|
  {
    if more == [] {
      assert first + more == first;
    } else {
      var init := more[..|more| - 1];
      RunJoin(s, first, init);
      assert (first + more)[..|first + more| - 1] == first + init;
    }
  }

  // ---------------------------------------------------------------- its upload is cleared, and the next one prepared

  /** An empty slot that is open to the next upload. */
  ghost predicate Vacant(s: System, used: set<Bytes>) {
    Inv(s) && !s.m.occupied && !s.m.discard && !s.m.finalizing && s.used == used
  }

  lemma ClearingVacates(s: System, unlinkOk: bool)
    requires Shaped(s.m) && s.m.job == NoJob
    ensures
      var r := Next(s.(m := ClearBegin(s.m)), ClearEndStep(unlinkOk));
      r.Some? && !r.value.m.occupied && !r.value.m.discard && !r.value.m.finalizing && r.value.used == s.used
  {
  }

  /** The slot emptied under a parked call. */
  lemma ClearedUnder(s: System, rest: Bytes, unlinkOk: bool)
    requires Parked(s, rest)
    ensures
      var r := Run(s, [ClearBeginStep, ClearEndStep(unlinkOk)]);
      r.Some? && Vacant(r.value, s.used)
  {
    StepKeeps(s, ClearBeginStep);
    ClearingVacates(s, unlinkOk);
    var t := s.(m := ClearBegin(s.m));
    assert Next(s, ClearBeginStep) == Some(t);
    StepKeeps(t, ClearEndStep(unlinkOk));
    TwoSteps(s, ClearBeginStep, ClearEndStep(unlinkOk));
  }

  lemma TwoSteps(s: System, first: Step, second: Step)
    requires Next(s, first).Some?
    ensures Run(s, [first, second]) == Next(Next(s, first).value, second)
  {
    RunSnoc(s, [], first);
    assert [] + [first] == [first];
    RunSnoc(s, [first], second);
    assert [first] + [second] == [first, second];
  }

  /** The next turn of the parked call, whatever upload is in the slot by then. This is no step of a run. */
  function Resumed(s: System, rest: Bytes, now: nat): Out
    requires Shaped(s.m) && (s.m.error == 0 ==> s.m.ring.queued < DEPTH)
  {
    WriteTurn(s.m, rest, now)
  }

  /** A turn that does not fill the buffer. */
  lemma PartIntoEmpty(m: Manager, rest: Bytes, now: nat)
    requires Shaped(m) && RingEmpty(m.ring) && m.error == 0 && |rest| < CAP
    ensures
      var out := WriteTurn(m, rest, now);
      out.result == Ok && out.m.ring == FillTail(m.ring, rest) && out.m.received == m.received + |rest| &&
      out.m.started == m.started && out.m.id == m.id
  {
    assert rest[..|rest|] == rest;
  }

  /** A turn that does. */
  lemma BufferIntoEmpty(m: Manager, rest: Bytes, now: nat)
    requires Shaped(m) && RingEmpty(m.ring) && m.error == 0 && !m.discard && |rest| >= CAP
    ensures
      var out := WriteTurn(m, rest, now);
      out.result == Ok && out.m.ring == Enqueue(FillTail(m.ring, rest[..CAP]), 0, false).ring &&
      out.m.received == m.received + CAP && out.m.started == m.started && out.m.id == m.id
  {
    assert TurnCount(m.ring, rest) == CAP;
  }

  /** What the turn puts into a ring that was empty. */
  lemma TurnIntoEmpty(m: Manager, rest: Bytes, now: nat)
    requires Shaped(m) && RingEmpty(m.ring) && m.error == 0 && !m.discard && m.received == 0 && rest != []
    ensures
      var n := if |rest| < CAP then |rest| else CAP;
      var out := WriteTurn(m, rest, now);
      out.result == Ok && out.m.started == m.started && out.m.id == m.id && out.m.received == n &&
      Contents(out.m.ring) == rest[..n]
  {
    EmptyContents(m.ring);
    if |rest| < CAP {
      PartIntoEmpty(m, rest, now);
      FillAppends(m.ring, rest);
      assert rest[..|rest|] == rest;
    } else {
      BufferIntoEmpty(m, rest, now);
      FillAppends(m.ring, rest[..CAP]);
      EnqueueKeeps(FillTail(m.ring, rest[..CAP]));
    }
  }

  /**
    The parked call goes on in the next upload. After the run that cleared its own upload and prepared another, the
    call's next turn succeeds and puts its bytes at the front of the new upload, before that one has even begun; and
    they are counted as received, whether or not the new upload is as large.
   */
  lemma OvertakenWriteLandsInNextUpload(s: System, rest: Bytes, unlinkOk: bool, r: Request, e: PrepareEnv, now: nat)
    requires Parked(s, rest)
    requires Run(s, [ClearBeginStep, ClearEndStep(unlinkOk)]).Some?
    requires
      var cleared := Run(s, [ClearBeginStep, ClearEndStep(unlinkOk)]).value;
      Shaped(cleared.m) && DoPrepare(cleared, r, e, now, unlinkOk).Some? && Prepare(cleared.m, r, e, now).result == Ok
    ensures
      var run := Run(s, [ClearBeginStep, ClearEndStep(unlinkOk), PrepareStep(r, e, now, unlinkOk)]);
      && run.Some? && Inv(run.value) && run.value.m.occupied && run.value.m.id != s.m.id && !run.value.m.started
      && RingEmpty(run.value.m.ring) && run.value.m.error == 0
      && var n := if |rest| < CAP then |rest| else CAP;
         var out := Resumed(run.value, rest, now);
         out.result == Ok && !out.m.started && out.m.id == run.value.m.id && out.m.received == n &&
         Contents(out.m.ring) == rest[..n]
  {
    ClearedUnder(s, rest, unlinkOk);
    var cleared := Run(s, [ClearBeginStep, ClearEndStep(unlinkOk)]).value;
    var prepare := PrepareStep(r, e, now, unlinkOk);
    PreparedNow(cleared, r, e, now, unlinkOk);
    StepKeeps(cleared, prepare);
    RunSnoc(s, [ClearBeginStep, ClearEndStep(unlinkOk)], prepare);
    assert [ClearBeginStep, ClearEndStep(unlinkOk)] + [prepare] == [ClearBeginStep, ClearEndStep(unlinkOk), prepare];
    NewIdAfterClear(s, cleared, r, e, now, unlinkOk);
    TurnIntoEmpty(Next(cleared, prepare).value.m, rest, now);
  }

  lemma NewIdAfterClear(s: System, cleared: System, r: Request, e: PrepareEnv, now: nat, unlinkOk: bool)
    requires Inv(s) && s.m.occupied && cleared.used == s.used && Shaped(cleared.m) && !cleared.m.occupied
    requires DoPrepare(cleared, r, e, now, unlinkOk).Some? && Prepare(cleared.m, r, e, now).result == Ok
    ensures DoPrepare(cleared, r, e, now, unlinkOk).value.m.id != s.m.id
  {
  }
}
