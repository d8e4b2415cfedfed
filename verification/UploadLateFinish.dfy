/**
  A finish whose upload was cleared under its hash pass comes back late. The direct version then clears whatever
  upload is in the slot; the chunk version takes away that upload's mark of being finished, so that its own finish,
  though it read every byte, is lost. Here are the runs, and the exact condition under which a pass publishes.
 */
module UploadLateFinish {
  import opened Bytes
  import opened Upload
  import opened UploadRing
  import opened UploadStaging
  import opened UploadSystem
  import opened UploadInvariant
  import opened UploadStreams
  import opened UploadChunks
  import opened UploadRuns
  import opened UploadSteps
  import opened UploadCompletion
  import opened UploadOvertaken
  import opened UploadFailures
  import opened UploadStreamCompletion
  import Sha256

  // ---------------------------------------------------------------- when a pass publishes

  /** A pass that read the whole part file of the running upload, with the writer idle. */
  ghost predicate ReadAll(s: System, f: nat) {
    && Inv(s) && s.m.occupied && s.m.job == NoJob
    && f < |s.finishers| && s.finishers[f].Hashing? && s.finishers[f].id == s.m.id
    && s.finishers[f].position == |File(s)|
  }

  lemma ReadAllDigest(s: System, f: nat)
    requires ReadAll(s, f)
    ensures s.m.partName in s.dir
    ensures Sha256.Hex(Sha256.Finish(s.finishers[f].context)) == Sha256.Hex(Sha256.Digest(File(s)))
  {
    HashPassDigest(s, f);
    Sha256.IsHexDigestMeans(Sha256.Hex(Sha256.Finish(s.finishers[f].context)), File(s));
  }

  lemma StaleEnds(s: System, f: nat, e: FinishEnv)
    requires Shaped(s.m) && f < |s.finishers| && s.finishers[f].Hashing? && Stale(s.m, s.finishers[f].id)
    ensures DoHashDone(s, f, true, e) ==
            Some(s.(finishers := Without(s.finishers, f),
                    m := StaleOutcome(s.m, s.finishers[f].id, s.finishers[f].chunked)))
  {
  }

  lemma ConcludesExactly(s: System, digest: Bytes, e: FinishEnv)
    requires Shaped(s.m) && s.m.partName in s.dir
    ensures |Conclude(s, digest, e).log| > |s.log| <==>
              (s.m.expectedHash == [] || s.m.expectedHash == digest) && AllWell(e) && s.m.finalName !in s.dir
  {
  }

  /**
    The end of a pass that read the whole file publishes it exactly when the upload is still marked as being finished,
    the hash agrees, the name is free and every system call succeeds.
   */
  lemma PassPublishesExactly(s: System, f: nat, e: FinishEnv)
    requires ReadAll(s, f)
    ensures
      var r := Next(s, HashDone(f, true, e));
      && r.Some?
      && (|r.value.log| > |s.log| <==>
            && s.m.finalizing && HashAgrees(s.m.expectedHash, File(s)) && AllWell(e) && s.m.finalName !in s.dir)
  {
    HashDoneStep(s, f, true, e);
    ReadAllDigest(s, f);
    if s.m.finalizing {
      PassConcludes(s, f, e);
      ConcludesExactly(s.(finishers := Without(s.finishers, f)), Sha256.Hex(Sha256.Finish(s.finishers[f].context)), e);
    } else {
      StaleEnds(s, f, e);
    }
  }

  // ---------------------------------------------------------------- what a late finish does

  /** A finish of an upload that is gone, while another one is in the slot. */
  predicate Late(s: System, f: nat, chunked: bool) {
    && s.m.occupied && f < |s.finishers| && s.finishers[f].Hashing? && s.finishers[f].chunked == chunked
    && s.finishers[f].id != s.m.id
  }

  /** The direct version clears the upload in the slot, whatever it is doing. */
  lemma LateDirectFinishClears(s: System, f: nat, e: FinishEnv) returns (steps: seq<Step>)
    requires Inv(s) && Late(s, f, false)
    ensures Run(s, steps).Some? && steps != [] && steps[0] == HashDone(f, true, e)
    ensures !Run(s, steps).value.m.occupied && Run(s, steps).value.log == s.log
  {
    HashDoneStep(s, f, true, e);
    StaleEnds(s, f, e);
    StepKeeps(s, HashDone(f, true, e));
    var more := ClearingEnds(Next(s, HashDone(f, true, e)).value, e.unlinkOk);
    RunCons(s, HashDone(f, true, e), more);
    steps := [HashDone(f, true, e)] + more;
  }

  /**
    upload_finish of a connection whose upload was cleared before the call; the rules of the runs leave it out. The
    source answers that there is no such upload, and clears the slot.
   */
  function OvertakenFinish(m: Manager, id: Bytes): Manager {
    if FinishCheck(m, id) != Ok then ClearBegin(m) else m
  }

  /** So that call, too, ends whatever other upload is in the slot. */
  lemma OvertakenFinishClears(s: System, id: Bytes, unlinkOk: bool) returns (steps: seq<Step>)
    requires Inv(s) && s.m.occupied && id != s.m.id
    ensures FinishCheck(s.m, id) == NotFound
    ensures
      var t := s.(m := OvertakenFinish(s.m, id));
      Inv(t) && Run(t, steps).Some? && !Run(t, steps).value.m.occupied && Run(t, steps).value.log == s.log
  {
    ClearBeginKeeps(s);
    steps := ClearingEnds(s.(m := ClearBegin(s.m)), unlinkOk);
  }

  /** The chunk version takes away the mark. */
  lemma LateChunkFinishUnmarks(s: System, f: nat, e: FinishEnv)
    requires Inv(s) && Late(s, f, true)
    ensures
      var r := Next(s, HashDone(f, true, e));
      && r.Some? && Inv(r.value)
      && r.value == s.(finishers := Without(s.finishers, f), m := s.m.(finalizing := false))
  {
    HashDoneStep(s, f, true, e);
    StaleEnds(s, f, e);
    StepKeeps(s, HashDone(f, true, e));
  }

  /** Without the mark, the end of the pass over the upload in the slot clears it. */
  lemma UnmarkedIsLost(s: System, f: nat, e: FinishEnv) returns (steps: seq<Step>)
    requires Inv(s) && s.m.occupied && !s.m.finalizing
    requires f < |s.finishers| && s.finishers[f].Hashing? && s.finishers[f].id == s.m.id
    ensures Run(s, steps).Some? && steps != [] && steps[0] == HashDone(f, true, e)
    ensures !Run(s, steps).value.m.occupied && Run(s, steps).value.log == s.log
  {
    HashDoneStep(s, f, true, e);
    StaleEnds(s, f, e);
    StepKeeps(s, HashDone(f, true, e));
    var more := ClearingEnds(Next(s, HashDone(f, true, e)).value, e.unlinkOk);
    RunCons(s, HashDone(f, true, e), more);
    steps := [HashDone(f, true, e)] + more;
  }

  lemma WithoutShifts(fs: seq<Finisher>, f: nat, g: nat)
    requires f < g < |fs|
    ensures |Without(fs, f)| == |fs| - 1 && Without(fs, f)[g - 1] == fs[g]
  {
  }

  lemma UnmarkedPass(s: System, t: System, f: nat, g: nat)
    requires Passing(s, g) && f < g
    requires t == s.(finishers := Without(s.finishers, f), m := s.m.(finalizing := false))
    ensures t.m.occupied && !t.m.finalizing && t.log == s.log
    ensures g - 1 < |t.finishers| && t.finishers[g - 1].Hashing? && t.finishers[g - 1].id == t.m.id
  {
    WithoutShifts(s.finishers, f, g);
  }

  /** So the late finish of one upload loses another that read every byte. */
  lemma LateChunkFinishLosesUpload(s: System, f: nat, g: nat, e: FinishEnv) returns (steps: seq<Step>)
    requires Inv(s) && Late(s, f, true) && Passing(s, g) && f < g
    ensures Run(s, steps).Some? && |steps| >= 2 && steps[0] == HashDone(f, true, e)
    ensures steps[1] == HashDone(g - 1, true, e)
    ensures !Run(s, steps).value.m.occupied && Run(s, steps).value.log == s.log
  {
    LateChunkFinishUnmarks(s, f, e);
    var t := Next(s, HashDone(f, true, e)).value;
    UnmarkedPass(s, t, f, g);
    var more := UnmarkedIsLost(t, g - 1, e);
    RunCons(s, HashDone(f, true, e), more);
    steps := [HashDone(f, true, e)] + more;
  }

  // ---------------------------------------------------------------- a run that comes to it

  /** A run leads from `s` to `t`. */
  ghost predicate Comes(s: System, t: System) { exists steps :: Run(s, steps) == Some(t) }

  lemma ComesOn(s: System, t: System, u: System)
    requires Comes(s, t) && Comes(t, u)
    ensures Comes(s, u)
  {
    var first :| Run(s, first) == Some(t);
    var more :| Run(t, more) == Some(u);
    RunJoin(s, first, more);
  }

  lemma ComesNext(s: System, step: Step)
    requires Next(s, step).Some?
    ensures Comes(s, Next(s, step).value)
  {
    RunSnoc(s, [], step);
    assert [] + [step] == [step];
    assert Run(s, [step]) == Next(s, step);
  }

  /** The pass over the whole part file of an upload of chunks has just begun. */
  ghost predicate PassBegins(s: System, f: nat, content: Bytes) {
    && Passing(s, f) && s.finishers[f].chunked && s.finishers[f].position == 0 && s.m.started
    && File(s) == content
  }

  lemma BeginsPass(s: System) returns (t: System)
    requires Able(s) && AllOnDisk(s)
    ensures Comes(s, t) && PassBegins(t, |s.finishers|, File(s)) && t == s.(m := t.m, finishers := t.finishers)
    ensures t.m == s.m.(finalizing := true)
    ensures |t.finishers| == |s.finishers| + 1 && t.finishers[..|s.finishers|] == s.finishers
  {
    var f := |s.finishers|;
    var call := CompleteCall(s.m.id, s.m.client, s.m.authorization, s.m.lastActivity);
    AsksForCompletion(s);
    ComesNext(s, call);
    var u := Next(s, call).value;
    TransportIsChunked(u);
    StartsHashing(u, f);
    ComesNext(u, CompleteReady(f));
    t := Next(u, CompleteReady(f)).value;
    ComesOn(s, u, t);
    CompletingPasses(t, f);
  }

  /** From every prepared upload of a file that is not empty. */
  lemma ComesToPass(s: System, want: seq<Bytes>) returns (t: System)
    requires ReadyToStart(s) && s.m.expected > 0 && Sized(want, s.m.expected)
    ensures Comes(s, t) && PassBegins(t, |s.finishers|, Concat(want)) && SameNames(s, t)
    ensures |t.finishers| == |s.finishers| + 1 && t.finishers[..|s.finishers|] == s.finishers
  {
    StartsChunked(s, want);
    var begin := FirstBegin(s.m, |want[0]|);
    FirstBeginAccepted(s, want);
    ComesNext(s, begin);
    var u := Next(s, begin).value;
    var steps := ReachWritten(u, want);
    AfterIsRun(u, steps);
    var v := After(u, steps);
    ComesOn(s, u, v);
    WholeIsWanted(v, want);
    t := BeginsPass(v);
    ComesOn(s, v, t);
  }

  lemma BusyPrepareVacates(s: System, r: Request, e: PrepareEnv, now: nat, unlinkOk: bool)
    requires Inv(s) && s.m.occupied && s.m.started && s.m.job == NoJob && r.size <= s.m.limits.maxFileBytes
    requires e.id.None? && (e.unique.Some? ==> !IsPartName(e.unique.value))
    ensures DoPrepare(s, r, e, now, unlinkOk) == Some(Vacate(s, unlinkOk))
  {
    RefusedPrepareClears(s.m, r, e, now);
  }

  lemma VacateLeaves(s: System, unlinkOk: bool)
    requires Shaped(s.m)
    ensures
      var t := Vacate(s, unlinkOk);
      && t.finishers == s.finishers && t.used == s.used && t.log == s.log && t.m.limits == s.m.limits
      && !t.m.occupied && !t.m.discard && !t.m.finalizing
  {
  }

  /** The slot is cleared under the pass by a prepare that is refused as busy. */
  lemma BusyPrepareClears(s: System, f: nat, r: Request, e: PrepareEnv, now: nat, unlinkOk: bool)
    requires Passing(s, f) && s.m.started && r.size <= s.m.limits.maxFileBytes
    requires e.id.None? && (e.unique.Some? ==> !IsPartName(e.unique.value))
    ensures
      var t := Next(s, PrepareStep(r, e, now, unlinkOk));
      && t.Some? && Inv(t.value) && t.value.finishers == s.finishers && t.value.used == s.used
      && !t.value.m.occupied && !t.value.m.discard && !t.value.m.finalizing && t.value.m.limits == s.m.limits
      && t.value.log == s.log
  {
    BusyPrepareVacates(s, r, e, now, unlinkOk);
    VacateLeaves(s, unlinkOk);
    VacateKeeps(s, unlinkOk);
    assert Next(s, PrepareStep(r, e, now, unlinkOk)) == DoPrepare(s, r, e, now, unlinkOk);
  }

  lemma PreparesNext(s: System, r: Request, e: PrepareEnv, now: nat, unlinkOk: bool)
    requires Inv(s) && !s.m.occupied && !s.m.discard && !s.m.finalizing && s.m.limits.lease > 0
    requires DoPrepare(s, r, e, now, unlinkOk).Some? && Prepare(s.m, r, e, now).result == Ok
    ensures
      var t := Next(s, PrepareStep(r, e, now, unlinkOk));
      && t.Some? && ReadyToStart(t.value) && t.value.finishers == s.finishers && t.value.m.expected == r.size
      && t.value.m.expectedHash == r.hash && t.value.m.id !in s.used && t.value.log == s.log
      && e.unique.Some? && t.value.m.finalName == e.unique.value
      && (e.unique.value !in s.dir ==> e.unique.value !in t.value.dir)
  {
    var prepare := PrepareStep(r, e, now, unlinkOk);
    PreparedNow(s, r, e, now, unlinkOk);
    assert Next(s, prepare) == DoPrepare(s, r, e, now, unlinkOk);
    StepKeeps(s, prepare);
    PartOfLive(Next(s, prepare).value);
    NewIdAndFinishers(s, r, e, now, unlinkOk);
  }

  lemma NewIdAndFinishers(s: System, r: Request, e: PrepareEnv, now: nat, unlinkOk: bool)
    requires Shaped(s.m) && !s.m.occupied
    requires DoPrepare(s, r, e, now, unlinkOk).Some? && Prepare(s.m, r, e, now).result == Ok
    ensures DoPrepare(s, r, e, now, unlinkOk).value.m.id !in s.used
    ensures DoPrepare(s, r, e, now, unlinkOk).value.finishers == s.finishers
  {
  }

  /** Two passes: that of an upload that is gone, and that of the one in the slot, whose file is `content`. */
  ghost predicate TwoPasses(s: System, f: nat, content: Bytes) {
    PassBegins(s, f + 1, content) && Late(s, f, true)
  }

  /**
    A run comes to two passes at once: an upload of chunks is prepared, sent and finished; under its pass a second
    prepare is refused as busy, which clears the slot; and the next upload is prepared, sent whole and finished.
   */
  lemma ComesToTwoPasses(s: System, want: seq<Bytes>, busy: Request, be: PrepareEnv, now: nat, unlinkOk: bool)
    returns (cleared: System)
    requires ReadyToStart(s) && s.m.expected > 0 && Sized(want, s.m.expected)
    requires busy.size <= s.m.limits.maxFileBytes && be.id.None? && (be.unique.Some? ==> !IsPartName(be.unique.value))
    ensures Comes(s, cleared) && Inv(cleared) && !cleared.m.occupied && !cleared.m.discard && !cleared.m.finalizing
    ensures cleared.m.limits == s.m.limits && cleared.log == s.log
    ensures |cleared.finishers| == |s.finishers| + 1
    ensures cleared.finishers[|s.finishers|].Hashing? && cleared.finishers[|s.finishers|].chunked
    ensures cleared.finishers[|s.finishers|].id in cleared.used
  {
    var t := ComesToPass(s, want);
    BusyPrepareClears(t, |s.finishers|, busy, be, now, unlinkOk);
    var prepare := PrepareStep(busy, be, now, unlinkOk);
    ComesNext(t, prepare);
    cleared := Next(t, prepare).value;
    ComesOn(s, t, cleared);
  }

  /**
    From there every accepted prepare can be followed by a run to two passes, the second over the whole content of the
    new upload. That pass alone would publish it; but if the late finish of the first upload ends before it, the new
    upload is lost.
   */
  lemma LateFinishDecides(s: System, f: nat, r: Request, e: PrepareEnv, now: nat, unlinkOk: bool, want: seq<Bytes>,
                          fe: FinishEnv) returns (t: System, lost: seq<Step>)
    requires Inv(s) && !s.m.occupied && !s.m.discard && !s.m.finalizing && s.m.limits.lease > 0 && AllWell(fe)
    requires |s.finishers| == f + 1 && s.finishers[f].Hashing? && s.finishers[f].chunked && s.finishers[f].id in s.used
    requires DoPrepare(s, r, e, now, unlinkOk).Some? && Prepare(s.m, r, e, now).result == Ok
    requires r.size > 0 && Sized(want, r.size) && HashAgrees(r.hash, Concat(want))
    requires e.unique.Some? ==> e.unique.value !in s.dir
    ensures Comes(s, t) && TwoPasses(t, f, Concat(want))
    ensures
      var read := Next(t, HashRead(f + 1, |Concat(want)|));
      && read.Some?
      && var done := Next(read.value, HashDone(f + 1, true, fe));
         done.Some? && |done.value.log| == |t.log| + 1 && done.value.log[|t.log|].content == Concat(want)
    ensures Run(t, lost).Some? && |lost| >= 2 && lost[0] == HashDone(f, true, fe) && lost[1] == HashDone(f, true, fe)
    ensures !Run(t, lost).value.m.occupied && Run(t, lost).value.log == t.log
  {
    var prepare := PrepareStep(r, e, now, unlinkOk);
    PreparesNext(s, r, e, now, unlinkOk);
    ComesNext(s, prepare);
    var u := Next(s, prepare).value;
    t := ComesToPass(u, want);
    ComesOn(s, u, t);
    assert t.finishers[f] == t.finishers[..f + 1][f] == s.finishers[f];
    TwoMoreSteps(t, f + 1, fe);
    lost := LateChunkFinishLosesUpload(t, f, f + 1, fe);
  }

  // ---------------------------------------------------------------- the same for the direct stream

  lemma DirectFinishBegins(s: System)
    requires Directing(s) && s.stream == Open && s.m.received == s.m.expected
    ensures
      var r := Next(s, FinishCall(s.m.lastActivity));
      && r.Some? && Passing(r.value, |s.finishers|) && r.value.m.started && !r.value.finishers[|s.finishers|].chunked
      && r.value.m.limits == s.m.limits
  {
    DirectFinishPasses(s, s.m.lastActivity);
    FinishCallExactly(s, s.m.lastActivity);
  }

  /** From every prepared upload a run of direct writes comes to the pass of its finish. */
  lemma ComesToDirectPass(s: System, pieces: seq<Bytes>) returns (t: System, f: nat)
    requires ReadyToStart(s) && |Concat(pieces)| == s.m.expected && [] !in pieces
    ensures Comes(s, t) && Passing(t, f) && t.m.started && !t.finishers[f].chunked && t.m.limits == s.m.limits
  {
    var u := StartsStream(s, true);
    assert Comes(s, u);
    var v := SendsAllDirect(u, pieces);
    assert Comes(u, v);
    ComesOn(s, u, v);
    DirectFinishBegins(v);
    t, f := Next(v, FinishCall(v.m.lastActivity)).value, |v.finishers|;
    ComesNext(v, FinishCall(v.m.lastActivity));
    ComesOn(s, v, t);
  }

  /** A run of direct writes, its finish, and under that pass a prepare refused as busy, which clears the slot. */
  lemma LateDirectFinish(s: System, pieces: seq<Bytes>, busy: Request, be: PrepareEnv, now: nat, unlinkOk: bool)
    returns (cleared: System, f: nat)
    requires ReadyToStart(s) && |Concat(pieces)| == s.m.expected && [] !in pieces
    requires busy.size <= s.m.limits.maxFileBytes && be.id.None? && (be.unique.Some? ==> !IsPartName(be.unique.value))
    ensures Comes(s, cleared) && Inv(cleared) && !cleared.m.occupied && !cleared.m.discard && !cleared.m.finalizing
    ensures cleared.m.limits == s.m.limits
    ensures f < |cleared.finishers| && cleared.finishers[f].Hashing? && !cleared.finishers[f].chunked
  {
    var t;
    t, f := ComesToDirectPass(s, pieces);
    BusyPrepareClears(t, f, busy, be, now, unlinkOk);
    var prepare := PrepareStep(busy, be, now, unlinkOk);
    ComesNext(t, prepare);
    cleared := Next(t, prepare).value;
    ComesOn(s, t, cleared);
  }

  /** From there every accepted prepare leads to an upload that the late finish clears. */
  lemma NextUploadIsCleared(s: System, f: nat, r: Request, e: PrepareEnv, now: nat, unlinkOk: bool, fe: FinishEnv)
    returns (t: System, steps: seq<Step>)
    requires Inv(s) && !s.m.occupied && !s.m.discard && !s.m.finalizing && s.m.limits.lease > 0
    requires f < |s.finishers| && s.finishers[f].Hashing? && !s.finishers[f].chunked
    requires DoPrepare(s, r, e, now, unlinkOk).Some? && Prepare(s.m, r, e, now).result == Ok
    ensures Comes(s, t) && ReadyToStart(t) && t.m.expected == r.size && Late(t, f, false)
    ensures Run(t, steps).Some? && steps != [] && steps[0] == HashDone(f, true, fe)
    ensures !Run(t, steps).value.m.occupied && Run(t, steps).value.log == t.log
  {
    var prepare := PrepareStep(r, e, now, unlinkOk);
    PreparesNext(s, r, e, now, unlinkOk);
    ComesNext(s, prepare);
    t := Next(s, prepare).value;
    steps := LateDirectFinishClears(t, f, fe);
  }
}
