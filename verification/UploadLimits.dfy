/** The per-session limit on files, over whole runs. */
module UploadLimits {
  import opened Bytes
  import opened Upload
  import opened UploadRing
  import opened UploadStaging
  import opened UploadSystem
  import opened UploadInvariant
  import opened UploadRuns
  import opened UploadSteps
  import opened UploadFailures
  import Sha256

  /** The counter stays within the limit, and while an upload runs it is its session's, with one file left. */
  predicate CountOk(m: Manager) {
    && m.completedFiles <= m.limits.maxFiles
    && (m.occupied ==> m.completedAuthorization == m.authorization && m.completedFiles < m.limits.maxFiles)
  }

  /** What counts against session `a`. */
  function Tally(m: Manager, a: Bytes): nat { if m.completedAuthorization == a then m.completedFiles else 0 }

  /** The slot is empty or holds an upload of session `a`. */
  predicate Free(m: Manager, a: Bytes) { m.occupied ==> m.authorization == a }

  // ---------------------------------------------------------------- one step

  /** The step keeps the counter right, and moves it with the log. */
  predicate Counts(s: System, s': System, a: Bytes) {
    && CountOk(s'.m) && s'.m.limits == s.m.limits
    && (Free(s.m, a) ==> Free(s'.m, a) && |s'.log| + Tally(s.m, a) == |s.log| + Tally(s'.m, a))
  }

  lemma VacateCounts(s: System, unlinkOk: bool, a: Bytes)
    requires Shaped(s.m) && CountOk(s.m)
    ensures Counts(s, Vacate(s, unlinkOk), a)
  {
  }

  lemma ConcludeCounts(s: System, digest: Bytes, e: FinishEnv, a: Bytes)
    requires Shaped(s.m) && CountOk(s.m) && s.m.occupied && s.m.partName in s.dir
    ensures Counts(s, Conclude(s, digest, e), a)
  {
  }

  lemma DrainedCounts(s: System, e: FinishEnv, a: Bytes)
    requires Inv(s) && CountOk(s.m) && DoFinishDrained(s, e).Some?
    ensures Counts(s, DoFinishDrained(s, e).value, a)
  {
    if s.m.error != 0 {
      VacateCounts(s, e.unlinkOk, a);
    } else {
      ConcludeCounts(s, Sha256.Hex(Sha256.Finish(s.m.sha)), e, a);
    }
  }

  lemma HashDoneCounts(s: System, f: nat, readOk: bool, e: FinishEnv, a: Bytes)
    requires Shaped(s.m) && CountOk(s.m) && DoHashDone(s, f, readOk, e).Some?
    ensures Counts(s, DoHashDone(s, f, readOk, e).value, a)
  {
    if !Stale(s.m, s.finishers[f].id) {
      var s1 := s.(finishers := Without(s.finishers, f));
      if readOk {
        ConcludeCounts(s1, Sha256.Hex(Sha256.Finish(s.finishers[f].context)), e, a);
      } else {
        VacateCounts(s1, e.unlinkOk, a);
      }
    }
  }

  /** The counter as a prepare of this session finds it: at zero, if the last one was of another. */
  function Switched(m: Manager, a: Bytes): Manager {
    if m.completedAuthorization != a then m.(completedFiles := 0, completedAuthorization := a) else m
  }

  lemma PrepareNamesCounts(m: Manager, r: Request, e: PrepareEnv)
    requires !m.occupied
    ensures
      var m1, out := Switched(m, r.authorization), PrepareNames(m, r, e);
      && SameCount(m1, out.m) && !out.m.occupied && out.m.fdOpen == m.fdOpen
      && (out.result == Ok ==> m1.completedFiles < m1.limits.maxFiles)
  {
    var m1 := Switched(m, r.authorization);
    if m1.completedFiles < m1.limits.maxFiles && e.spaceOk && e.unique.Some? && e.joinOk && e.id.Some? {
      var m2 := m1.(finalName := e.unique.value, id := e.id.value);
      assert PrepareNames(m, r, e) ==
             if e.partFits then Out(Ok, m2.(partName := PartName(e.id.value))) else Out(IoError, m2);
    }
  }

  lemma PrepareOpenCounts(m: Manager, r: Request, e: PrepareEnv, now: nat)
    requires !m.occupied
    ensures
      var names, out := PrepareNames(m, r, e), PrepareOpen(m, r, e, now);
      && SameCount(names.m, out.m)
      && (out.m.occupied ==> names.result == Ok && out.m.authorization == r.authorization)
  {
    PrepareNamesCounts(m, r, e);
  }

  lemma ClearEndCounts(m: Manager)
    requires RingShape(m.ring)
    ensures SameCount(m, ClearEnd(m)) && !ClearEnd(m).occupied
  {
  }

  lemma PrepareManagerCounts(m: Manager, r: Request, e: PrepareEnv, now: nat)
    requires Shaped(m) && !m.occupied && r.size <= m.limits.maxFileBytes
    ensures
      var m1, m' := Switched(m, r.authorization), Prepare(m, r, e, now).m;
      && SameCount(m1, m')
      && (m'.occupied ==> m'.authorization == r.authorization && m1.completedFiles < m1.limits.maxFiles)
  {
    PrepareNamesCounts(m, r, e);
    PrepareOpenCounts(m, r, e, now);
    ClearEndCounts(PrepareOpen(m, r, e, now).m);
  }

  /** The names could be made, and the part file opened and reserved. */
  predicate CallsSucceed(r: Request, e: PrepareEnv) {
    && e.spaceOk && e.unique.Some? && e.joinOk && e.id.Some? && e.partFits && e.openError == 0 && e.reserveError == 0
    && (r.size > 0 ==> e.arraysOk)
  }

  /** The file is not too large, its session has files left, and every call succeeds. */
  predicate Acceptable(m: Manager, r: Request, e: PrepareEnv) {
    r.size <= m.limits.maxFileBytes && Tally(m, r.authorization) < m.limits.maxFiles && CallsSucceed(r, e)
  }

  lemma NamesAnswer(m: Manager, r: Request, e: PrepareEnv)
    requires !m.occupied
    ensures
      PrepareNames(m, r, e).result ==
      if Tally(m, r.authorization) >= m.limits.maxFiles then LimitReached
      else if !e.spaceOk then StorageFull
      else if e.unique.None? || !e.joinOk || e.id.None? || !e.partFits then IoError
      else Ok
  {
  }

  /**
    upload_prepare for an empty slot is accepted exactly for a file that is not too large, in a session that has not
    used up its files, if every call it makes succeeds. A lack of space, found beforehand or by a call, is reported as
    such.
   */
  lemma PrepareExactly(m: Manager, r: Request, e: PrepareEnv, now: nat)
    requires Shaped(m) && !m.occupied
    ensures
      var result := Prepare(m, r, e, now).result;
      && (result == TooLarge <==> r.size > m.limits.maxFileBytes)
      && (result == LimitReached <==>
            r.size <= m.limits.maxFileBytes && Tally(m, r.authorization) >= m.limits.maxFiles)
      && (result == Ok <==> Acceptable(m, r, e))
      && result in {Ok, TooLarge, LimitReached, StorageFull, IoError}
  {
    NamesAnswer(m, r, e);
  }

  /** When the limits allow the file, the first call that fails decides between a full disk and an I/O error. */
  lemma PrepareReportsFull(m: Manager, r: Request, e: PrepareEnv, now: nat)
    requires Shaped(m) && !m.occupied && r.size <= m.limits.maxFileBytes
    requires Tally(m, r.authorization) < m.limits.maxFiles
    ensures
      Prepare(m, r, e, now).result == StorageFull <==>
        || !e.spaceOk
        || (e.unique.Some? && e.joinOk && e.id.Some? && e.partFits &&
            (e.openError == 28 || (e.openError == 0 && e.reserveError == 28)))
  {
    NamesAnswer(m, r, e);
  }

  /** What a prepare does to the slot and the log. */
  lemma PrepareMoves(s: System, r: Request, e: PrepareEnv, now: nat, unlinkOk: bool)
    requires Inv(s) && DoPrepare(s, r, e, now, unlinkOk).Some?
    ensures
      var s' := DoPrepare(s, r, e, now, unlinkOk).value;
      && s'.log == s.log
      && s'.m == if r.size > s.m.limits.maxFileBytes then s.m
                 else if s.m.occupied then ClearEnd(s.m)
                 else Prepare(s.m, r, e, now).m
  {
    if s.m.occupied && r.size <= s.m.limits.maxFileBytes {
      RefusedPrepareClears(s.m, r, e, now);
    }
  }

  lemma PrepareCounts(s: System, r: Request, e: PrepareEnv, now: nat, unlinkOk: bool, a: Bytes)
    requires Inv(s) && CountOk(s.m) && DoPrepare(s, r, e, now, unlinkOk).Some?
    ensures
      var s' := DoPrepare(s, r, e, now, unlinkOk).value;
      CountOk(s'.m) && s'.m.limits == s.m.limits && (r.authorization == a ==> Counts(s, s', a))
  {
    PrepareMoves(s, r, e, now, unlinkOk);
    ClearEndCounts(s.m);
    if !s.m.occupied && r.size <= s.m.limits.maxFileBytes {
      PrepareManagerCounts(s.m, r, e, now);
    }
  }

  lemma EmptyingCounts(s: System, step: Step, a: Bytes)
    requires Inv(s) && CountOk(s.m) && Next(s, step).Some? && Empties(step) && !step.PrepareStep?
    ensures Counts(s, Next(s, step).value, a)
  {
    match step
    case FinishDrained(e) => DrainedCounts(s, e, a);
    case HashDone(f, readOk, e) => HashDoneCounts(s, f, readOk, e, a);
    case ClearEndStep(unlinkOk) => VacateCounts(s, unlinkOk, a);
  }

  lemma StepCounts(s: System, step: Step, a: Bytes)
    requires Inv(s) && CountOk(s.m) && Next(s, step).Some?
    ensures CountOk(Next(s, step).value.m) && Next(s, step).value.m.limits == s.m.limits
    ensures !(step.PrepareStep? && step.r.authorization != a) ==> Counts(s, Next(s, step).value, a)
  {
    if step.PrepareStep? {
      PrepareCounts(s, step.r, step.pe, step.now, step.unlinkOk, a);
      assert Next(s, step) == DoPrepare(s, step.r, step.pe, step.now, step.unlinkOk);
    } else if Empties(step) {
      EmptyingCounts(s, step, a);
    } else {
      StepGoesOn(s, step);
      StepKeepsStanding(s, step);
    }
  }

  // ---------------------------------------------------------------- runs

  lemma {:induction false} RunCounts(s0: System, steps: seq<Step>)
    requires Initial(s0) && Run(s0, steps).Some?
    ensures CountOk(Run(s0, steps).value.m) && Run(s0, steps).value.m.limits == s0.m.limits
  {
    if steps != [] {
      var before, step := steps[..|steps| - 1], steps[|steps| - 1];
      RunCounts(s0, before);
      RunKeeps(s0, before);
      StepCounts(Run(s0, before).value, step, []);
    }
  }

  /** No other session asks to prepare an upload. */
  predicate Alone(steps: seq<Step>, a: Bytes) {
    forall k :: 0 <= k < |steps| && steps[k].PrepareStep? ==> steps[k].r.authorization == a
  }

  lemma {:induction false} WindowCounts(s: System, steps: seq<Step>, a: Bytes)
    requires Inv(s) && CountOk(s.m) && Free(s.m, a) && Run(s, steps).Some? && Alone(steps, a)
    ensures
      var s' := Run(s, steps).value;
      && Inv(s') && CountOk(s'.m) && Free(s'.m, a) && s'.m.limits == s.m.limits
      && |s'.log| + Tally(s.m, a) == |s.log| + Tally(s'.m, a)
  {
    if steps != [] {
      var before, step := steps[..|steps| - 1], steps[|steps| - 1];
      assert forall k :: 0 <= k < |before| ==> before[k] == steps[k];
      WindowCounts(s, before, a);
      var mid := Run(s, before).value;
      StepKeeps(mid, step);
      StepCounts(mid, step, a);
    }
  }

  /**
    Over every run: from any moment at which the slot is empty or holds an upload of session `a`, as long as no other
    session asks to prepare one, no more than `maxFiles` files are published, however often uploads are refused,
    cancelled or fail in between.
   */
  lemma SessionLimit(s0: System, before: seq<Step>, steps: seq<Step>, a: Bytes)
    requires Initial(s0) && Run(s0, before).Some? && Run(Run(s0, before).value, steps).Some?
    requires Free(Run(s0, before).value.m, a) && Alone(steps, a)
    ensures |Run(Run(s0, before).value, steps).value.log| <= |Run(s0, before).value.log| + s0.m.limits.maxFiles
  {
    RunCounts(s0, before);
    RunKeeps(s0, before);
    WindowCounts(Run(s0, before).value, steps, a);
  }

  // ---------------------------------------------------------------- an idle upload gives way

  /** The id that was drawn is new, and the name is not that of a part file. */
  predicate FreshNames(s: System, e: PrepareEnv) {
    && (e.id.Some? ==> e.id.value !in s.used && HexId(e.id.value))
    && (e.unique.Some? ==> !IsPartName(e.unique.value))
  }

  lemma ClearedSlot(s: System, unlinkOk: bool)
    requires Inv(s) && s.m.occupied && !s.m.started
    ensures
      var t := s.(m := ClearBegin(s.m));
      var r := Next(t, ClearEndStep(unlinkOk));
      && Next(s, ClearBeginStep) == Some(t) && r.Some? && Inv(r.value) && !r.value.m.occupied
      && r.value.used == s.used && SameCount(s.m, r.value.m) && r.value.m.job == NoJob
  {
    StepKeeps(s, ClearBeginStep);
    StepKeeps(s.(m := ClearBegin(s.m)), ClearEndStep(unlinkOk));
    ClearEndCounts(ClearBegin(s.m));
  }

  lemma PrepareForEmptySlot(s: System, r: Request, e: PrepareEnv, now: nat, unlinkOk: bool)
    requires Inv(s) && !s.m.occupied && s.m.job == NoJob && FreshNames(s, e)
    ensures
      var t := Next(s, PrepareStep(r, e, now, unlinkOk));
      t.Some? && t.value.m == Prepare(s.m, r, e, now).m
  {
    assert Next(s, PrepareStep(r, e, now, unlinkOk)) == DoPrepare(s, r, e, now, unlinkOk);
    PrepareMoves(s, r, e, now, unlinkOk);
  }

  lemma OccupiedWhenAccepted(m: Manager, r: Request, e: PrepareEnv, now: nat)
    requires Shaped(m) && !m.occupied
    ensures
      var out := Prepare(m, r, e, now);
      (out.m.occupied <==> out.result == Ok) && (out.m.occupied ==> out.m.authorization == r.authorization)
  {
    if r.size <= m.limits.maxFileBytes {
      PrepareNamesCounts(m, r, e);
      PrepareOpenCounts(m, r, e, now);
      ClearEndCounts(PrepareOpen(m, r, e, now).m);
    }
  }

  lemma AnsweredAsForEmpty(s: System, r: Request, e: PrepareEnv, now: nat, unlinkOk: bool)
    requires Inv(s) && s.m.occupied && !s.m.started && FreshNames(s, e)
    ensures
      var run := Run(s, [ClearBeginStep, ClearEndStep(unlinkOk), PrepareStep(r, e, now, unlinkOk)]);
      && run.Some? && (run.value.m.occupied <==> Acceptable(s.m, r, e))
      && (run.value.m.occupied ==> run.value.m.authorization == r.authorization)
  {
    var prepare := PrepareStep(r, e, now, unlinkOk);
    ClearedSlot(s, unlinkOk);
    var t := s.(m := ClearBegin(s.m));
    var u := Next(t, ClearEndStep(unlinkOk)).value;
    PrepareForEmptySlot(u, r, e, now, unlinkOk);
    ThreeSteps(s, ClearBeginStep, ClearEndStep(unlinkOk), prepare);
    PrepareExactly(u.m, r, e, now);
    OccupiedWhenAccepted(u.m, r, e, now);
  }

  /**
    An upload that never began gives way to a prepare of another session, and only to one: such a prepare cannot be
    taken before the slot was cleared, and is then answered as for an empty slot.
   */
  lemma IdleGivesWay(s: System, r: Request, e: PrepareEnv, now: nat, unlinkOk: bool)
    requires Inv(s) && s.m.occupied && FreshNames(s, e) && s.m.job == NoJob && !LeaseExpired(s.m, now)
    ensures Next(s, PrepareStep(r, e, now, unlinkOk)).None? <==> !s.m.started && s.m.authorization != r.authorization
    ensures !s.m.started ==>
              var run := Run(s, [ClearBeginStep, ClearEndStep(unlinkOk), PrepareStep(r, e, now, unlinkOk)]);
              && run.Some? && (run.value.m.occupied <==> Acceptable(s.m, r, e))
              && (run.value.m.occupied ==> run.value.m.authorization == r.authorization)
  {
    if !s.m.started { AnsweredAsForEmpty(s, r, e, now, unlinkOk); }
  }
}
