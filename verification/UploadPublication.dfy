/** What the upload system does to the destination directory, step by step and over whole runs. */
module UploadPublication {
  import opened Bytes
  import opened Upload
  import opened UploadRing
  import opened UploadStaging
  import opened UploadSystem
  import opened UploadInvariant
  import opened UploadStreams
  import opened UploadChunks
  import opened UploadRuns
  import opened UploadSteps
  import Sha256

  /** Every file that is not a part file is still there, unchanged. */
  predicate KeepsFiles(dir: Directory, dir': Directory) {
    forall n :: n in dir && !IsPartName(n) ==> n in dir' && dir'[n] == dir[n]
  }

  /** Only part files came into being. */
  predicate AddsNoFile(dir: Directory, dir': Directory) {
    forall n :: n in dir' && !IsPartName(n) ==> n in dir
  }

  /** The upload in the slot of `s` was published in `s'`: its whole payload, under its final name, and nothing else. */
  ghost predicate PublishedOne(s: System, s': System) {
    && |s'.log| == |s.log| + 1 && s'.log[..|s.log|] == s.log
    && var entry := s'.log[|s.log|];
       && entry.name == s.m.finalName && entry.name !in s.dir
       && entry.name in s'.dir && s'.dir[entry.name] == entry.content
       && entry.content == Payload(s) && entry.expected == s.m.expected && entry.declared == s.m.expectedHash
       && EntryOk(entry)
       && s.m.occupied && s.m.error == 0 && !s'.m.occupied
       && forall n :: n in s'.dir && !IsPartName(n) && n != entry.name ==> n in s.dir
  }

  ghost predicate Effect(s: System, s': System) {
    KeepsFiles(s.dir, s'.dir) && ((s'.log == s.log && AddsNoFile(s.dir, s'.dir)) || PublishedOne(s, s'))
  }

  lemma VacateEffect(s: System, unlinkOk: bool)
    requires Inv(s)
    ensures Effect(s, Vacate(s, unlinkOk))
  {
    if s.m.occupied {
      PartNameParses(s.m.id);
    }
  }

  lemma PublishPartEffect(s: System, mode: PublishMode)
    requires Named(s) && PublishPart(s.dir, s.m.partName, s.m.finalName, mode).Some?
    ensures
      var dir := PublishPart(s.dir, s.m.partName, s.m.finalName, mode).value;
      && s.m.finalName !in s.dir && s.m.finalName in dir && dir[s.m.finalName] == File(s)
      && KeepsFiles(s.dir, dir)
      && (forall n :: n in dir && !IsPartName(n) && n != s.m.finalName ==> n in s.dir)
  {
    PartOfLive(s);
  }

  /** A conclusion either empties the slot and adds nothing, or publishes the payload. */
  lemma ConcludeEffect(s: System, digest: Bytes, e: FinishEnv)
    requires Inv(s) && s.m.occupied && s.m.error == 0
    requires Sha256.IsHexDigest(digest, File(s)) && |File(s)| == s.m.expected && File(s) == Payload(s)
    ensures Effect(s, Conclude(s, digest, e))
  {
    match Publishes(s, digest, e)
    case None => VacateEffect(s, e.unlinkOk);
    case Some(dir) =>
      PublishPartEffect(s, e.mode);
      var entry := Published(s.m.finalName, File(s), s.m.expected, s.m.expectedHash, digest);
      var s' := Conclude(s, digest, e);
      assert s'.log[..|s.log|] == s.log && s'.log[|s.log|] == entry;
      assert EntryOk(entry);
  }

  lemma DrainedEffect(s: System, e: FinishEnv)
    requires Inv(s) && DoFinishDrained(s, e).Some?
    ensures Effect(s, DoFinishDrained(s, e).value)
  {
    if s.m.error != 0 {
      VacateEffect(s, e.unlinkOk);
    } else {
      DrainedIsOnDisk(s);
      Sha256.HoldsFinish(s.m.sha, s.accepted);
      ConcludeEffect(s, Sha256.Hex(Sha256.Finish(s.m.sha)), e);
    }
  }

  lemma HashDoneEffect(s: System, f: nat, readOk: bool, e: FinishEnv)
    requires Inv(s) && DoHashDone(s, f, readOk, e).Some?
    ensures Effect(s, DoHashDone(s, f, readOk, e).value)
  {
    if !Stale(s.m, s.finishers[f].id) {
      DropFinisher(s, s.m, f);
      var s1 := s.(finishers := Without(s.finishers, f));
      if readOk {
        assert FinisherOk(s, s.finishers[f]);
        HashPassDigest(s, f);
        ConcludeEffect(s1, Sha256.Hex(Sha256.Finish(s.finishers[f].context)), e);
      } else {
        VacateEffect(s1, e.unlinkOk);
      }
    }
  }

  lemma PrepareEffect(s: System, r: Request, e: PrepareEnv, now: nat, unlinkOk: bool)
    requires Inv(s) && DoPrepare(s, r, e, now, unlinkOk).Some?
    ensures Effect(s, DoPrepare(s, r, e, now, unlinkOk).value)
  {
    if s.m.occupied && r.size <= s.m.limits.maxFileBytes {
      RefusedPrepareClears(s.m, r, e, now);
      VacateEffect(s, unlinkOk);
    } else {
      if e.id.Some? {
        PartNameParses(e.id.value);
      }
      CreatedPartEffect(s, DoPrepare(s, r, e, now, unlinkOk).value, e);
    }
  }

  /** At most the empty part file of a new id came into being. */
  lemma CreatedPartEffect(s: System, s': System, e: PrepareEnv)
    requires s'.log == s.log
    requires s'.dir == s.dir ||
             (e.id.Some? && IsPartName(PartName(e.id.value)) && s'.dir == s.dir[PartName(e.id.value) := []])
    ensures Effect(s, s')
  {
  }

  /** Any other step touches at most the bytes of a part file. */
  predicate OnlyPart(s: System, s': System) {
    && s'.log == s.log
    && (s'.dir == s.dir || (s.m.occupied && s.m.partName in s.dir && s'.dir == s.dir[s.m.partName := File(s')]))
  }

  lemma OnlyPartEffect(s: System, s': System)
    requires Inv(s) && OnlyPart(s, s')
    ensures Effect(s, s')
  {
    if s.m.occupied {
      PartNameParses(s.m.id);
    }
  }

  lemma WritesOnlyPart(s: System, step: Step)
    requires Inv(s) && Next(s, step).Some? && (step.DirectWrote? || step.WriterWroteStep?)
    ensures OnlyPart(s, Next(s, step).value)
  {
  }

  lemma EmptyingEffect(s: System, step: Step)
    requires Inv(s) && Next(s, step).Some? && Empties(step)
    ensures Effect(s, Next(s, step).value)
  {
    match step
    case PrepareStep(r, e, now, unlinkOk) => PrepareEffect(s, r, e, now, unlinkOk);
    case FinishDrained(e) => DrainedEffect(s, e);
    case HashDone(f, readOk, e) => HashDoneEffect(s, f, readOk, e);
    case ClearEndStep(unlinkOk) => VacateEffect(s, unlinkOk);
  }

  /**
    Publication safety of one step: no existing file is replaced or removed, and a new name appears only when an
    upload that took exactly `expected` bytes without a write error, and matches its declared hash, is published.
   */
  lemma StepEffect(s: System, step: Step)
    requires Inv(s) && Next(s, step).Some? && !step.Outside?
    ensures Effect(s, Next(s, step).value)
  {
    if Empties(step) {
      EmptyingEffect(s, step);
    } else {
      if Writes(step) {
        WritesOnlyPart(s, step);
      } else {
        StepGoesOn(s, step);
      }
      OnlyPartEffect(s, Next(s, step).value);
    }
  }

  /** Some other program wrote or removed this name during the run. */
  predicate TouchedOutside(steps: seq<Step>, n: Bytes) {
    exists i :: 0 <= i < |steps| && steps[i].Outside? && steps[i].name == n
  }

  /** The log has this name with this content. */
  predicate Logged(log: seq<Published>, n: Bytes, content: Bytes) {
    exists p :: 0 <= p < |log| && log[p].name == n && log[p].content == content
  }

  /** A file that was there is unchanged, and one that was not comes from the log. */
  predicate Accounted(s0: System, s: System, n: Bytes) {
    && (n in s0.dir ==> n in s.dir && s.dir[n] == s0.dir[n])
    && (n in s.dir && n !in s0.dir ==> Logged(s.log, n, s.dir[n]))
  }

  /** What one step does to a name that it does not touch from outside. */
  lemma StepAccounts(s: System, step: Step, n: Bytes)
    requires Inv(s) && Next(s, step).Some? && !IsPartName(n) && !(step.Outside? && step.name == n)
    ensures
      var s' := Next(s, step).value;
      && |s.log| <= |s'.log| && s'.log[..|s.log|] == s.log
      && (n in s.dir ==> n in s'.dir && s'.dir[n] == s.dir[n])
      && (n in s'.dir && n !in s.dir ==> Logged(s'.log, n, s'.dir[n]))
  {
    if !step.Outside? {
      StepEffect(s, step);
      var s' := Next(s, step).value;
      if n in s'.dir && n !in s.dir {
        assert s'.log[|s.log|].name == n;
      }
    }
  }

  lemma AccountsOn(s0: System, s: System, s': System, n: Bytes)
    requires Accounted(s0, s, n) && |s.log| <= |s'.log| && s'.log[..|s.log|] == s.log
    requires n in s.dir ==> n in s'.dir && s'.dir[n] == s.dir[n]
    requires n in s'.dir && n !in s.dir ==> Logged(s'.log, n, s'.dir[n])
    ensures Accounted(s0, s', n)
  {
    if n in s.dir && n !in s0.dir {
      var p :| 0 <= p < |s.log| && s.log[p].name == n && s.log[p].content == s.dir[n];
      assert s'.log[p] == s'.log[..|s.log|][p];
    }
  }

  lemma {:induction false} RunAccounts(s0: System, steps: seq<Step>, n: Bytes)
    requires Initial(s0) && Run(s0, steps).Some? && !IsPartName(n) && !TouchedOutside(steps, n)
    ensures Accounted(s0, Run(s0, steps).value, n)
  {
    if steps != [] {
      var before, step := steps[..|steps| - 1], steps[|steps| - 1];
      forall i | 0 <= i < |before| && before[i].Outside? ensures before[i].name != n {
        assert before[i] == steps[i];
      }
      RunAccounts(s0, before, n);
      RunKeeps(s0, before);
      var mid := Run(s0, before).value;
      StepAccounts(mid, step, n);
      AccountsOn(s0, mid, Run(s0, steps).value, n);
    }
  }

  /**
    Over every run, whatever other programs do: a file none of them touched is as it was, or came into being as an
    entry of the publication log; and every entry has the expected size, the digest of its content, and the declared
    hash if one was given.
   */
  lemma RunPublication(s0: System, steps: seq<Step>)
    requires Initial(s0) && Run(s0, steps).Some?
    ensures
      var s := Run(s0, steps).value;
      && (forall n :: !IsPartName(n) && !TouchedOutside(steps, n) ==> Accounted(s0, s, n))
      && (forall p :: 0 <= p < |s.log| ==> EntryOk(s.log[p]))
  {
    RunKeeps(s0, steps);
    forall n | !IsPartName(n) && !TouchedOutside(steps, n) ensures Accounted(s0, Run(s0, steps).value, n) {
      RunAccounts(s0, steps, n);
    }
  }

  // ---------------------------------------------------------------- consequences

  /** The three transports agree: the same payload is published as the same bytes with the same digest. */
  lemma SamePayloadSamePublication(s1: System, step1: Step, s2: System, step2: Step)
    requires Inv(s1) && Next(s1, step1).Some? && !step1.Outside? && |Next(s1, step1).value.log| > |s1.log|
    requires Inv(s2) && Next(s2, step2).Some? && !step2.Outside? && |Next(s2, step2).value.log| > |s2.log|
    requires Payload(s1) == Payload(s2)
    ensures
      var e1, e2 := Next(s1, step1).value.log[|s1.log|], Next(s2, step2).value.log[|s2.log|];
      e1.content == e2.content == Payload(s1) && e1.digest == e2.digest == Sha256.Hex(Sha256.Digest(Payload(s1)))
  {
    StepEffect(s1, step1);
    StepEffect(s2, step2);
    var e1, e2 := Next(s1, step1).value.log[|s1.log|], Next(s2, step2).value.log[|s2.log|];
    Sha256.IsHexDigestMeans(e1.digest, e1.content);
    Sha256.IsHexDigestMeans(e2.digest, e2.content);
  }

  /** The unlink calls of a step, if it makes any, succeed. */
  predicate Unlinks(step: Step) {
    match step
    case PrepareStep(_, _, _, unlinkOk) => unlinkOk
    case ClearEndStep(unlinkOk) => unlinkOk
    case FinishDrained(e) => e.unlinkOk && e.mode != Linked(false)
    case HashDone(_, _, e) => e.unlinkOk && e.mode != Linked(false)
    case _ => true
  }

  lemma ConcludeRemovesPart(s: System, digest: Bytes, e: FinishEnv)
    requires Inv(s) && s.m.occupied && e.unlinkOk && e.mode != Linked(false)
    ensures s.m.partName !in Conclude(s, digest, e).dir
  {
    PartOfLive(s);
  }

  lemma DrainedLeavesNoPart(s: System, e: FinishEnv)
    requires Inv(s) && s.m.occupied && DoFinishDrained(s, e).Some? && e.unlinkOk && e.mode != Linked(false)
    ensures s.m.partName !in DoFinishDrained(s, e).value.dir
  {
    PartOfLive(s);
    if s.m.error == 0 {
      ConcludeRemovesPart(s, Sha256.Hex(Sha256.Finish(s.m.sha)), e);
    }
  }

  lemma HashDoneLeavesNoPart(s: System, f: nat, readOk: bool, e: FinishEnv)
    requires Inv(s) && s.m.occupied && DoHashDone(s, f, readOk, e).Some? &&
            !DoHashDone(s, f, readOk, e).value.m.occupied
    requires e.unlinkOk && e.mode != Linked(false)
    ensures s.m.partName !in DoHashDone(s, f, readOk, e).value.dir
  {
    PartOfLive(s);
    if !Stale(s.m, s.finishers[f].id) && readOk {
      DropFinisher(s, s.m, f);
      ConcludeRemovesPart(s.(finishers := Without(s.finishers, f)),
          Sha256.Hex(Sha256.Finish(s.finishers[f].context)), e);
    }
  }

  lemma PrepareLeavesNoPart(s: System, r: Request, e: PrepareEnv, now: nat)
    requires Inv(s) && s.m.occupied && DoPrepare(s, r, e, now, true).Some?
    requires !DoPrepare(s, r, e, now, true).value.m.occupied
    ensures s.m.partName !in DoPrepare(s, r, e, now, true).value.dir
  {
    PartOfLive(s);
    if r.size <= s.m.limits.maxFileBytes {
      RefusedPrepareClears(s.m, r, e, now);
    }
  }

  /** An emptied slot leaves no part file behind when unlink succeeds. */
  lemma EmptiedSlotLeavesNoPart(s: System, step: Step)
    requires Inv(s) && s.m.occupied && Next(s, step).Some? && !Next(s, step).value.m.occupied && Unlinks(step)
    ensures s.m.partName !in Next(s, step).value.dir
  {
    if !Empties(step) {
      StepGoesOn(s, step);
    } else {
      EmptyingLeavesNoPart(s, step);
    }
  }

  lemma EmptyingLeavesNoPart(s: System, step: Step)
    requires Inv(s) && s.m.occupied && Next(s, step).Some? && !Next(s, step).value.m.occupied
    requires Empties(step) && Unlinks(step)
    ensures s.m.partName !in Next(s, step).value.dir
  {
    match step
    case FinishDrained(e) => DrainedLeavesNoPart(s, e);
    case HashDone(f, readOk, e) => HashDoneLeavesNoPart(s, f, readOk, e);
    case PrepareStep(r, e, now, _) => PrepareLeavesNoPart(s, r, e, now);
    case ClearEndStep(_) => VacateLeavesNoPart(s);
  }

  lemma VacateLeavesNoPart(s: System)
    requires Inv(s) && s.m.occupied
    ensures s.m.partName !in Vacate(s, true).dir
  {
    PartOfLive(s);
  }

  lemma OutsideSparesPart(s: System, name: Bytes, content: Option<Bytes>)
    requires Inv(s) && s.m.occupied && DoOutside(s, name, content).Some?
    ensures s.m.partName in DoOutside(s, name, content).value.dir
    ensures DoOutside(s, name, content).value.dir[s.m.partName] == File(s)
  {
    PartOfLive(s);
  }

  lemma WriterAddsNothing(s: System, f: nat, k: nat)
    requires Inv(s) && s.m.occupied && f < |s.finishers| && s.finishers[f].Hashing? && s.finishers[f].id == s.m.id
    requires DoWriterWrote(s, k).Some?
    ensures s.m.partName in DoWriterWrote(s, k).value.dir
    ensures DoWriterWrote(s, k).value.dir[s.m.partName] == File(s)
  {
    assert FinisherOk(s, s.finishers[f]);
    if s.m.job.RingJob? {
      RingWriteConserves(File(s), s.m.ring, s.m.job, s.accepted, k);
    } else {
      NoHashDuringChunkJob(s);
    }
  }

  /** The part file is there with the same bytes. */
  predicate SamePart(s: System, s': System) { s.m.partName in s'.dir && s'.dir[s.m.partName] == File(s) }

  lemma DirectWriterIsDone(s: System, f: nat, k: nat)
    requires Inv(s) && s.m.occupied && f < |s.finishers| && s.finishers[f].Hashing? && s.finishers[f].id == s.m.id
    ensures DoDirectWrote(s, k).None? || SamePart(s, DoDirectWrote(s, k).value)
  {
    if DoDirectWrote(s, k).Some? { UnfinishedWhileReceiving(s); }
  }

  /**
    From the moment a hash pass begins until the slot is emptied, no step of any thread changes the part file: the
    digest that comes out is the digest of what is published.
   */
  lemma NoAppendAfterHashBegins(s: System, f: nat, step: Step)
    requires Inv(s) && s.m.occupied && f < |s.finishers| && s.finishers[f].Hashing? && s.finishers[f].id == s.m.id
    requires Next(s, step).Some? && !Empties(step)
    ensures SamePart(s, Next(s, step).value)
    ensures File(s) == Payload(s) && |File(s)| == s.m.expected
  {
    HashedFileIsPayload(s, f);
    match step
    case DirectWrote(k) => DirectWriterIsDone(s, f, k);
    case WriterWroteStep(k) => WriterAddsNothing(s, f, k);
    case Outside(name, content) => OutsideSparesPart(s, name, content);
    case _ => StepGoesOn(s, step);
  }

  lemma HashedFileIsPayload(s: System, f: nat)
    requires Inv(s) && s.m.occupied && f < |s.finishers| && s.finishers[f].Hashing? && s.finishers[f].id == s.m.id
    ensures s.m.partName in s.dir && File(s) == Payload(s) && |File(s)| == s.m.expected
  {
    PartOfLive(s);
    assert FinisherOk(s, s.finishers[f]);
  }
}
