/** Who may drive an upload, over whole runs: the client and the authorization of the prepare that put it there. */
module UploadOwners {
  import opened Bytes
  import opened Upload
  import opened UploadRing
  import opened UploadStaging
  import opened UploadSystem
  import opened UploadInvariant
  import opened UploadRuns
  import opened UploadSteps
  import Sha256

  // ---------------------------------------------------------------- the owner, as history

  /** What an accepted prepare was given, the id it drew, and whether a begin was accepted since. */
  datatype Owner = Owner(id: Bytes, client: Bytes, authorization: Bytes, size: nat, begun: bool)

  /** This step is a prepare that is accepted. */
  predicate Prepares(s: System, step: Step) {
    step.PrepareStep? && Next(s, step).Some? && Prepare(s.m, step.r, step.pe, step.now).result == Ok
  }

  /** The owner after one more step. */
  function OwnerAfter(s: System, step: Step, owner: Option<Owner>): Option<Owner>
    requires Next(s, step).Some?
  {
    if Prepares(s, step) then
      if step.pe.id.Some? then
        Some(Owner(step.pe.id.value, step.r.client, step.r.authorization, step.r.size, false))
      else None
    else if owner.Some? && Starts(s.m, step) then Some(owner.value.(begun := true))
    else owner
  }

  /** The last accepted prepare of a run, and whether a begin was accepted since. */
  function LastOwner(s0: System, steps: seq<Step>): Option<Owner>
    requires Run(s0, steps).Some?
  {
    if steps == [] then None
    else
      var before, step := steps[..|steps| - 1], steps[|steps| - 1];
      OwnerAfter(Run(s0, before).value, step, LastOwner(s0, before))
  }

  /** The slot holds the upload of this owner, or none. */
  predicate HeldBy(m: Manager, owner: Option<Owner>) {
    m.occupied ==> owner == Some(Owner(m.id, m.client, m.authorization, m.expected, m.started))
  }

  lemma PreparedFields(m: Manager, r: Request, e: PrepareEnv, now: nat)
    requires Shaped(m) && Prepare(m, r, e, now).result == Ok
    ensures
      var m' := Prepare(m, r, e, now).m;
      && e.id.Some? && m'.id == e.id.value && m'.client == r.client && m'.authorization == r.authorization
      && m'.expected == r.size && m'.started == m.started && !m.occupied
  {
  }

  lemma PrepareOwns(s: System, r: Request, e: PrepareEnv, now: nat, unlinkOk: bool)
    requires Inv(s) && DoPrepare(s, r, e, now, unlinkOk).Some? && Prepare(s.m, r, e, now).result == Ok
    ensures e.id.Some?
    ensures HeldBy(DoPrepare(s, r, e, now, unlinkOk).value.m,
                   Some(Owner(e.id.value, r.client, r.authorization, r.size, false)))
  {
    PreparedFields(s.m, r, e, now);
  }

  lemma RefusedPrepareOwns(s: System, r: Request, e: PrepareEnv, now: nat, unlinkOk: bool, owner: Option<Owner>)
    requires Inv(s) && DoPrepare(s, r, e, now, unlinkOk).Some? && Prepare(s.m, r, e, now).result != Ok
    requires HeldBy(s.m, owner)
    ensures HeldBy(DoPrepare(s, r, e, now, unlinkOk).value.m, owner)
  {
    if s.m.occupied && r.size <= s.m.limits.maxFileBytes {
      RefusedPrepareClears(s.m, r, e, now);
    } else if !s.m.occupied {
      FailedPrepareLeaves(s.m, r, e, now);
    }
  }

  lemma ConcludeEmpties(s: System, digest: Bytes, e: FinishEnv)
    requires Shaped(s.m) && s.m.partName in s.dir
    ensures !Conclude(s, digest, e).m.occupied
  {
  }

  lemma DrainedOwns(s: System, e: FinishEnv)
    requires Shaped(s.m) && DoFinishDrained(s, e).Some?
    ensures !DoFinishDrained(s, e).value.m.occupied
  {
    if s.m.error == 0 { ConcludeEmpties(s, Sha256.Hex(Sha256.Finish(s.m.sha)), e); }
  }

  lemma HashDoneOwns(s: System, f: nat, readOk: bool, e: FinishEnv, owner: Option<Owner>)
    requires Shaped(s.m) && DoHashDone(s, f, readOk, e).Some? && HeldBy(s.m, owner)
    ensures HeldBy(DoHashDone(s, f, readOk, e).value.m, owner)
  {
    if !Stale(s.m, s.finishers[f].id) && readOk {
      ConcludeEmpties(s.(finishers := Without(s.finishers, f)),
                      Sha256.Hex(Sha256.Finish(s.finishers[f].context)), e);
    }
  }

  /** A step that may empty the slot empties it, or leaves the upload in it alone. */
  lemma EmptyingOwns(s: System, step: Step, owner: Option<Owner>)
    requires Shaped(s.m) && Next(s, step).Some? && HeldBy(s.m, owner)
    requires step.FinishDrained? || step.HashDone? || step.ClearEndStep?
    ensures HeldBy(Next(s, step).value.m, owner)
  {
    match step
    case FinishDrained(e) => DrainedOwns(s, e);
    case HashDone(f, readOk, e) => HashDoneOwns(s, f, readOk, e, owner);
    case ClearEndStep(_) =>
  }

  lemma StepOwns(s: System, step: Step, owner: Option<Owner>)
    requires Inv(s) && Next(s, step).Some? && HeldBy(s.m, owner)
    ensures HeldBy(Next(s, step).value.m, OwnerAfter(s, step, owner))
  {
    if step.PrepareStep? {
      assert Next(s, step) == DoPrepare(s, step.r, step.pe, step.now, step.unlinkOk);
      if Prepares(s, step) {
        PrepareOwns(s, step.r, step.pe, step.now, step.unlinkOk);
      } else {
        RefusedPrepareOwns(s, step.r, step.pe, step.now, step.unlinkOk, owner);
      }
    } else if Empties(step) {
      EmptyingOwns(s, step, owner);
    } else {
      StepGoesOn(s, step);
      StepKeepsStanding(s, step);
      if Starts(s.m, step) { StartsHeld(s.m, step); }
    }
  }

  /** Only an upload that is there can begin. */
  lemma StartsHeld(m: Manager, step: Step)
    requires Shaped(m) && Starts(m, step)
    ensures m.occupied
  {
  }

  /** In every reachable state the upload in the slot is that of the last accepted prepare. */
  lemma {:induction false} SlotIsOwned(s0: System, steps: seq<Step>)
    requires Initial(s0) && Run(s0, steps).Some?
    ensures HeldBy(Run(s0, steps).value.m, LastOwner(s0, steps))
  {
    if steps != [] {
      var before, step := steps[..|steps| - 1], steps[|steps| - 1];
      SlotIsOwned(s0, before);
      RunKeeps(s0, before);
      StepOwns(Run(s0, before).value, step, LastOwner(s0, before));
    }
  }

  // ---------------------------------------------------------------- who is answered, and how

  /** The upload in the slot, if it is the one named, is this owner's. */
  predicate Names(m: Manager, owner: Option<Owner>, id: Bytes) { m.occupied && owner.Some? && owner.value.id == id }

  predicate Owns(owner: Owner, client: Bytes, authorization: Bytes) {
    owner.client == client && owner.authorization == authorization
  }

  /** What upload_begin is due, by history. */
  function BeginDue(m: Manager, owner: Option<Owner>, id: Bytes, client: Bytes, authorization: Bytes,
                    length: nat): Result
  {
    if !Names(m, owner, id) then NotFound
    else if !Owns(owner.value, client, authorization) then Forbidden
    else if owner.value.begun then Busy
    else if length != owner.value.size then SizeMismatch
    else Ok
  }

  /**
    Over every run: upload_begin is accepted exactly from the client and with the authorization of the prepare that
    put the upload there, with the size that prepare announced, and only if no begin was accepted since. A stranger is
    forbidden, a second begin busy, and a refusal changes nothing.
   */
  lemma BeginExactly(s0: System, steps: seq<Step>, id: Bytes, client: Bytes, authorization: Bytes, length: nat,
                     now: nat)
    requires Initial(s0) && Run(s0, steps).Some?
    ensures
      var s := Run(s0, steps).value;
      var out := Begin(s.m, id, client, authorization, length, now);
      && out.result == BeginDue(s.m, LastOwner(s0, steps), id, client, authorization, length)
      && (out.result != Ok ==> DoBegin(s, id, client, authorization, length, now) == Some(s))
      && (out.result == Ok ==> out.m.started && DoBegin(s, id, client, authorization, length, now).value.stream == Open)
  {
    RunKeeps(s0, steps);
    SlotIsOwned(s0, steps);
  }

  /** The calls on chunks and of completion that name a client and an authorization. */
  predicate Bound(step: Step) { step.ChunkBeginStep? || step.CompleteCall? }

  /** What such a call answers. */
  function Answer(s: System, step: Step): Out
    requires Bound(step) && Next(s, step).Some?
  {
    match step
    case ChunkBeginStep(id, client, authorization, total, offset, length, alloc, now) =>
      ChunkBegin(s.m, id, client, authorization, total, offset, length, alloc, now)
    case CompleteCall(id, client, authorization, _) => CompleteStart(s.m, id, client, authorization)
  }

  /** A chunk begin of no bytes is refused before anything is looked at. */
  predicate Malformed(step: Step) { step.ChunkBeginStep? && step.length == 0 }

  lemma AnswerToHolder(s: System, step: Step)
    requires Shaped(s.m) && Next(s, step).Some? && Bound(step)
    ensures
      var result := Answer(s, step).result;
      && (Malformed(step) ==> result == Invalid)
      && (!Malformed(step) ==>
            && (result == NotFound <==> !s.m.occupied || step.id != s.m.id)
            && (result == Forbidden <==>
                  && s.m.occupied && step.id == s.m.id
                  && (step.client != s.m.client || step.authorization != s.m.authorization)))
      && (result in {Invalid, NotFound, Forbidden} ==> Next(s, step) == Some(s))
  {
    match step
    case ChunkBeginStep(id, client, authorization, total, offset, length, alloc, now) =>
    case CompleteCall(id, client, authorization, _) =>
  }

  /**
    Over every run: a chunk begin or a completion gets past the first checks, and can be accepted, exactly when it
    names the upload in the slot and comes from the client and with the authorization of the prepare that put it
    there. With either of the two different it is forbidden, and nothing changes.
   */
  lemma OnlyTheOwnerDrives(s0: System, steps: seq<Step>, step: Step)
    requires Initial(s0) && Run(s0, steps).Some? && Next(Run(s0, steps).value, step).Some? && Bound(step)
    ensures
      var s, owner := Run(s0, steps).value, LastOwner(s0, steps);
      var result := Answer(s, step).result;
      && (!Malformed(step) ==>
            && (result == NotFound <==> !Names(s.m, owner, step.id))
            && (result == Forbidden <==>
                  && Names(s.m, owner, step.id)
                  && (step.client != owner.value.client || step.authorization != owner.value.authorization)))
      && (result == Ok ==> Names(s.m, owner, step.id) && step.client == owner.value.client &&
                           step.authorization == owner.value.authorization)
      && (result in {NotFound, Forbidden} ==> Next(s, step) == Some(s))
  {
    RunKeeps(s0, steps);
    SlotIsOwned(s0, steps);
    AnswerToHolder(Run(s0, steps).value, step);
  }

  /** Over every run: an upload is cancelled exactly by its owner, and not while it is being finished. */
  lemma CancelExactly(s0: System, steps: seq<Step>, id: Bytes, client: Bytes, authorization: Bytes)
    requires Initial(s0) && Run(s0, steps).Some?
    ensures
      var s, owner := Run(s0, steps).value, LastOwner(s0, steps);
      CancelCheck(s.m, id, client, authorization) ==
      if !Names(s.m, owner, id) then NotFound
      else if !Owns(owner.value, client, authorization) then Forbidden
      else if s.m.finalizing then Busy
      else Ok
    ensures
      var s, owner := Run(s0, steps).value, LastOwner(s0, steps);
      AbortClears(s.m, id) <==> Names(s.m, owner, id) && owner.value.begun && !s.m.finalizing
  {
    RunKeeps(s0, steps);
    SlotIsOwned(s0, steps);
  }
}
