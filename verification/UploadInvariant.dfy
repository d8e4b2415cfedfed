/** What every reachable state of the upload system satisfies, and the proof that each step keeps it. */
module UploadInvariant {
  import opened Bytes
  import opened Upload
  import opened UploadRing
  import opened UploadStaging
  import opened UploadSystem
  import Sha256

  const MAX_FILE: nat := 0x100_0000_0000   // the largest max_file_bytes a configuration may set

  ghost predicate EntryOk(p: Published) {
    && |p.content| == p.expected
    && Sha256.IsHexDigest(p.digest, p.content)
    && (p.declared != [] ==> p.declared == p.digest)
    && !IsPartName(p.name)
  }

  ghost predicate Frame(s: System) {
    && Shaped(s.m)
    && s.m.limits.maxFileBytes <= MAX_FILE
    && (forall n :: n in s.dir && IsPartName(n) ==> n[14..46] in s.used)
    && (forall f :: 0 <= f < |s.finishers| ==> s.finishers[f].id in s.used)
    && (forall p :: 0 <= p < |s.log| ==> EntryOk(s.log[p]))
  }

  predicate RingEmpty(r: Ring) { r.queued == 0 && r.buffered == 0 }

  /** No upload in the slot. */
  predicate Blank(s: System) {
    && RingEmpty(s.m.ring) && s.m.job == NoJob && s.m.error == 0 && s.m.received == 0 && s.m.activeWrites == 0
    && !s.m.started && !s.m.chunkTransport && !s.m.direct && !s.m.fdOpen
    && s.m.staging == NO_STAGING && s.stream == NoStream && s.accepted == [] && s.pieces == []
    && (s.m.partName != [] ==> IsPartName(s.m.partName))
  }

  /** The chunk arrays of an upload that does not use them. */
  predicate Unstaged(s: System) {
    && s.m.staging == FreshStaging(ChunkCount(s.m.expected)) && s.pieces == NoPieces(ChunkCount(s.m.expected))
  }

  predicate Prepared(s: System) {
    && !s.m.started && !s.m.chunkTransport && !s.m.direct
    && RingEmpty(s.m.ring) && s.m.job == NoJob && s.m.error == 0 && s.m.received == 0 && s.m.activeWrites == 0
    && Unstaged(s) && s.stream == NoStream && s.accepted == [] && File(s) == []
  }

  /** How much of the front buffer is already on disk. */
  function Offset(job: Job): nat {
    if job.RingJob? then job.written else 0
  }

  /** The writer reads the front buffer, at its recorded size. */
  predicate RingJobOk(r: Ring, job: Job)
    requires RingShape(r)
  {
    && !job.ChunkJob?
    && (job.RingJob? ==> r.queued > 0 && job.index == r.head && job.size == r.sizes[r.head] && job.written <= job.size)
  }

  /** Bytes on disk, then the ring from the head on, then the partial tail are what was accepted. */
  predicate Conserved(file: Bytes, r: Ring, job: Job, accepted: Bytes)
    requires RingShape(r)
  {
    Offset(job) <= |Contents(r)| && file + Contents(r)[Offset(job)..] == accepted
  }

  ghost predicate Queued(s: System)
    requires Shaped(s.m)
  {
    && s.m.started && !s.m.chunkTransport && !s.m.direct
    && Unstaged(s) && s.m.activeWrites == 0
    && s.m.received == |s.accepted| <= s.m.expected
    && Sha256.Holds(s.m.sha, s.accepted)
    && (s.m.ring.buffered > 0 ==> s.m.ring.queued < DEPTH)
    && RingJobOk(s.m.ring, s.m.job)
    && (s.m.error == 0 ==> Conserved(File(s), s.m.ring, s.m.job, s.accepted))
    && (s.m.error != 0 ==> s.m.job == NoJob && File(s) <= s.accepted)
    && !s.stream.Direct?
    && (s.stream.Writing? ==> s.stream.rest != [] && s.m.received + |s.stream.rest| <= s.m.expected)
    && (s.stream.Draining? ==> s.m.ring.buffered == 0 && s.m.received == s.m.expected)
  }

  predicate Directed(s: System) {
    && s.m.started && !s.m.chunkTransport && s.m.direct
    && Unstaged(s) && RingEmpty(s.m.ring) && s.m.job == NoJob
    && s.m.received == |s.accepted| <= s.m.expected
    && !s.stream.Writing? && !s.stream.Draining?
    && (match s.stream
        case Direct(data, w) =>
          && s.m.activeWrites == 1 && data != [] && w <= |data| && s.m.received + |data| <= s.m.expected
          && (s.m.error == 0 ==> File(s) == s.accepted + data[..w])
        case _ =>
          && s.m.activeWrites == 0
          && (s.m.error == 0 ==> File(s) == s.accepted))
  }

  /** The bytes of the chunk the writer is on that already reached the disk. */
  function JobBytes(g: Staging, pieces: seq<Bytes>, job: Job): Bytes {
    if job.ChunkJob? && g.next < |pieces| && job.written <= |pieces[g.next]| then pieces[g.next][..job.written] else []
  }

  predicate ChunkJobOk(g: Staging, expected: nat, job: Job)
    requires StagingShape(g)
  {
    && !job.RingJob?
    && (job.ChunkJob? ==>
          && job.index == g.next < g.count && g.states[g.next] == 2
          && job.size == ChunkLength(expected, g.next) && job.written <= job.size)
  }

  predicate Chunked(s: System)
    requires Shaped(s.m)
  {
    && s.m.started && s.m.chunkTransport && !s.m.direct
    && RingEmpty(s.m.ring) && s.m.activeWrites == 0 && s.stream == NoStream && s.accepted == []
    && StagingInv(s.m.staging, s.m.expected, s.m.received, s.pieces)
    && ChunkJobOk(s.m.staging, s.m.expected, s.m.job)
    && (s.m.error != 0 ==> s.m.job == NoJob && s.m.staging.next < s.m.staging.count)
    && (s.m.error == 0 ==>
          File(s) == Concat(s.pieces[..s.m.staging.next]) + JobBytes(s.m.staging, s.pieces, s.m.job))
  }

  /** Nothing can be appended to the part file any more, and it is the whole payload. */
  predicate Frozen(s: System) {
    && s.m.error == 0
    && s.m.received == s.m.expected == |File(s)|
    && File(s) == Payload(s)
    && (s.m.chunkTransport ==> s.m.staging.next == s.m.staging.count)
  }

  ghost predicate FinisherOk(s: System, f: Finisher) {
    && s.m.started
    && match f
       case Waiting(_) => s.m.staging.completed == s.m.staging.count && s.m.received == s.m.expected
       case Hashing(_, _, position, context) =>
         Frozen(s) && position <= |File(s)| && Sha256.Holds(context, File(s)[..position])
  }

  predicate Named(s: System) {
    && HexId(s.m.id) && s.m.id in s.used && s.m.partName == PartName(s.m.id) && s.m.partName in s.dir
    && !IsPartName(s.m.finalName) && s.m.fdOpen && s.m.expected <= s.m.limits.maxFileBytes
  }

  ghost predicate Running(s: System)
    requires Shaped(s.m)
  {
    Prepared(s) || Queued(s) || Directed(s) || Chunked(s)
  }

  ghost predicate Live(s: System)
    requires Shaped(s.m)
  {
    && Named(s)
    && Running(s)
    && (forall f :: 0 <= f < |s.finishers| && s.finishers[f].id == s.m.id ==> FinisherOk(s, s.finishers[f]))
  }

  ghost predicate Inv(s: System) {
    Frame(s) && if s.m.occupied then Live(s) else Blank(s)
  }

  // ---------------------------------------------------------------- emptying the slot

  /** An emptied slot over an allowed directory and log. */
  lemma EmptiedKeeps(s: System, m: Manager, dir: Directory, log: seq<Published>)
    requires Frame(s) && Shaped(m) && m.job == NoJob && m.limits == s.m.limits
    requires forall n :: n in dir && IsPartName(n) ==> n in s.dir
    requires forall p :: 0 <= p < |log| ==> EntryOk(log[p])
    ensures Inv(Emptied(s, m, dir, log))
  {
  }

  lemma VacateKeeps(s: System, unlinkOk: bool)
    requires Frame(s) && s.m.job == NoJob
    ensures Inv(Vacate(s, unlinkOk))
  {
    EmptiedKeeps(s, s.m, if unlinkOk && s.m.partName != [] then s.dir - {s.m.partName} else s.dir, s.log);
  }

  lemma PartOfLive(s: System)
    requires Named(s)
    ensures IsPartName(s.m.partName) && s.m.partName != s.m.finalName
  {
    PartNameParses(s.m.id);
  }

  lemma PublishedNames(s: System, mode: PublishMode, n: Bytes)
    requires Named(s) && PublishPart(s.dir, s.m.partName, s.m.finalName, mode).Some?
    requires n in PublishPart(s.dir, s.m.partName, s.m.finalName, mode).value && IsPartName(n)
    ensures n in s.dir
  {
  }

  lemma ConcludeKeeps(s: System, digest: Bytes, e: FinishEnv)
    requires Frame(s) && Named(s) && s.m.job == NoJob
    requires Sha256.IsHexDigest(digest, File(s)) && |File(s)| == s.m.expected
    ensures Inv(Conclude(s, digest, e))
  {
    match Publishes(s, digest, e)
    case None => VacateKeeps(s, e.unlinkOk);
    case Some(dir) =>
      forall n | n in dir && IsPartName(n) ensures n in s.dir {
        PublishedNames(s, e.mode, n);
      }
      var entry := Published(s.m.finalName, File(s), s.m.expected, s.m.expectedHash, digest);
      assert EntryOk(entry);
      EmptiedKeeps(s, s.m.(completedFiles := s.m.completedFiles + 1), dir, s.log + [entry]);
  }

  // ---------------------------------------------------------------- finishers

  /** A step that leaves alone what a finisher relies on. */
  lemma FinishersStay(s: System, s': System)
    requires Inv(s) && s.m.occupied && Shaped(s'.m) && s'.finishers == s.finishers && s'.m.id == s.m.id
    requires s'.m.started == s.m.started && s'.m.received == s.m.received && s'.m.expected == s.m.expected
    requires s'.m.staging == s.m.staging && s'.m.chunkTransport == s.m.chunkTransport
    requires s'.m.error == s.m.error
    requires File(s') == File(s) && s'.accepted == s.accepted && s'.pieces == s.pieces
    ensures forall f :: 0 <= f < |s'.finishers| && s'.finishers[f].id == s'.m.id ==> FinisherOk(s', s'.finishers[f])
  {
    forall f | 0 <= f < |s'.finishers| && s'.finishers[f].id == s'.m.id ensures FinisherOk(s', s'.finishers[f]) {
      assert FinisherOk(s, s.finishers[f]);
    }
  }

  /** Nobody finishes an upload that is still taking bytes or has an unfinished chunk. */
  ghost predicate Unfinished(s: System) {
    forall f :: 0 <= f < |s.finishers| ==> s.finishers[f].id != s.m.id
  }

  lemma UnfinishedWhileReceiving(s: System)
    requires Inv(s) && s.m.occupied && (!s.m.started || s.m.received != s.m.expected)
    ensures Unfinished(s)
  {
    forall f | 0 <= f < |s.finishers| ensures s.finishers[f].id != s.m.id {
      assert s.finishers[f].id == s.m.id ==> FinisherOk(s, s.finishers[f]);
    }
  }

  lemma UnfinishedWhileIncomplete(s: System, i: nat)
    requires Inv(s) && s.m.occupied && Chunked(s) && i < s.m.staging.count && s.m.staging.states[i] < 2
    ensures Unfinished(s)
  {
    forall f | 0 <= f < |s.finishers| ensures s.finishers[f].id != s.m.id {
      if s.finishers[f].id == s.m.id {
        assert FinisherOk(s, s.finishers[f]);
        if s.finishers[f].Hashing? {
          AllWritten(s.m.staging, s.m.expected, s.m.received, s.pieces);
        }
        AllCompleted(s.m.staging, s.m.expected, s.m.received, s.pieces);
        assert false;
      }
    }
  }

  // ---------------------------------------------------------------- preparing and clearing

  lemma ClearBeginKeeps(s: System)
    requires Inv(s)
    ensures Inv(s.(m := ClearBegin(s.m)))
  {
    if s.m.occupied {
      FinishersStay(s, s.(m := ClearBegin(s.m)));
    }
  }

  lemma ClearEndKeeps(s: System, unlinkOk: bool)
    requires Inv(s) && DoClearEnd(s, unlinkOk).Some?
    ensures Inv(DoClearEnd(s, unlinkOk).value)
  {
    VacateKeeps(s, unlinkOk);
  }

  lemma OutsideKeeps(s: System, name: Bytes, content: Option<Bytes>)
    requires Inv(s) && DoOutside(s, name, content).Some?
    ensures Inv(DoOutside(s, name, content).value)
  {
    if s.m.occupied {
      PartNameParses(s.m.id);
      FinishersStay(s, DoOutside(s, name, content).value);
    }
  }

  /** A prepare refused because the slot is taken clears that slot: the upload in it is over. */
  lemma RefusedPrepareClears(m: Manager, r: Request, e: PrepareEnv, now: nat)
    requires Shaped(m) && m.occupied && m.fdOpen && r.size <= m.limits.maxFileBytes
    ensures Prepare(m, r, e, now) == Out(Busy, ClearEnd(m))
  {
  }

  lemma PrepareBusyKeeps(s: System, r: Request, e: PrepareEnv, now: nat, unlinkOk: bool)
    requires Inv(s) && s.m.occupied && DoPrepare(s, r, e, now, unlinkOk).Some?
    ensures Inv(DoPrepare(s, r, e, now, unlinkOk).value)
  {
    var used := if e.id.Some? then s.used + {e.id.value} else s.used;
    if r.size > s.m.limits.maxFileBytes {
      FinishersStay(s, s.(used := used));
      assert Named(s.(used := used));
    } else {
      RefusedPrepareClears(s.m, r, e, now);
      VacateKeeps(s, unlinkOk);
    }
  }

  /** A manager whose new upload was just prepared, over an empty part file. */
  lemma PreparedKeeps(s: System, m: Manager, id: Bytes)
    requires Inv(s) && !s.m.occupied && m.occupied && m.fdOpen
    requires m.limits == s.m.limits && m.ring == s.m.ring && m.sha == s.m.sha && m.error == 0 && m.job == NoJob
    requires m.received == 0 && m.activeWrites == 0 && !m.started && !m.chunkTransport && !m.direct
    requires HexId(id) && id !in s.used && m.id == id && m.partName == PartName(id) && !IsPartName(m.finalName)
    requires m.expected <= m.limits.maxFileBytes && m.staging == FreshStaging(ChunkCount(m.expected))
    ensures Inv(s.(m := m, dir := s.dir[m.partName := []], used := s.used + {id},
                   pieces := NoPieces(ChunkCount(m.expected))))
  {
    PartNameParses(id);
  }

  lemma PrepareOkKeeps(s: System, r: Request, e: PrepareEnv, now: nat, unlinkOk: bool)
    requires Inv(s) && !s.m.occupied && DoPrepare(s, r, e, now, unlinkOk).Some? && Prepare(s.m, r, e, now).result == Ok
    ensures Inv(DoPrepare(s, r, e, now, unlinkOk).value)
  {
    PreparedKeeps(s, Prepare(s.m, r, e, now).m, e.id.value);
  }

  /** What a failed prepare leaves of an empty slot: names nobody reads before the next clear or prepare. */
  predicate SameButNames(m: Manager, m': Manager) {
    && Shaped(m') && m'.limits == m.limits && m'.occupied == m.occupied
    && RingEmpty(m'.ring) && m'.job == m.job && m'.error == 0 && m'.received == 0 && m'.activeWrites == 0
    && !m'.started && !m'.chunkTransport && !m'.direct && !m'.fdOpen && m'.staging == NO_STAGING
    && (m'.partName != [] ==> m'.partName == m.partName || IsPartName(m'.partName))
  }

  lemma FailedPrepareNames(m: Manager, r: Request, e: PrepareEnv)
    requires Shaped(m) && !m.occupied && RingEmpty(m.ring) && m.error == 0 && m.received == 0 && m.activeWrites == 0
    requires !m.started && !m.chunkTransport && !m.direct && !m.fdOpen && m.staging == NO_STAGING
    requires e.id.Some? ==> HexId(e.id.value)
    ensures SameButNames(m, PrepareNames(m, r, e).m)
  {
    if e.id.Some? {
      PartNameParses(e.id.value);
    }
  }

  lemma FailedPrepareLeaves(m: Manager, r: Request, e: PrepareEnv, now: nat)
    requires Shaped(m) && !m.occupied && RingEmpty(m.ring) && m.error == 0 && m.received == 0 && m.activeWrites == 0
    requires !m.started && !m.chunkTransport && !m.direct && !m.fdOpen && m.staging == NO_STAGING
    requires e.id.Some? ==> HexId(e.id.value)
    requires Prepare(m, r, e, now).result != Ok
    ensures SameButNames(m, Prepare(m, r, e, now).m)
  {
    FailedPrepareNames(m, r, e);
    var m1 := PrepareNames(m, r, e).m;
    assert SameButNames(m, ClearEnd(m1.(fdOpen := true)));
  }

  lemma PrepareFailedKeeps(s: System, r: Request, e: PrepareEnv, now: nat, unlinkOk: bool)
    requires Inv(s) && !s.m.occupied && DoPrepare(s, r, e, now, unlinkOk).Some? && Prepare(s.m, r, e, now).result != Ok
    ensures Inv(DoPrepare(s, r, e, now, unlinkOk).value)
  {
    FailedPrepareLeaves(s.m, r, e, now);
    if e.id.Some? {
      PartNameParses(e.id.value);
    }
  }

  lemma PrepareKeeps(s: System, r: Request, e: PrepareEnv, now: nat, unlinkOk: bool)
    requires Inv(s) && DoPrepare(s, r, e, now, unlinkOk).Some?
    ensures Inv(DoPrepare(s, r, e, now, unlinkOk).value)
  {
    if s.m.occupied {
      PrepareBusyKeeps(s, r, e, now, unlinkOk);
    } else if Prepare(s.m, r, e, now).result == Ok {
      PrepareOkKeeps(s, r, e, now, unlinkOk);
    } else {
      PrepareFailedKeeps(s, r, e, now, unlinkOk);
    }
  }
}
