/** The chunk requests and the two ways to finish keep the invariant. */
module UploadChunks {
  import opened Bytes
  import opened Upload
  import opened UploadRing
  import opened UploadStaging
  import opened UploadSystem
  import opened UploadInvariant
  import opened UploadStreams
  import Sha256

  // ---------------------------------------------------------------- chunk requests

  /** An accepted begin: the chunk was free, a staging slot was left, and the request named its extent exactly. */
  lemma BeginAccepted(s: System, id: Bytes, client: Bytes, authorization: Bytes, total: nat, offset: nat, length: nat,
                      buffer: Bytes, now: nat)
    requires Inv(s) && |buffer| == length
    requires ChunkBegin(s.m, id, client, authorization, total, offset, length, Some(buffer), now).result == Ok
    ensures s.m.occupied && (Chunked(s) || Prepared(s))
    ensures
      var i := offset / CHUNK;
      && i < s.m.staging.count && s.m.staging.states[i] == 0 && s.m.staging.active < SLOTS
      && offset == i * CHUNK && length == ChunkLength(s.m.expected, i)
      && ChunkBegin(s.m, id, client, authorization, total, offset, length, Some(buffer), now).m ==
         s.m.(staging := Begun(s.m.staging, i, buffer), chunkTransport := true, started := true, lastActivity := now)
  {
    AdmittedExtents(s.m.expected, total, offset, length);
  }

  /** The state after an accepted begin. */
  lemma BegunStateKeeps(s: System, i: nat, buffer: Bytes, now: nat)
    requires Inv(s) && s.m.occupied && (Chunked(s) || Prepared(s))
    requires i < s.m.staging.count && s.m.staging.states[i] == 0 && s.m.staging.active < SLOTS
    requires |buffer| == ChunkLength(s.m.expected, i)
    ensures Inv(s.(m := s.m.(staging := Begun(s.m.staging, i, buffer), chunkTransport := true, started := true,
                             lastActivity := now)))
  {
    var s' := s.(m := s.m.(staging := Begun(s.m.staging, i, buffer), chunkTransport := true, started := true,
                           lastActivity := now));
    if Chunked(s) {
      UnfinishedWhileIncomplete(s, i);
    } else {
      UnfinishedWhileReceiving(s);
      FreshInv(s.m.expected);
      assert Concat(s.pieces[..0]) == [];
    }
    BegunKeeps(s.m.staging, s.m.expected, s.m.received, s.pieces, i, buffer);
    assert Chunked(s');
    LiveStays(s, s');
  }

  lemma ChunkBeginKeeps(s: System, id: Bytes, client: Bytes, authorization: Bytes, total: nat, offset: nat,
                        length: nat, alloc: Option<Bytes>, now: nat)
    requires Inv(s) && DoChunkBegin(s, id, client, authorization, total, offset, length, alloc, now).Some?
    ensures Inv(DoChunkBegin(s, id, client, authorization, total, offset, length, alloc, now).value)
  {
    if ChunkBegin(s.m, id, client, authorization, total, offset, length, alloc, now).result == Ok {
      BeginAccepted(s, id, client, authorization, total, offset, length, alloc.value, now);
      BegunStateKeeps(s, offset / CHUNK, alloc.value, now);
    } else {
      assert DoChunkBegin(s, id, client, authorization, total, offset, length, alloc, now).value == s;
    }
  }

  /** Changing the bytes of a chunk still receiving is not seen on disk. */
  lemma WrittenPrefixStays(g: Staging, pieces: seq<Bytes>, i: nat, piece: Bytes, job: Job)
    requires g.next <= i < |pieces|
    requires job.ChunkJob? ==> g.next != i
    ensures Concat(pieces[i := piece][..g.next]) == Concat(pieces[..g.next])
    ensures JobBytes(g, pieces[i := piece], job) == JobBytes(g, pieces, job)
  {
    assert pieces[i := piece][..g.next] == pieces[..g.next];
  }

  lemma ReceivingIsChunked(s: System, i: nat)
    requires Inv(s) && i < s.m.staging.count && s.m.staging.states[i] == 1
    ensures s.m.occupied && Chunked(s) && i < |s.pieces|
    ensures s.m.staging.next <= i && (s.m.job.ChunkJob? ==> i != s.m.staging.next)
    ensures s.m.staging.buffers[i].Some?
    ensures Unfinished(s)
  {
    assert Chunked(s);
    assert ChunkOk(s.m.staging, s.m.expected, s.pieces, i);
    UnfinishedWhileIncomplete(s, i);
  }

  lemma ChunkWriteKeeps(s: System, id: Bytes, offset: nat, data: Bytes, now: nat)
    requires Inv(s)
    ensures Inv(DoChunkWrite(s, id, offset, data, now).value)
  {
    var s' := DoChunkWrite(s, id, offset, data, now).value;
    if data != [] && ChunkWrite(s.m, id, offset, data, now).result == Ok {
      var i := offset / CHUNK;
      ReceivingIsChunked(s, i);
      WriteKeeps(s.m.staging, s.m.expected, s.m.received, s.pieces, i, data);
      WrittenPrefixStays(s.m.staging, s.pieces, i, s.pieces[i] + data, s.m.job);
      assert s'.m.staging == Received(s.m.staging, i, data);
      assert Chunked(s');
      LiveStays(s, s');
    } else {
      assert s' == s;
    }
  }

  /** Giving a chunk back, from a failed finish or an abort. */
  lemma ReleasedKeeps(s: System, s': System, i: nat, now: nat)
    requires Inv(s) && i < s.m.staging.count && s.m.staging.states[i] == 1 && i < |s.pieces|
    requires s' == s.(m := Release(s.m, i).(lastActivity := now), pieces := s.pieces[i := []])
    ensures Inv(s')
  {
    ReceivingIsChunked(s, i);
    ReleaseKeeps(s.m, s.pieces, i);
    WrittenPrefixStays(s.m.staging, s.pieces, i, [], s.m.job);
    assert Chunked(s');
    LiveStays(s, s');
  }

  lemma ChunkFinishKeeps(s: System, id: Bytes, offset: nat, length: nat, now: nat)
    requires Inv(s)
    ensures Inv(DoChunkFinish(s, id, offset, length, now).value)
  {
    var s' := DoChunkFinish(s, id, offset, length, now).value;
    var out := ChunkFinish(s.m, id, offset, length, now);
    var i := offset / CHUNK;
    if out.result == Ok {
      ReceivingIsChunked(s, i);
      FinishKeeps(s.m.staging, s.m.expected, s.m.received, s.pieces, i);
      assert s'.m.staging == Finished(s.m.staging, i) && s'.pieces == s.pieces;
      assert Chunked(s');
      LiveStays(s, s');
    } else if out.m != s.m {
      ReceivingIsChunked(s, i);
      assert out.m == Release(s.m, i).(lastActivity := s.m.lastActivity);
      ReleasedKeeps(s, s', i, s.m.lastActivity);
    } else {
      assert s' == s;
    }
  }

  lemma ChunkAbortKeeps(s: System, id: Bytes, offset: nat, now: nat)
    requires Inv(s)
    ensures Inv(DoChunkAbort(s, id, offset, now).value)
  {
    var s' := DoChunkAbort(s, id, offset, now).value;
    var i := offset / CHUNK;
    if i < s.m.staging.count && s.m.staging.states[i] == 1 && ChunkAbort(s.m, id, offset, now) != s.m {
      ReceivingIsChunked(s, i);
      ReleasedKeeps(s, s', i, now);
    } else {
      assert s' == s;
    }
  }

  // ---------------------------------------------------------------- finishing a stream

  /** A drained, error-free queue has everything on disk. */
  lemma DrainedIsOnDisk(s: System)
    requires Inv(s) && s.m.occupied && Queued(s) && s.m.error == 0
    requires s.m.job == NoJob && RingEmpty(s.m.ring)
    ensures File(s) == s.accepted
  {
    EmptyContents(s.m.ring);
  }

  lemma AddFinisher(s: System, s': System, f: Finisher)
    requires Inv(s) && s.m.occupied && Shaped(s'.m) && Running(s') && f.id == s.m.id && FinisherOk(s', f)
    requires s' == s.(m := s.m.(finalizing := true), stream := s'.stream, finishers := s.finishers + [f])
    ensures Inv(s')
  {
    FinishersStay(s, s'.(finishers := s.finishers));
    forall k | 0 <= k < |s'.finishers| && s'.finishers[k].id == s'.m.id ensures FinisherOk(s', s'.finishers[k]) {
      if k < |s.finishers| {
        assert FinisherOk(s, s.finishers[k]);
      }
    }
  }

  lemma DirectFinishKeeps(s: System)
    requires Inv(s) && s.stream == Open && FinishCheck(s.m, s.m.id) == Ok && s.m.direct
    ensures Inv(DoFinishCall(s).value)
  {
    var s' := DoFinishCall(s).value;
    Sha256.HoldsMeans(Sha256.ContextOf([]), []);
    assert File(s)[..0] == [];
    assert Directed(s');
    AddFinisher(s, s', Hashing(s.m.id, false, 0, Sha256.ContextOf([])));
  }

  lemma QueueFinishKeeps(s: System)
    requires Inv(s) && s.stream == Open && FinishCheck(s.m, s.m.id) == Ok && !s.m.direct
    requires DoFinishCall(s).Some? && Enqueue(s.m.ring, s.m.error, s.m.discard).error == 0
    ensures Inv(DoFinishCall(s).value)
  {
    var s' := DoFinishCall(s).value;
    if s.m.ring.buffered > 0 {
      EnqueueKeeps(s.m.ring);
    }
    assert Contents(s'.m.ring) == Contents(s.m.ring);
    assert Queued(s');
    LiveStays(s, s');
  }

  lemma FinishCallKeeps(s: System)
    requires Inv(s) && DoFinishCall(s).Some?
    ensures Inv(DoFinishCall(s).value)
  {
    if FinishCheck(s.m, s.m.id) == Ok && s.m.direct {
      DirectFinishKeeps(s);
    } else if FinishCheck(s.m, s.m.id) == Ok && Enqueue(s.m.ring, s.m.error, s.m.discard).error == 0 {
      QueueFinishKeeps(s);
    } else {
      var s' := DoFinishCall(s).value;
      assert Running(s');
      LiveStays(s, s');
    }
  }

  lemma FinishDrainedKeeps(s: System, e: FinishEnv)
    requires Inv(s) && DoFinishDrained(s, e).Some?
    ensures Inv(DoFinishDrained(s, e).value)
  {
    if s.m.error != 0 {
      VacateKeeps(s, e.unlinkOk);
    } else {
      DrainedIsOnDisk(s);
      Sha256.HoldsFinish(s.m.sha, s.accepted);
      ConcludeKeeps(s, Sha256.Hex(Sha256.Finish(s.m.sha)), e);
    }
  }

  // ---------------------------------------------------------------- finishing by reading the part file back

  lemma CompleteCallKeeps(s: System, id: Bytes, client: Bytes, authorization: Bytes)
    requires Inv(s) && DoCompleteCall(s, id, client, authorization).Some?
    ensures Inv(DoCompleteCall(s, id, client, authorization).value)
  {
    var s' := DoCompleteCall(s, id, client, authorization).value;
    if CompleteStart(s.m, id, client, authorization).result == Ok {
      assert Running(s');
      AddFinisher(s, s', Waiting(id));
    } else {
      assert s' == s;
    }
  }

  lemma DropFinisher(s: System, m: Manager, f: nat)
    requires Inv(s) && f < |s.finishers| && (m == s.m || m == ClearBegin(s.m) || m == s.m.(finalizing := false))
    ensures Inv(s.(m := m, finishers := Without(s.finishers, f)))
  {
    var s' := s.(m := m, finishers := Without(s.finishers, f));
    if s.m.occupied {
      FinishersStay(s, s.(m := m));
      forall k | 0 <= k < |s'.finishers| && s'.finishers[k].id == s'.m.id ensures FinisherOk(s', s'.finishers[k]) {
        assert s'.finishers[k] == s.finishers[if k < f then k else k + 1];
        assert FinisherOk(s.(m := m), s.finishers[if k < f then k else k + 1]);
      }
      assert Running(s');
    }
    forall k | 0 <= k < |s'.finishers| ensures s'.finishers[k].id in s.used {
      assert s'.finishers[k] == s.finishers[if k < f then k else k + 1];
    }
  }

  lemma ReplaceFinisher(s: System, f: nat, finisher: Finisher)
    requires Inv(s) && f < |s.finishers| && finisher.id == s.finishers[f].id
    requires s.m.occupied && finisher.id == s.m.id ==> FinisherOk(s, finisher)
    ensures Inv(s.(finishers := s.finishers[f := finisher]))
  {
    var s' := s.(finishers := s.finishers[f := finisher]);
    if s.m.occupied {
      assert Running(s');
      forall k | 0 <= k < |s'.finishers| && s'.finishers[k].id == s'.m.id ensures FinisherOk(s', s'.finishers[k]) {
        if k == f {
          assert FinisherOk(s, finisher);
        } else {
          assert FinisherOk(s, s.finishers[k]);
        }
      }
    }
  }

  /** When the wait of a completion ends without error, the part file is the whole payload. */
  lemma WaitEndsFrozen(s: System, f: nat)
    requires Inv(s) && f < |s.finishers| && s.finishers[f].Waiting? && s.m.occupied && s.finishers[f].id == s.m.id
    requires s.m.error == 0 && s.m.staging.next == s.m.staging.count
    ensures s.m.started && Frozen(s)
  {
    assert FinisherOk(s, s.finishers[f]);
    if Chunked(s) {
      AllCompleted(s.m.staging, s.m.expected, s.m.received, s.pieces);
      assert s.pieces[..s.m.staging.next] == s.pieces;
    } else {
      assert s.m.expected == 0 && s.accepted == [];
    }
  }

  lemma CompleteReadyKeeps(s: System, f: nat)
    requires Inv(s) && DoCompleteReady(s, f).Some?
    ensures Inv(DoCompleteReady(s, f).value)
  {
    var id := s.finishers[f].id;
    if s.m.error != 0 {
      DropFinisher(s, if s.m.occupied && s.m.id == id then ClearBegin(s.m) else s.m, f);
    } else {
      Sha256.HoldsMeans(Sha256.ContextOf([]), []);
      if s.m.occupied && s.m.id == id {
        WaitEndsFrozen(s, f);
        assert File(s)[..0] == [];
      }
      ReplaceFinisher(s, f, Hashing(id, true, 0, Sha256.ContextOf([])));
    }
  }

  lemma HashReadKeeps(s: System, f: nat, k: nat)
    requires Inv(s) && DoHashRead(s, f, k).Some?
    ensures Inv(DoHashRead(s, f, k).value)
  {
    var Hashing(id, chunked, position, context) := s.finishers[f];
    assert FinisherOk(s, s.finishers[f]);
    var file := File(s);
    var block := file[position..position + k];
    Sha256.HoldsAbsorb(context, file[..position], block);
    assert file[..position] + block == file[..position + k];
    ReplaceFinisher(s, f, Hashing(id, chunked, position + k, Sha256.Absorb(context, block)));
  }

  /** A hash pass that read the whole file has its digest. */
  lemma HashPassDigest(s: System, f: nat)
    requires Inv(s) && f < |s.finishers| && s.finishers[f].Hashing? && s.m.occupied && s.m.id == s.finishers[f].id
    requires s.finishers[f].position == |File(s)|
    ensures Sha256.IsHexDigest(Sha256.Hex(Sha256.Finish(s.finishers[f].context)), File(s))
    ensures |File(s)| == s.m.expected
  {
    assert FinisherOk(s, s.finishers[f]);
    assert File(s)[..s.finishers[f].position] == File(s);
    Sha256.HoldsFinish(s.finishers[f].context, File(s));
  }

  lemma HashDoneKeeps(s: System, f: nat, readOk: bool, e: FinishEnv)
    requires Inv(s) && DoHashDone(s, f, readOk, e).Some?
    ensures Inv(DoHashDone(s, f, readOk, e).value)
  {
    if Stale(s.m, s.finishers[f].id) {
      DropFinisher(s, StaleOutcome(s.m, s.finishers[f].id, s.finishers[f].chunked), f);
    } else {
      var s1 := s.(finishers := Without(s.finishers, f));
      DropFinisher(s, s.m, f);
      if readOk {
        HashPassDigest(s, f);
        ConcludeKeeps(s1, Sha256.Hex(Sha256.Finish(s.finishers[f].context)), e);
      } else {
        VacateKeeps(s1, e.unlinkOk);
      }
    }
  }
}
