/** One run of a job over its chapters (backend/jobs/pipeline.py:71-588): content-aware resume, a
    validated chunk cache, upload then verify, immutable revisions, and commits at fixed points.
    The database is transactional; storage, cache and disk are not.  Everything outside the
    program answers through an `Env`, which may differ from one attempt to the next. */
module Production {
  import opened Wrappers
  import opened ChapterRecords
  import opened ChapterTakes
  import opened ExportManifest
  import opened RunOutcomes

  /** What may happen between two attempts: a crash that leaves one of the durable states of the attempt,
      another container with another cache and disk, a change of storage behind the job's back. */
  datatype Mishap = Mishap(crashAt: Option<nat>, cache: map<TextDigest, Bytes>, disk: map<nat, Bytes>,
      storage: Option<map<Key, Bytes>>)

  class Studio {
    const spec: JobSpec
    var work: Db
    var saved: Db
    var storage: map<Key, Bytes>
    var cache: map<TextDigest, Bytes>
    var disk: map<nat, Bytes>
    var calls: nat
    var clock: nat

    /** Every durable state so far, kept only to say what a crash may leave behind. */
    var trace: seq<Snapshot>

    /** Audio that passed validation, by chunk. */
    ghost var approved: map<string, Bytes>
    /** Storage was changed behind the job's back. */
    ghost var rotten: bool

    ghost predicate Recorded()
      reads this`saved, this`storage, this`trace, this`approved, this`rotten
    {
      && trace != [] && trace[|trace|-1] == Snapshot(saved, storage)
      && Sound(spec, trace, approved, rotten)
    }

    ghost predicate Valid()
      reads this`work, this`saved, this`storage, this`trace, this`approved, this`rotten
    {
      Recorded() && DbOk(spec, work, approved) && Grows(saved, work)
    }

    /** `_synthesize_with_retry`: up to three calls. */
    method SynthesizeWithRetry(env: Env, chunk: string) returns (audio: Option<Bytes>)
      modifies `calls, `clock
      ensures (audio, clock) == Answer(spec, env, old(clock), chunk)
      ensures calls == old(calls) + (clock - old(clock))
    {
      audio := None;
      var attempt := 0;
      while attempt < 3 && audio.None?
        invariant 0 <= attempt <= 3 && calls == old(calls) + attempt && clock == old(clock) + attempt
        invariant attempt == 0 ==> audio.None?
        invariant attempt > 0 ==> audio == env.speak(clock - 1, VoiceOf(spec), chunk)
        invariant forall t :: old(clock) <= t < clock - 1 ==> env.speak(t, VoiceOf(spec), chunk).None?
      {
        audio := env.speak(clock, VoiceOf(spec), chunk);
        calls, clock := calls + 1, clock + 1;
        attempt := attempt + 1;
      }
    }

    /** `record_usage`, keyed by the chunk. */
    method RecordUsage(chunk: string)
      requires DbOk(spec, work, approved) && chunk in approved
      modifies `work
      ensures DbOk(spec, work, approved)
      ensures work == old(work).(ledger := work.ledger) && old(work.ledger) <= work.ledger
      ensures HasUsage(work.ledger, spec.id, ChunkId(spec, chunk))
      ensures work.ledger == ChapterRecords.Recorded(old(work.ledger), Usage(spec.id, ChunkId(spec, chunk), |chunk|))
    {
      hide *;
      var u := Usage(spec.id, ChunkId(spec, chunk), |chunk|);
      LedgerOf(spec, work, approved);
      RecordedKeepsLedger(spec, work.ledger, chunk, approved);
      WithLedger(spec, work, ChapterRecords.Recorded(work.ledger, u), approved);
      work := work.(ledger := ChapterRecords.Recorded(work.ledger, u));
    }

    /** One chunk: a validated cache hit, or a fresh synthesis validated at most twice. */
    method RenderChunk(env: Env, chunk: string) returns (r: Synthesis)
      requires DbOk(spec, work, approved) && ApprovedOk(spec, approved)
      modifies `work, `cache, `calls, `clock, `approved
      ensures DbOk(spec, work, approved) && ApprovedOk(spec, approved) && MoreApproved(old(approved), approved)
      ensures work == old(work).(ledger := work.ledger) && old(work.ledger) <= work.ledger
      ensures Hit(spec, old(cache), chunk) ==>
                && r == Heard(old(cache)[CacheKey(spec, chunk)]) && cache == old(cache)
                && clock == old(clock) && calls == old(calls) && work == old(work)
      ensures !Hit(spec, old(cache), chunk) ==>
                && (r, clock) == Synthesized(spec, env, old(clock), chunk)
                && calls == old(calls) + (clock - old(clock))
                && work.ledger == if r.Heard? && spec.paid
                                  then ChapterRecords.Recorded(old(work.ledger),
                                      Usage(spec.id, ChunkId(spec, chunk), |chunk|))
                                  else old(work.ledger)
      ensures forall k :: k != CacheKey(spec, chunk) ==> CacheAt(cache, k) == CacheAt(old(cache), k)
      ensures r.Heard? ==>
                CacheAt(cache, CacheKey(spec, chunk)) == Some(r.audio) && ValidMedia(spec, r.audio, Some(|chunk|), 0)
      ensures !r.Heard? ==> ReadCache(cache, CacheKey(spec, chunk)).None?
      ensures !r.Heard? ==>
                || CacheAt(cache, CacheKey(spec, chunk)).None?
                || CacheAt(cache, CacheKey(spec, chunk)) == CacheAt(old(cache), CacheKey(spec, chunk))
    {
      hide Recorded, ChapterRecords.Recorded, DbOk, ApprovedOk, CacheKey, ChunkId, HasUsage, MoreApproved, Answer;
      MoreApprovedSelf(approved);
      var key := CacheKey(spec, chunk);
      var hit := ReadCache(cache, key);
      if hit.Some? {
        if ValidMedia(spec, hit.value, Some(|chunk|), 0) {
          return Heard(hit.value);
        }
        cache := cache - {key};
      }
      var attempt := 1;
      var accepted: Option<Bytes> := None;
      while attempt <= 2 && accepted.None?
        invariant 1 <= attempt <= 3 && calls == old(calls) + (clock - old(clock))
        invariant work == old(work)
        invariant DbOk(spec, work, approved) && ApprovedOk(spec, approved) && MoreApproved(old(approved), approved)
        invariant forall k :: k != key ==> CacheAt(cache, k) == CacheAt(old(cache), k)
        invariant accepted.None? ==> ReadCache(cache, key).None?
        invariant accepted.None? ==> CacheAt(cache, key).None? || CacheAt(cache, key) == CacheAt(old(cache), key)
        invariant accepted.None? && attempt == 1 ==> clock == old(clock)
        invariant accepted.None? && attempt == 2 ==>
                    var (first, t) := Answer(spec, env, old(clock), chunk);
                    first.Some? && !ValidMedia(spec, first.value, Some(|chunk|), 0) && clock == t
        invariant accepted.None? && attempt == 3 ==> (Rejected, clock) == Synthesized(spec, env, old(clock), chunk)
        invariant accepted.Some? ==>
                    && CacheAt(cache, key) == accepted && ValidMedia(spec, accepted.value, Some(|chunk|), 0)
                        && chunk in approved
                    && (Heard(accepted.value), clock) == Synthesized(spec, env, old(clock), chunk)
      {
        var audio := SynthesizeWithRetry(env, chunk);
        if audio.None? {
          return Unanswered;
        }
        cache := cache[key := audio.value];
        if ValidMedia(spec, audio.value, Some(|chunk|), 0) {
          accepted := audio;
          Approve(spec, work, approved, chunk, audio.value);
          MoreApprovedSoFar(old(approved), approved, chunk, audio.value);
          approved := approved[chunk := audio.value];
        } else {
          cache := cache - {key};
        }
        attempt := attempt + 1;
      }
      if accepted.None? {
        return Rejected;
      }
      if spec.paid {
        RecordUsage(chunk);
      }
      return Heard(accepted.value);
    }

    /** The chunks of a chapter, in order, up to one that fails.  Every accepted file is still cached with the
        same bytes, nothing else was evicted, and the ledger gained exactly the chunks that were not cached. */
    method RenderChunks(env: Env, chunks: seq<string>, ghost cache0: map<TextDigest, Bytes>)
      returns (failure: Option<Cause>, pieces: seq<Bytes>)
      requires DbOk(spec, work, approved) && ApprovedOk(spec, approved) && CacheFrom(spec, env, cache0, cache)
      modifies `work, `cache, `calls, `clock, `approved
      ensures DbOk(spec, work, approved) && ApprovedOk(spec, approved) && MoreApproved(old(approved), approved)
      ensures work == old(work).(ledger := work.ledger) && old(work.ledger) <= work.ledger
      ensures CacheFrom(spec, env, cache0, cache)
      ensures if failure.None? then |pieces| == |chunks| else ChunkFailure(spec, env, chunks, failure.value, pieces)
      ensures |pieces| <= |chunks| && forall m :: 0 <= m < |pieces| ==>
                && CacheAt(cache, CacheKey(spec, chunks[m])) == Some(pieces[m])
                && ValidMedia(spec, pieces[m], Some(|chunks[m]|), 0) && Source(spec, env, cache0, chunks[m], pieces[m])
      ensures ChunksCached(spec, chunks[..|pieces|], old(cache), cache)
      ensures ChunksBilled(spec, chunks[..|pieces|], old(cache), old(work.ledger), work.ledger)
    {
      hide DbOk, ApprovedOk, ValidMedia, CacheKey, ChunkId, HasUsage, MoreApproved, Hit, Source, CacheFrom,
          ChunksCached, ChunksBilled, Synthesized, ReadCache, CacheAt;
      pieces := [];
      MoreApprovedSelf(approved);
      NoChunksYet(spec, chunks, cache, work.ledger);
      for n := 0 to |chunks|
        invariant DbOk(spec, work, approved) && ApprovedOk(spec, approved) && MoreApproved(old(approved), approved)
        invariant work == old(work).(ledger := work.ledger) && old(work.ledger) <= work.ledger
        invariant CacheFrom(spec, env, cache0, cache)
        invariant |pieces| == n
        invariant forall m :: 0 <= m < n ==>
                    && CacheAt(cache, CacheKey(spec, chunks[m])) == Some(pieces[m])
                    && ValidMedia(spec, pieces[m], Some(|chunks[m]|), 0)
                        && Source(spec, env, cache0, chunks[m], pieces[m])
        invariant ChunksCached(spec, chunks[..n], old(cache), cache)
        invariant ChunksBilled(spec, chunks[..n], old(cache), old(work.ledger), work.ledger)
      {
        var tick := clock;
        ghost var ledger, known, files := work.ledger, approved, cache;
        var r := RenderChunk(env, chunks[n]);
        MoreApprovedTransitive(old(approved), known, approved);
        ChunkStep(spec, env, cache0, files, cache, ledger, work.ledger, chunks[n], tick, clock, r);
        ghost var step := if r.Heard? then [chunks[n]] else [];
        CachedJoin(spec, chunks[..n], step, old(cache), files, cache);
        BilledJoin(spec, chunks[..n], step, old(cache), files, old(work.ledger), ledger, work.ledger);
        forall m | 0 <= m < n ensures CacheAt(cache, CacheKey(spec, chunks[m])) == Some(pieces[m]) {
          SameFile(spec, chunks[n], chunks[m]);
          if chunks[m] == chunks[n] {
            StillCached(spec, files, chunks[n], pieces[m]);
          }
        }
        if !r.Heard? {
          assert chunks[..n] + [] == chunks[..n];
          return Some(if r.Unanswered? then NoAnswer(tick) else BadAnswers(tick)), pieces;
        }
        assert chunks[..n+1] == chunks[..n] + [chunks[n]];
        pieces := pieces + [r.audio];
      }
      assert chunks[..|chunks|] == chunks;
      return None, pieces;
    }

    /** The inputs `merge_audio_files` reads. */
    method ReadFiles(keys: seq<TextDigest>) returns (audios: seq<Bytes>)
      ensures audios == Present(cache, keys)
    {
      audios := [];
      for n := 0 to |keys|
        invariant audios == Present(cache, keys[..n])
      {
        assert keys[..n+1][..n] == keys[..n];
        if keys[n] in cache {
          audios := audios + [cache[keys[n]]];
        }
      }
      assert keys[..|keys|] == keys;
    }

    /** A write to storage: not transactional, and not always what was asked. */
    method PutBytes(env: Env, key: Key, bytes: Bytes) returns (ok: bool)
      requires Recorded()
      requires key.ChapterKey? ==> key.index < |saved.rows| && !saved.rows[key.index].status.Done?
      modifies `storage, `clock, `trace
      ensures Recorded() && old(trace) <= trace && clock == old(clock) + 1
      ensures forall k :: k != key ==> At(storage, k) == old(At(storage, k))
      ensures ok <==> !env.put(old(clock)).Refused?
      ensures At(storage, key) == AfterPut(env.put(old(clock)), old(At(storage, key)), bytes)
    {
      hide DbOk, Grows, ApprovedOk, Sound, Safe, Intact;
      RecordedSafe();
      var p := env.put(clock);
      clock := clock + 1;
      match p {
        case Kept => storage := storage[key := bytes];
        case Altered(other) => storage := storage[key := other];
        case Refused(left) => if left.Some? { storage := storage[key := left.value]; }
      }
      ok := !p.Refused?;
      GrowsSelf(saved);
      SafeStorage(spec, saved, old(storage), storage, approved, rotten, key);
      SoundExtends(spec, trace, approved, rotten, Snapshot(saved, storage));
      trace := trace + [Snapshot(saved, storage)];
    }

    method GetBytes(env: Env, key: Key) returns (bytes: Option<Bytes>)
      modifies `clock
      ensures bytes == if env.fetchFails(old(clock)) then None else At(storage, key)
      ensures clock == old(clock) + 1
    {
      if env.fetchFails(clock) {
        bytes := None;
      } else {
        bytes := At(storage, key);
      }
      clock := clock + 1;
    }

    method Commit()
      requires Valid() && (!rotten ==> Intact(Snapshot(work, storage)))
      modifies `saved, `trace
      ensures Valid() && saved == work && old(trace) <= trace
    {
      hide DbOk, Grows, ApprovedOk, Intact;
      SoundExtends(spec, trace, approved, rotten, Snapshot(work, storage));
      saved := work;
      trace := trace + [Snapshot(work, storage)];
      GrowsSelf(work);
    }

    /** `_upload_chapter_audio`: upload, read back, and only then record. */
    method UploadChapterAudio(env: Env, i: nat) returns (ok: bool)
      requires Recorded() && i < |saved.rows| && !saved.rows[i].status.Done? && i < |work.rows| && i in disk
      modifies `work, `storage, `clock, `trace
      ensures Recorded() && old(trace) <= trace
      ensures forall k :: k != ChapterKey(i) ==> At(storage, k) == old(At(storage, k))
      ensures ok <==> UploadWorks(env, old(clock), old(At(storage, ChapterKey(i))), disk[i])
      ensures At(storage, ChapterKey(i)) == AfterPut(env.put(old(clock)), old(At(storage, ChapterKey(i))), disk[i])
      ensures !ok ==> work == old(work)
      ensures ok ==> work == old(work).(rows := old(work).rows[i :=
                old(work).rows[i].(key := Some(ChapterKey(i)), sha := Some(Digest(disk[i])))])
    {
      hide Sound;
      var sha := Digest(disk[i]);
      ok := PutBytes(env, ChapterKey(i), disk[i]);
      if !ok {
        return;
      }
      var echoed := GetBytes(env, ChapterKey(i));
      if echoed.None? || Digest(echoed.value) != sha {
        return false;
      }
      work := work.(rows := work.rows[i := work.rows[i].(key := Some(ChapterKey(i)), sha := Some(sha))]);
    }

    /** Change one chapter's row and commit. */
    method SaveRow(i: nat, row: Row)
      requires Recorded() && LedgerOk(spec, work.ledger, approved)
      requires i < |saved.rows| && Ahead(saved, work, i)
      requires RowOk(spec, i, row) && RevisionsKept(saved.rows[i].revisions, row.revisions)
      requires RowIntact(i, row, storage)
      modifies `work, `saved, `trace
      ensures Valid() && old(trace) <= trace
      ensures saved == work == old(work).(rows := old(work.rows)[i := row])
      ensures Ahead(old(saved), saved, i)
    {
      hide *;
      RecordedSafe();
      CommitReady(spec, saved, work, storage, i, row, approved, rotten);
      AheadRow(saved, work, i, row);
      work := work.(rows := work.rows[i := row]);
      MakeValid();
      Commit();
    }

    lemma RecordedSafe()
      requires Recorded()
      ensures Safe(spec, Snapshot(saved, storage), approved, rotten) && ApprovedOk(spec, approved)
    {
      hide Safe, Grows, ApprovedOk;
    }

    lemma MakeValid()
      requires Recorded() && DbOk(spec, work, approved) && Grows(saved, work)
      ensures Valid()
    {
    }

    lemma FromValid()
      requires Valid()
      ensures Recorded() && DbOk(spec, work, approved) && Grows(saved, work)
    {
    }

    /** The resume path: the stored copy if its checksum matches, else a local file that passes
        validation. */
    method ResumeChapter(env: Env, i: nat, clean: string) returns (t: Option<Take>)
      requires i < |work.rows| && RowOk(spec, i, work.rows[i]) && clean != "" && Current(spec, work.rows[i], clean)
      modifies `disk, `clock
      ensures t.None? ==> disk == old(disk) && !(Usable(work.rows[i], At(storage, ChapterKey(i))) && Dependable(env))
      ensures t.Some? ==> (t.value.Resumed? || t.value.Leftover?) && i in disk && disk[i] == t.value.audio
      ensures t.Some? ==> TakeOk(spec, env, i, clean, work.rows[i], work.rows[i],
                            At(storage, ChapterKey(i)), At(storage, ChapterKey(i)), t.value)
      ensures forall k :: k != i ==> (k in disk <==> k in old(disk)) && (k in disk ==> disk[k] == old(disk)[k])
    {
      hide RowOk, ValidMedia, UploadWorks, FailedOk, Made;
      var row := work.rows[i];
      KeyOfRow(spec, i, row);
      if row.key.Some? && row.sha.Some? {
        var data := GetBytes(env, row.key.value);
        if data.Some? && Digest(data.value) == row.sha.value {
          disk := disk[i := data.value];
          return Some(Resumed(data.value));
        }
      }
      if i in disk && ValidMedia(spec, disk[i], None, 0) {
        return Some(Leftover(disk[i]));
      }
      return None;
    }

    /** Merge, normalize and validate one chapter's chunks. */
    method AssembleChapter(env: Env, i: nat, clean: string, pieces: seq<Bytes>) returns (r: Assembled)
      requires |pieces| == |env.plan(clean)| > 0
      requires PiecesOk(spec, env.plan(clean), pieces)
      requires forall m :: 0 <= m < |pieces| ==> CacheAt(cache, CacheKey(spec, env.plan(clean)[m])) == Some(pieces[m])
      modifies `disk
      ensures r.NotMerged? <==> CauseOk(spec, env, clean, None, NoMerge, pieces)
      ensures r.Invalid? <==> CauseOk(spec, env, clean, None, BadMerge, pieces)
      ensures r.Whole? ==> i in disk && Made(spec, env, clean, disk[i], pieces)
      ensures forall k :: k != i ==> (k in disk <==> k in old(disk)) && (k in disk ==> disk[k] == old(disk)[k])
    {
      hide CacheKey, ValidMedia, TotalLength, UploadWorks;
      var chunks := env.plan(clean);
      var keys := seq(|chunks|, m requires 0 <= m < |chunks| => CacheKey(spec, chunks[m]));
      var audios := ReadFiles(keys);
      PresentAll(cache, keys);
      assert audios == pieces;
      var merged := env.merge(audios);
      if merged.Unmerged? {
        if merged.left.Some? { disk := disk[i := merged.left.value]; }
        return NotMerged;
      }
      disk := disk[i := Mastered(env, merged.audio)];
      if !ValidMedia(spec, disk[i], Some(TotalLength(chunks)), |chunks| - 1) {
        return Invalid;
      }
      return Whole;
    }

    /** The chunks of chapter i, on top of the committed state. */
    method RenderPlan(env: Env, i: nat, chunks: seq<string>, ghost cache0: map<TextDigest, Bytes>)
      returns (failure: Option<Cause>, pieces: seq<Bytes>)
      requires Valid() && work == saved && CacheFrom(spec, env, cache0, cache)
      modifies `work, `cache, `calls, `clock, `approved
      ensures Valid() && work == saved.(ledger := work.ledger) && Ahead(saved, work, i)
      ensures CacheFrom(spec, env, cache0, cache)
      ensures if failure.None? then |pieces| == |chunks| else ChunkFailure(spec, env, chunks, failure.value, pieces)
      ensures PiecesOk(spec, chunks, pieces) && forall m :: 0 <= m < |pieces| ==>
                CacheAt(cache, CacheKey(spec, chunks[m])) == Some(pieces[m])
                    && Source(spec, env, cache0, chunks[m], pieces[m])
      ensures ChunksCached(spec, chunks[..|pieces|], old(cache), cache)
      ensures ChunksBilled(spec, chunks[..|pieces|], old(cache), saved.ledger, work.ledger)
    {
      hide *;
      FromValid();
      RecordedParts();
      ghost var known := approved;
      failure, pieces := RenderChunks(env, chunks, cache0);
      PiecesAre(spec, chunks, pieces);
      SoundWithMoreApproved(spec, trace, known, approved, rotten);
      MakeRecorded();
      ProgressOf(spec, saved, work, i, approved);
      MakeValid();
    }

    /** Everything from "processing" to the new revision. */
    method RenderChapter(env: Env, i: nat, clean: string, ghost cache0: map<TextDigest, Bytes>) returns (t: Take)
      requires Valid() && work == saved && i < |work.rows| && clean != "" && CacheFrom(spec, env, cache0, cache)
      requires !(Current(spec, work.rows[i], clean) && Usable(work.rows[i], At(storage, ChapterKey(i)))
          && Dependable(env))
      modifies `work, `saved, `storage, `cache, `disk, `calls, `clock, `trace, `approved
      ensures Valid() && old(trace) <= trace
      ensures t.NoChunks? || t.Rendered? || t.Failed?
      ensures !t.Failed? ==> work == saved
      ensures |saved.rows| == old(|saved.rows|) && Ahead(old(saved), saved, i)
      ensures TakeOk(spec, env, i, clean, old(work.rows[i]), saved.rows[i],
                old(At(storage, ChapterKey(i))), At(storage, ChapterKey(i)), t)
      ensures forall k :: k != ChapterKey(i) ==> At(storage, k) == old(At(storage, k))
      ensures forall k :: k != i ==> (k in disk <==> k in old(disk)) && (k in disk ==> disk[k] == old(disk)[k])
      ensures t.Rendered? ==> i in disk && disk[i] == t.audio && i in saved.stages
      ensures TakeBilled(spec, env, clean, t, old(cache), old(saved.ledger), saved.ledger)
      ensures TakeCached(spec, env, clean, t, old(cache), cache)
      ensures CacheFrom(spec, env, cache0, cache) && Sourced(spec, env, cache0, clean, t)
      ensures saved.outputs == old(saved.outputs)
      ensures t.NoChunks? ==> calls == old(calls) && saved.ledger == old(saved.ledger)
    {
      hide *;
      ghost var before, stored := work.rows[i], At(storage, ChapterKey(i));
      FromValid();
      StatusRow(spec, work, i, Processing, approved, storage);
      SaveRow(i, work.rows[i].(status := Processing));
      ghost var processing := saved;
      FromValid();
      var chunks := env.plan(clean);
      if chunks == [] {
        StatusRow(spec, work, i, Skipped, approved, storage);
        SaveRow(i, work.rows[i].(status := Skipped));
        AheadTwice(old(saved), processing, saved, i);
        NoChunksTake(spec, env, i, clean, before, saved.rows[i], stored);
        NothingAccepted(spec, env, clean, NoChunks, cache0, cache, saved.ledger);
        return NoChunks;
      }
      ghost var cacheWas := cache;
      var failure, pieces := RenderPlan(env, i, chunks, cache0);
      if failure.Some? {
        t := Failed(failure.value, pieces);
        ChunkFailureIs(spec, env, clean, stored, failure.value, pieces);
        if failure.value.BadAnswers? {
          FromValid();
          StatusRow(spec, work, i, Pending, approved, storage);
          SaveRow(i, work.rows[i].(status := Pending));
          AheadTwice(old(saved), processing, saved, i);
          CommittedTake(spec, env, clean, t, cacheWas, processing.ledger, saved.ledger);
        } else {
          RolledBack(spec, env, clean, t, cacheWas, saved.ledger);
        }
        FailedTake(spec, env, i, clean, before, saved.rows[i], stored, failure.value, pieces);
        CachedTake(spec, env, cache0, clean, t, cacheWas, cache);
        return;
      }
      AllPieces(chunks, pieces);
      t := FinishChapter(env, i, clean, pieces, before, stored, cacheWas);
      PiecesOfTake(t);
      CachedTake(spec, env, cache0, clean, t, cacheWas, cache);
      AheadTwice(old(saved), processing, saved, i);
    }

    /** From the accepted chunks to the new revision. */
    method FinishChapter(env: Env, i: nat, clean: string, pieces: seq<Bytes>,
        ghost before: Row, ghost stored: Option<Bytes>, ghost cacheWas: map<TextDigest, Bytes>)
      returns (t: Take)
      requires Valid() && i < |saved.rows| && Ahead(saved, work, i)
      requires work.rows == saved.rows && work.outputs == saved.outputs && work.rows[i] == before.(status := Processing)
      requires clean != "" && !(Current(spec, before, clean) && Usable(before, stored) && Dependable(env))
      requires |pieces| == |env.plan(clean)| > 0 && stored == At(storage, ChapterKey(i))
      requires PiecesOk(spec, env.plan(clean), pieces)
      requires forall m :: 0 <= m < |pieces| ==> CacheAt(cache, CacheKey(spec, env.plan(clean)[m])) == Some(pieces[m])
      requires ChunksBilled(spec, env.plan(clean)[..|pieces|], cacheWas, saved.ledger, work.ledger)
      modifies `work, `saved, `storage, `disk, `clock, `trace
      ensures Valid() && old(trace) <= trace && (!t.Failed? ==> work == saved)
      ensures (t.Rendered? || t.Failed?) && t.pieces == pieces
      ensures |saved.rows| == old(|saved.rows|) && Ahead(old(saved), saved, i)
      ensures TakeOk(spec, env, i, clean, before, saved.rows[i], stored, At(storage, ChapterKey(i)), t)
      ensures forall k :: k != ChapterKey(i) ==> At(storage, k) == old(At(storage, k))
      ensures forall k :: k != i ==> (k in disk <==> k in old(disk)) && (k in disk ==> disk[k] == old(disk)[k])
      ensures t.Rendered? ==> i in disk && disk[i] == t.audio && i in saved.stages
      ensures TakeBilled(spec, env, clean, t, cacheWas, old(saved.ledger), saved.ledger)
      ensures saved.outputs == old(saved.outputs)
    {
      hide *;
      FromValid();
      var assembled := AssembleChapter(env, i, clean, pieces);
      if !assembled.Whole? {
        t := Failed(if assembled.Invalid? then BadMerge else NoMerge, pieces);
        MergeFailureIs(spec, env, clean, stored, pieces);
        PiecesOfTake(t);
        if assembled.Invalid? {
          StatusRow(spec, work, i, Pending, approved, storage);
          SaveRow(i, work.rows[i].(status := Pending));
          CommittedTake(spec, env, clean, t, cacheWas, old(saved.ledger), saved.ledger);
        } else {
          AheadSelf(saved, i);
          RolledBack(spec, env, clean, t, cacheWas, saved.ledger);
        }
        FailedTake(spec, env, i, clean, before, saved.rows[i], stored, t.cause, pieces);
        return;
      }
      if env.qc(disk[i]).Unreadable? {
        t := Failed(NoReport(disk[i]), pieces);
        ReportFailureIs(spec, env, clean, stored, disk[i], pieces);
        PiecesOfTake(t);
        AheadSelf(saved, i);
        RolledBack(spec, env, clean, t, cacheWas, saved.ledger);
        FailedTake(spec, env, i, clean, before, saved.rows[i], stored, t.cause, pieces);
        return;
      }
      t := PublishChapter(env, i, clean, pieces, before, stored);
      PiecesOfTake(t);
      CommittedTake(spec, env, clean, t, cacheWas, old(saved.ledger), saved.ledger);
    }

    /** Upload and verify, then record the new revision: the previous one stays active until here. */
    method PublishChapter(env: Env, i: nat, clean: string, pieces: seq<Bytes>, ghost before: Row,
        ghost stored: Option<Bytes>)
      returns (t: Take)
      requires Recorded() && DbOk(spec, work, approved) && i < |saved.rows| && Ahead(saved, work, i)
      requires work.rows == saved.rows && work.rows[i] == before.(status := Processing)
      requires clean != "" && !(Current(spec, before, clean) && Usable(before, stored) && Dependable(env))
      requires i in disk && Made(spec, env, clean, disk[i], pieces) && env.qc(disk[i]).Report?
      requires stored == At(storage, ChapterKey(i))
      modifies `work, `saved, `storage, `clock, `trace
      ensures Valid() && old(trace) <= trace && work == saved && saved.ledger == old(work.ledger)
      ensures t == if UploadWorks(env, old(clock), stored, disk[i])
                   then Rendered(disk[i], pieces, old(clock)) else Failed(NoUpload(disk[i], old(clock)), pieces)
      ensures |saved.rows| == old(|saved.rows|) && Ahead(old(saved), saved, i)
      ensures TakeOk(spec, env, i, clean, before, saved.rows[i], stored, At(storage, ChapterKey(i)), t)
      ensures forall k :: k != ChapterKey(i) ==> At(storage, k) == old(At(storage, k))
      ensures t.Rendered? ==> i in saved.stages
      ensures saved.outputs == old(work.outputs)
    {
      hide *;
      var audio, tick := disk[i], clock;
      var row := work.rows[i].(qcPassed := env.qc(audio).passed);
      RowOf(spec, work, i, approved);
      AheadRow(saved, work, i, row);
      work := work.(rows := work.rows[i := row]);
      ghost var checked := work;
      var ok := UploadChapterAudio(env, i);
      if !ok {
        row := row.(status := Pending, key := None, sha := None);
        ClearedRow(spec, i, before.(status := Processing), row, storage);
        SaveRow(i, row);
        UploadFailedTake(spec, env, i, clean, before, row, stored, At(storage, ChapterKey(i)), audio, pieces, tick);
        return Failed(NoUpload(audio, tick), pieces);
      }
      UploadKept(env, tick, stored, audio);
      row := work.rows[i];
      AheadRow(saved, checked, i, row);
      AheadStage(saved, work, i);
      work := work.(stages := work.stages + {i});
      PublishedRow(spec, i, before.(status := Processing), row, audio, clean, storage);
      SaveRow(i, Published(spec, row, clean));
      t := Rendered(audio, pieces, tick);
      RenderedTake(spec, env, i, clean, before, row, stored, At(storage, ChapterKey(i)), t);
    }

    /** One iteration of the chapter loop. */
    method ProduceChapter(env: Env, i: nat, ghost cache0: map<TextDigest, Bytes>) returns (t: Take)
      requires Valid() && work == saved && i < |env.chapters| && i < |work.rows| && CacheFrom(spec, env, cache0, cache)
      modifies `work, `saved, `storage, `cache, `disk, `calls, `clock, `trace, `approved
      ensures Valid() && old(trace) <= trace && (!t.Failed? ==> work == saved)
      ensures |saved.rows| == old(|saved.rows|) && Ahead(old(saved), saved, i) && saved.outputs == old(saved.outputs)
      ensures TakeOk(spec, env, i, env.chapters[i].clean, old(work.rows[i]), saved.rows[i],
                old(At(storage, ChapterKey(i))), At(storage, ChapterKey(i)), t)
      ensures forall k :: k != ChapterKey(i) ==> At(storage, k) == old(At(storage, k))
      ensures forall k :: k != i ==> (k in disk <==> k in old(disk)) && (k in disk ==> disk[k] == old(disk)[k])
      ensures Spoken(t) ==> i in disk && disk[i] == t.audio
      ensures t.Rendered? ==> i in saved.stages
      ensures TakeBilled(spec, env, env.chapters[i].clean, t, old(cache), old(saved.ledger), saved.ledger)
      ensures TakeCached(spec, env, env.chapters[i].clean, t, old(cache), cache)
      ensures CacheFrom(spec, env, cache0, cache) && Sourced(spec, env, cache0, env.chapters[i].clean, t)
      ensures !t.Rendered? && !t.Failed? ==> calls == old(calls) && saved.ledger == old(saved.ledger)
    {
      hide *;
      var clean, row := env.chapters[i].clean, work.rows[i];
      FromValid();
      if env.piped {
        RecordedSafe();
        IntactRows(spec, saved, work, storage, approved, rotten);
        Commit();
        FromValid();
      }
      AheadSelf(saved, i);
      RowOf(spec, work, i, approved);
      if clean == "" {
        if !row.status.Done? {
          StatusRow(spec, work, i, Skipped, approved, storage);
          SaveRow(i, row.(status := Skipped));
        }
        BlankTake(spec, env, i, row, At(storage, ChapterKey(i)));
        NothingAccepted(spec, env, clean, Blank, cache0, cache, saved.ledger);
        RenderedIsSpoken(Blank);
        return Blank;
      }
      if Current(spec, row, clean) {
        var resumed := ResumeChapter(env, i, clean);
        if resumed.Some? {
          NothingAccepted(spec, env, clean, resumed.value, cache0, cache, saved.ledger);
          return resumed.value;
        }
      }
      t := RenderChapter(env, i, clean, cache0);
      RenderedIsSpoken(t);
    }

    /** `_sync_chapter_rows`: one row per chapter, titles up to date, old rows kept. */
    method SyncChapterRows(chapters: seq<Chapter>)
      requires Valid() && work == saved
      modifies `work, `saved, `trace
      ensures Valid() && old(trace) <= trace && work == saved
      ensures saved == old(saved).(rows := Synced(old(saved).rows, chapters))
    {
      hide *;
      FromValid();
      SyncedNone(saved.rows);
      assert chapters[..0] == [];
      for i := 0 to |chapters|
        invariant Recorded() && saved == old(saved) && trace == old(trace) && storage == old(storage)
        invariant work == saved.(rows := Synced(saved.rows, chapters[..i]))
      {
        SyncedNext(saved.rows, chapters[..i], chapters[i]);
        assert chapters[..i+1] == chapters[..i] + [chapters[i]];
        if i < |work.rows| {
          work := work.(rows := work.rows[i := work.rows[i].(title := chapters[i].title)]);
        } else {
          work := work.(rows := work.rows + [NewRow(chapters[i].title)]);
        }
      }
      assert chapters[..|chapters|] == chapters;
      RecordedSafe();
      SyncedOk(spec, saved, chapters, storage, approved, rotten);
      MakeValid();
      Commit();
    }

    /** Bind and store one output format. */
    method Export(env: Env, f: Format, audios: seq<Bytes>, titles: seq<string>) returns (ok: bool)
      requires Valid() && work.rows == saved.rows
      modifies `work, `saved, `storage, `clock, `trace
      ensures Valid() && old(trace) <= trace
      ensures saved == old(saved) || saved == old(work)
      ensures work == old(work).(outputs := old(work.outputs)
                + if ok && f in env.formats && env.bind(f, audios, titles).Some? then {f} else {})
      ensures f !in env.formats || env.bind(f, audios, titles).None? ==> ok && storage == old(storage)
      ensures forall k :: k != BookKey(f) ==> At(storage, k) == old(At(storage, k))
      ensures ok && f in env.formats ==> Bound(env, f, audios, titles, work.outputs, storage)
      ensures f !in env.formats ==> saved == old(saved)
      ensures clock == old(clock) + if f in env.formats && env.bind(f, audios, titles).Some? then 1 else 0
      ensures ok <==> !SomeRefused(env, old(clock), clock)
    {
      hide *;
      NoneRefused(env, clock);
      ok := true;
      if f in env.formats {
        FromValid();
        RecordedSafe();
        IntactRows(spec, saved, work, storage, approved, rotten);
        Commit();
        var book := env.bind(f, audios, titles);
        if book.Some? {
          FromValid();
          ok := PutBytes(env, BookKey(f), book.value);
          FaithfulPut(env, old(clock));
          OneRefused(env, old(clock));
          if ok {
            OutputOk(spec, saved, work, f, approved);
            work := work.(outputs := work.outputs + {f});
          }
          MakeValid();
        }
        if ok {
          BoundOf(env, f, audios, titles, work.outputs, storage);
        }
      }
    }

    /** Both formats. */
    method BindBook(env: Env, audios: seq<Bytes>, titles: seq<string>) returns (ok: bool)
      requires Valid() && work == saved
      modifies `work, `saved, `storage, `clock, `trace
      ensures Valid() && old(trace) <= trace
      ensures saved.(outputs := old(saved).outputs) == old(saved) && old(saved).outputs <= saved.outputs
      ensures work == old(work).(outputs := work.outputs) && saved.outputs <= work.outputs
      ensures ok ==> work.outputs == old(work.outputs) + NewOutputs(env, audios, titles)
      ensures forall i: nat :: At(storage, ChapterKey(i)) == old(At(storage, ChapterKey(i)))
      ensures ok ==> AllBound(env, audios, titles, work.outputs, storage)
      ensures ok <==> !SomeRefused(env, old(clock), clock)
      ensures old(clock) <= clock && forall f :: f !in NewOutputs(env, audios, titles) ==>
                At(storage, BookKey(f)) == old(At(storage, BookKey(f)))
    {
      hide *;
      BothOutputs(env, audios, titles);
      ok := Export(env, Mp3, audios, titles);
      if !ok {
        return;
      }
      ghost var outputs, kept, between := work.outputs, storage, clock;
      ok := Export(env, M4b, audios, titles);
      RefusedJoin(env, old(clock), between, clock);
      BoundBoth(env, audios, titles, outputs, kept, work.outputs, storage);
    }

    /** The chapter loop: heartbeat, then produce. */
    method RunChapters(env: Env)
      returns (stop: Option<Outcome>, takes: seq<Take>, files: seq<nat>, titles: seq<string>, ghost beats: seq<nat>)
      requires Valid() && work == saved
      modifies `work, `saved, `storage, `cache, `disk, `calls, `clock, `trace, `approved
      ensures Valid() && old(trace) <= trace
      ensures RowsOk(spec, env, Synced(old(saved).rows, env.chapters), saved.rows, old(storage), storage, takes)
      ensures AllBilled(spec, env, takes, old(cache), old(saved).ledger, saved.ledger)
      ensures AllCached(spec, env, takes, old(cache), cache) && AllSourced(spec, env, takes, old(cache))
      ensures CacheFrom(spec, env, old(cache), cache)
      ensures saved.outputs == old(saved.outputs)
      ensures AllRowsOk(spec, Synced(old(saved).rows, env.chapters))
      ensures stop.None? || stop == Some(Raised) || stop == Some(Canceled) || stop == Some(Lost)
      ensures stop != Some(Raised) ==> work == saved && NoneFailed(takes)
      ensures stop == Some(Raised) ==> takes != [] && takes[|takes|-1].Failed? && NoneFailed(takes[..|takes|-1])
      ensures forall f :: At(storage, BookKey(f)) == old(At(storage, BookKey(f)))
      ensures stop.None? ==> |takes| == |env.chapters| && DiskHolds(disk, takes)
      ensures stop.None? ==> files == FilesOf(takes) && titles == TitlesOf(env.chapters, takes)
      ensures NoneFailed(takes) && NoneRendered(takes) ==> calls == old(calls) && saved.ledger == old(saved).ledger
      ensures |beats| >= |takes| && forall k :: 0 <= k < |takes| ==> env.beat(beats[k]) == Continue
      ensures stop == Some(Canceled) ==> |beats| == |takes| + 1 && env.beat(beats[|takes|]) == Stop
      ensures stop == Some(Lost) ==> |beats| == |takes| + 1 && env.beat(beats[|takes|]) == Stolen
    {
      hide *;
      takes, files, titles, beats := [], [], [], [];
      SyncChapterRows(env.chapters);
      ghost var before := saved.rows;
      FromValid();
      RowsOfDb(spec, work, approved);
      NothingTaken(spec, env, old(saved).rows, storage, disk, saved.ledger, cache);
      for i := 0 to |env.chapters|
        invariant Valid() && work == saved && old(trace) <= trace && saved.outputs == old(saved.outputs)
        invariant |takes| == i && NoneFailed(takes)
        invariant |beats| == i && forall k :: 0 <= k < i ==> env.beat(beats[k]) == Continue
        invariant RowsOk(spec, env, before, saved.rows, old(storage), storage, takes)
        invariant AllBilled(spec, env, takes, old(cache), old(saved).ledger, saved.ledger) && DiskHolds(disk, takes)
        invariant AllCached(spec, env, takes, old(cache), cache) && AllSourced(spec, env, takes, old(cache))
        invariant CacheFrom(spec, env, old(cache), cache)
        invariant forall f :: At(storage, BookKey(f)) == old(At(storage, BookKey(f)))
        invariant files == FilesOf(takes) && titles == TitlesOf(env.chapters, takes)
        invariant NoneRendered(takes) ==> calls == old(calls) && saved.ledger == old(saved).ledger
      {
        var beat := env.beat(clock);
        beats := beats + [clock];
        clock := clock + 1;
        if beat == Stolen {
          return Some(Lost), takes, files, titles, beats;
        }
        if beat == Stop {
          return Some(Canceled), takes, files, titles, beats;
        }
        ghost var was, held, wasDisk, wasCache := saved, storage, disk, cache;
        RowsCount(spec, env, before, saved.rows, old(storage), storage, takes);
        var t := ProduceChapter(env, i, old(cache));
        RowsStep(spec, env, before, was, saved, old(storage), held, storage, takes, t, i);
        BilledStep(spec, env, takes, t, old(cache), wasCache, cache, old(saved).ledger, was.ledger, saved.ledger);
        SourcedStep(spec, env, takes, t, old(cache));
        TakenStep(env.chapters, takes, t, wasDisk, disk);
        assert (takes + [t])[..|takes|] == takes;
        takes := takes + [t];
        if t.Failed? {
          return Some(Raised), takes, files, titles, beats;
        }
        if Spoken(t) {
          files := files + [i];
          titles := titles + [env.chapters[i].title];
        }
      }
      return None, takes, files, titles, beats;
    }

    /** The files of the book, as they are on disk when it is bound. */
    method ReadChapters(files: seq<nat>, ghost chapters: seq<Chapter>,
        ghost takes: seq<Take>) returns (audios: seq<Bytes>)
      requires files == FilesOf(takes) && DiskHolds(disk, takes) && |takes| <= |chapters|
      ensures audios == AudioOf(takes)
    {
      hide *;
      audios := [];
      FilesAreAligned(chapters, takes, 0);
      for k := 0 to |files|
        invariant audios == AudioOf(takes)[..k]
      {
        FilesAreAligned(chapters, takes, k);
        DiskHas(disk, takes, files[k]);
        audios := audios + [disk[files[k]]];
      }
    }

    /** Bind the book, write the manifest, and decide the QC gate. */
    method FinishJob(env: Env, files: seq<nat>, titles: seq<string>, ghost takes: seq<Take>)
      returns (o: Outcome, manifest: seq<Entry>)
      requires Valid() && work == saved
      requires |takes| <= |env.chapters| && DiskHolds(disk, takes)
      requires files == FilesOf(takes) && titles == TitlesOf(env.chapters, takes)
      modifies `work, `saved, `storage, `clock, `trace
      ensures Valid() && old(trace) <= trace && (o == Passed || o == Held || o == Raised) && old(clock) <= clock
      ensures o == Raised <==>
                || files == [] || old(saved).outputs + NewOutputs(env, AudioOf(takes), titles) == {}
                || SomeRefused(env, old(clock), clock)
      ensures forall f :: f !in NewOutputs(env, AudioOf(takes), titles) ==>
                At(storage, BookKey(f)) == old(At(storage, BookKey(f)))
      ensures saved.(outputs := old(saved).outputs) == old(saved) && old(saved).outputs <= saved.outputs
      ensures forall i: nat :: At(storage, ChapterKey(i)) == old(At(storage, ChapterKey(i)))
      ensures o != Raised ==> work == saved && files != [] && manifest == ManifestOf(saved.rows)
      ensures o != Raised ==>
                saved.outputs == old(saved).outputs + NewOutputs(env, AudioOf(takes), titles) && saved.outputs != {}
      ensures o != Raised && Faithful(env) ==> At(storage, ManifestKey) == Some(env.json(manifest))
      ensures o != Raised ==> (o == Held <==> env.blockOnQc && AnyFailedQc(saved.rows))
      ensures o != Raised ==> AllBound(env, AudioOf(takes), titles, saved.outputs, storage)
    {
      hide *;
      manifest := [];
      NoneRefused(env, clock);
      if files == [] {
        return Raised, manifest;
      }
      var audios := ReadChapters(files, env.chapters, takes);
      var ok := BindBook(env, audios, titles);
      if !ok || work.outputs == {} {
        return Raised, manifest;
      }
      ghost var kept, bound := storage, clock;
      manifest := BuildManifest(work.rows);
      FromValid();
      FaithfulPut(env, clock);
      ok := PutBytes(env, ManifestKey, env.json(manifest));
      OneRefused(env, bound);
      RefusedJoin(env, old(clock), bound, clock);
      MakeValid();
      if !ok {
        return Raised, manifest;
      }
      RecordedSafe();
      IntactRows(spec, saved, work, storage, approved, rotten);
      Commit();
      AllBoundStays(env, audios, titles, saved.outputs, kept, storage);
      FailedQcOf(saved.rows);
      var failed := exists i :: 0 <= i < |saved.rows| && saved.rows[i].qcPassed == Some(false);
      o := if env.blockOnQc && failed then Held else Passed;
    }

    /** `run_job`.  On every way out the committed rows are what the takes say and the ledger is what was
        accepted, committed and not cached; every way out but passing has a cause in the environment; when the
        run finishes, the book is made of the accepted audio in chapter order; and nothing is spent on an
        unchanged job. */
    method RunJob(env: Env) returns (o: Outcome, takes: seq<Take>, manifest: seq<Entry>)
      requires Valid() && work == saved
      modifies `work, `saved, `storage, `cache, `disk, `calls, `clock, `trace, `approved
      ensures Valid() && old(trace) <= trace && (o != Raised ==> work == saved)
      ensures !env.available ==> o == Raised && takes == [] && saved == old(saved) && storage == old(storage)
      ensures env.available ==>
                RowsOk(spec, env, Synced(old(saved).rows, env.chapters), saved.rows, old(storage), storage, takes)
      ensures AllBilled(spec, env, takes, old(cache), old(saved).ledger, saved.ledger)
      ensures AllCached(spec, env, takes, old(cache), cache) && AllSourced(spec, env, takes, old(cache))
      ensures CacheFrom(spec, env, old(cache), cache)
      ensures old(saved).outputs <= saved.outputs
      ensures EndOk(env, o, takes, old(saved).outputs)
      ensures Obliging(spec, env) && HasText(env) && (old(saved).outputs != {} || Binds(env))
          ==> o == Passed || o == Held
      ensures o == Passed || o == Held ==>
                && saved.outputs == old(saved).outputs + NewOutputs(env, AudioOf(takes), TitlesOf(env.chapters, takes))
                && manifest == ManifestOf(saved.rows)
                && (Faithful(env) ==> At(storage, ManifestKey) == Some(env.json(manifest)))
                && (o == Held <==> env.blockOnQc && AnyFailedQc(saved.rows))
                && AllBound(env, AudioOf(takes), TitlesOf(env.chapters, takes), saved.outputs, storage)
                && (forall f :: f !in NewOutputs(env, AudioOf(takes), TitlesOf(env.chapters, takes)) ==>
                      At(storage, BookKey(f)) == old(At(storage, BookKey(f))))
      ensures (env.available && Dependable(env)
               && Unchanged(env, Synced(old(saved).rows, env.chapters), old(storage))) ==>
                && calls == old(calls) && saved.ledger == old(saved).ledger && NoneRendered(takes) && NoneFailed(takes)
                && forall i :: 0 <= i < |saved.rows| ==> At(storage, ChapterKey(i)) == old(At(storage, ChapterKey(i)))
    {
      hide *;
      takes, manifest := [], [];
      if !env.available {
        NothingTaken(spec, env, [], storage, disk, saved.ledger, cache);
        NotAvailable(env, saved.outputs);
        NotObliging(spec, env);
        return Raised, takes, manifest;
      }
      ghost var beats;
      var stop, all, files, titles;
      stop, all, files, titles, beats := RunChapters(env);
      takes := all;
      RowsCount(spec, env, Synced(old(saved).rows, env.chapters), saved.rows, old(storage), storage, takes);
      ghost var before, chaptersStored, loopEnd := Synced(old(saved).rows, env.chapters), storage, clock;
      if Dependable(env) && Unchanged(env, before, old(storage)) {
        UnchangedRendersNothing(spec, env, before, saved.rows, old(storage), storage, takes);
        UnchangedStorage(spec, env, before, saved.rows, old(storage), storage, takes);
      }
      if stop.Some? {
        Stopped(env, stop.value, takes, old(saved).outputs, beats);
        Success(env, before, old(storage), takes, stop.value, old(saved).outputs);
        return stop.value, takes, manifest;
      }
      o, manifest := FinishJob(env, files, titles, takes);
      FinishedEnd(env, o, takes, old(saved).outputs, loopEnd, clock);
      RowsOkElsewhere(spec, env, before, saved.rows, old(storage), chaptersStored, storage, takes);
      Success(env, before, old(storage), takes, o, old(saved).outputs);
    }

    lemma Success(env: Env, before: seq<Row>, stored: map<Key, Bytes>, takes: seq<Take>, o: Outcome,
        outputs: set<Format>)
      requires RowsOk(spec, env, before, saved.rows, stored, storage, takes) && EndOk(env, o, takes, outputs)
      ensures Obliging(spec, env) && HasText(env) && (outputs != {} || Binds(env)) ==> o == Passed || o == Held
    {
      hide *;
      if Obliging(spec, env) && HasText(env) && (outputs != {} || Binds(env)) {
        ObligingRunSucceeds(spec, env, before, saved.rows, stored, storage, takes, o, outputs);
      }
    }

    lemma RecordedParts()
      requires Recorded()
      ensures trace != [] && trace[|trace|-1] == Snapshot(saved, storage) && Sound(spec, trace, approved, rotten)
      ensures ApprovedOk(spec, approved)
    {
    }

    lemma MakeRecorded()
      requires trace != [] && trace[|trace|-1] == Snapshot(saved, storage) && Sound(spec, trace, approved, rotten)
      ensures Recorded()
    {
    }

    /** A job not yet run: rows as found, and a ledger that only concerns other jobs. */
    constructor (spec: JobSpec, db: Db, storage: map<Key, Bytes>)
      requires AllRowsOk(spec, db.rows) && !Concerns(db.ledger, spec.id) && Intact(Snapshot(db, storage))
      ensures Valid() && work == saved == db && this.storage == storage && this.spec == spec && !rotten
    {
      this.spec := spec;
      work, saved, this.storage := db, db, storage;
      cache, disk, calls, clock := map[], map[], 0, 0;
      trace, approved, rotten := [Snapshot(db, storage)], map[], false;
      new;
      hide RowOk, Intact;
    }

    /** `process_one` around `run_job`: what an exception leaves uncommitted is rolled back, what any
        other way out leaves is committed, and there is none. */
    method RunAttempt(env: Env) returns (o: Outcome, takes: seq<Take>)
      requires Valid() && work == saved
      modifies `work, `saved, `storage, `cache, `disk, `calls, `clock, `trace, `approved
      ensures Valid() && work == saved && old(trace) <= trace
      ensures env.available ==>
                RowsOk(spec, env, Synced(old(saved).rows, env.chapters), saved.rows, old(storage), storage, takes)
      ensures AllBilled(spec, env, takes, old(cache), old(saved).ledger, saved.ledger)
      ensures AllCached(spec, env, takes, old(cache), cache) && AllSourced(spec, env, takes, old(cache))
      ensures CacheFrom(spec, env, old(cache), cache)
      ensures EndOk(env, o, takes, old(saved).outputs) && old(saved).outputs <= saved.outputs
      ensures Obliging(spec, env) && HasText(env) && (old(saved).outputs != {} || Binds(env))
          ==> o == Passed || o == Held
    {
      hide *;
      var manifest;
      o, takes, manifest := RunJob(env);
      if o == Raised {
        FromValid();
        RecordedSafe();
        work := saved;
        SavedIsValid();
      }
    }

    lemma SavedIsValid()
      requires Recorded() && work == saved
      ensures Valid()
    {
      hide Grows, ApprovedOk, LedgerOk, RowOk;
      GrowsSelf(saved);
    }

    /** The process dies: the database and the storage are as at one of the last durable states. */
    method Crash(t: nat)
      requires Valid() && t < |trace|
      modifies `work, `saved, `storage, `trace
      ensures Valid() && work == saved == old(trace)[t].db && storage == old(trace)[t].storage
      ensures trace == old(trace)[..t+1]
    {
      hide Sound, DbOk, Grows;
      SoundPrefix(spec, trace, approved, rotten, t + 1);
      work, saved, storage := trace[t].db, trace[t].db, trace[t].storage;
      trace := trace[..t+1];
      SavedIsValid();
    }

    method Replace(other: map<Key, Bytes>)
      requires Valid() && work == saved
      modifies `storage, `trace, `rotten
      ensures Valid() && storage == other && old(trace) <= trace
    {
      hide *;
      FromValid();
      RecordedParts();
      RecordedSafe();
      GrowsSelf(saved);
      Rot(spec, trace, approved, rotten, other);
      SoundExtends(spec, trace, approved, true, Snapshot(saved, other));
      rotten := true;
      storage := other;
      trace := trace + [Snapshot(saved, other)];
      MakeRecorded();
      MakeValid();
    }

    /** Any sequence of attempts, whatever the outside does, with failures, crashes between any two
        durable steps, changed texts and changed machines: every durable state keeps the revision
        chains and the ledger, nothing recorded is lost, and no chunk is billed twice. */
    method Attempts(envs: seq<Env>, mishaps: seq<Mishap>)
      requires Valid() && work == saved && |mishaps| == |envs|
      modifies this
      ensures Valid() && work == saved && old(trace) <= trace
      ensures AllRowsOk(spec, saved.rows) && Grows(old(saved), saved)
      ensures forall chunks :: Covers(spec, saved.ledger, chunks) ==>
                BilledCharacters(saved.ledger, spec.id) <= TotalLength(chunks)
    {
      hide *;
      FromValid();
      RecordedParts();
      ghost var first := |trace| - 1;
      for k := 0 to |envs|
        invariant Valid() && work == saved && old(trace) <= trace && trace != []
      {
        var start := |trace|;
        var o, takes := RunAttempt(envs[k]);
        var m := mishaps[k];
        if m.crashAt.Some? && start <= m.crashAt.value + 1 <= |trace| {
          Crash(m.crashAt.value);
        }
        cache, disk := m.cache, m.disk;
        if m.storage.Some? {
          Replace(m.storage.value);
        }
      }
      FromValid();
      RecordedParts();
      RowsOfDb(spec, work, approved);
      LedgerOf(spec, work, approved);
      HistoryOnlyGrows(spec, trace, approved, rotten, first, |trace| - 1);
      assert trace[first] == old(trace)[first];
      forall chunks | Covers(spec, saved.ledger, chunks)
        ensures BilledCharacters(saved.ledger, spec.id) <= TotalLength(chunks)
      {
        CoveredBill(spec, saved.ledger, approved, chunks);
      }
    }
  }
}
