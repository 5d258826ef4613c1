/** Runs that keep less than the program promises (backend/jobs/pipeline.py:71-588): an outage that costs
    a chapter its key, a chunk that no run bills, a book that is not the text's, and a manifest that lists
    a chapter the book does not have. */
module Incidents {
  import opened Wrappers
  import opened ChapterRecords
  import opened ChapterTakes
  import opened ExportManifest
  import opened RunOutcomes
  import opened Production

  lemma SyncedRow(rows: seq<Row>, chapters: seq<Chapter>, i: nat)
    requires i < |rows|
    ensures i < |Synced(rows, chapters)|
    ensures Synced(rows, chapters)[i] == rows[i].(title := if i < |chapters| then chapters[i].title else rows[i].title)
  {
  }

  lemma SameButTitle(a: Row, b: Row, stored: Option<Bytes>)
    requires b == a.(title := b.title)
    ensures Finished(a, stored) <==> Finished(b, stored)
  {
  }

  /** New titles change nothing that matters here. */
  lemma SyncedIsOk(spec: JobSpec, db: Db, env: Env, approved: map<string, Bytes>, stored: map<Key, Bytes>, j: nat)
    requires DbOk(spec, db, approved) && |env.chapters| <= |db.rows| && AllFinished(env, db.rows, stored)
    requires j < |env.chapters| && Changed(env, db.rows, j)
    ensures
      var rows := Synced(db.rows, env.chapters);
      && AllRowsOk(spec, rows) && |rows| == |db.rows| && AllFinished(env, rows, stored) && Changed(env, rows, j)
  {
    hide ChapterId, LedgerOk, At;
    var rows := Synced(db.rows, env.chapters);
    forall i | 0 <= i < |rows| ensures RowOk(spec, i, rows[i]) {
      assert RowOk(spec, i, db.rows[i]);
    }
    forall i | 0 <= i < |env.chapters| && env.chapters[i].clean != ""
      ensures Finished(rows[i], At(stored, ChapterKey(i)))
    {
      assert Finished(db.rows[i], At(stored, ChapterKey(i)));
    }
  }

  /** A finished job is run again with one changed text while storage takes no writes, and nothing else
      goes wrong: a chapter that had audio is left without a key to it.  Its bytes are still stored. */
  method RerenderInAnOutage(studio: Studio, env: Env, j: nat) returns (i: nat)
    requires studio.Valid() && studio.work == studio.saved && Obliging(studio.spec, env)
    requires |env.chapters| <= |studio.saved.rows| && AllFinished(env, studio.saved.rows, studio.storage)
    requires j < |env.chapters| && Changed(env, studio.saved.rows, j)
    modifies studio
    ensures studio.Valid() && studio.work == studio.saved && i < |env.chapters| <= |studio.saved.rows|
    ensures Finished(old(studio.saved).rows[i], old(At(studio.storage, ChapterKey(i))))
    ensures studio.saved.rows[i].key.None? && !studio.saved.rows[i].status.Done?
    ensures studio.saved.rows[i].revisions == old(studio.saved).rows[i].revisions
    ensures At(studio.storage, ChapterKey(i)) == old(At(studio.storage, ChapterKey(i)))
  {
    hide *;
    ghost var rows, stored := studio.saved.rows, studio.storage;
    ghost var before := Synced(rows, env.chapters);
    OutageIs(studio.spec, env);
    studio.FromValid();
    SyncedIsOk(studio.spec, studio.work, env, studio.approved, stored, j);
    var o, takes := studio.RunAttempt(Outage(env));
    OutageLosesAKey(studio.spec, env, before, studio.saved.rows, stored, studio.storage, takes, o,
        old(studio.saved).outputs, j);
    RowsCount(studio.spec, Outage(env), before, studio.saved.rows, stored, studio.storage, takes);
    i := |takes| - 1;
    SyncedRow(rows, env.chapters, i);
    SameButTitle(rows[i], before[i], At(stored, ChapterKey(i)));
  }

  /** A chapter of two chunks: the first is synthesized, the second gets no answer, and the run rolls back;
      with the provider back, the next run renders the chapter, and bills the second chunk alone. */
  method FailAndResume(studio: Studio, env: Env, a: string, b: string) returns (first: Outcome, second: seq<Take>)
    requires studio.Valid() && studio.work == studio.saved && Obliging(studio.spec, env) && studio.spec.paid
    requires env.chapters != [] && studio.saved.rows != [] && !studio.saved.rows[0].status.Done?
    requires env.chapters[0].clean != "" && env.plan(env.chapters[0].clean) == [a, b] && a != b
    requires !Hit(studio.spec, studio.cache, a) && !Hit(studio.spec, studio.cache, b)
    requires !HasUsage(studio.saved.ledger, studio.spec.id, ChunkId(studio.spec, a))
    modifies studio
    ensures studio.Valid() && studio.work == studio.saved && first == Raised
    ensures second != [] && second[0].Rendered? && |second[0].pieces| == 2
    ensures !HasUsage(studio.saved.ledger, studio.spec.id, ChunkId(studio.spec, a))
    ensures HasUsage(studio.saved.ledger, studio.spec.id, ChunkId(studio.spec, b))
  {
    hide *;
    ghost var spec, rows, stored, cache, ledger := studio.spec, studio.saved.rows, studio.storage, studio.cache,
        studio.saved.ledger;
    ghost var outputs := studio.saved.outputs;
    MuteIs(spec, env, b);
    SyncedRow(rows, env.chapters, 0);
    var takes;
    first, takes := studio.RunAttempt(Mute(env, b));
    MutedRunRollsBack(spec, env, a, b, Synced(rows, env.chapters), studio.saved.rows, stored, studio.storage, takes,
        first, outputs, cache);
    AfterRollback(spec, env, a, b, takes, cache, studio.cache, ledger, studio.saved.ledger);
    RowsCount(spec, Mute(env, b), Synced(rows, env.chapters), studio.saved.rows, stored, studio.storage, takes);
    ghost var midRows, midStored, midCache, midLedger := studio.saved.rows, studio.storage, studio.cache,
        studio.saved.ledger;
    ghost var midOutputs := studio.saved.outputs;
    SyncedRow(midRows, env.chapters, 0);
    var o;
    o, second := studio.RunAttempt(env);
    UndisturbedRunEnds(spec, env, Synced(midRows, env.chapters), studio.saved.rows, midStored, studio.storage, second,
        o, midOutputs);
    PendingIsRendered(spec, env, Synced(midRows, env.chapters), studio.saved.rows, midStored, studio.storage, second);
    AfterResume(spec, env, a, b, second, midCache, midLedger, studio.saved.ledger);
  }

  lemma AfterRollback(spec: JobSpec, env: Env, a: string, b: string, takes: seq<Take>,
                      cache0: map<TextDigest, Bytes>, cache: map<TextDigest, Bytes>, ledger0: seq<Usage>,
                          ledger: seq<Usage>)
    requires env.chapters != [] && env.plan(env.chapters[0].clean) == [a, b] && a != b
    requires |takes| == 1 && |PiecesOf(takes[0])| == 1 && !Commits(takes[0])
    requires AllCached(spec, Mute(env, b), takes, cache0, cache)
        && AllBilled(spec, Mute(env, b), takes, cache0, ledger0, ledger)
    requires !Hit(spec, cache0, b)
    ensures Hit(spec, cache, a) && !Hit(spec, cache, b)
    ensures HasUsage(ledger, spec.id, ChunkId(spec, a)) <==> HasUsage(ledger0, spec.id, ChunkId(spec, a))
  {
    hide Hit, HasUsage, ChunkId, AcceptedBy, CommittedBy, PiecesOf, Commits, Mute;
    MuteIs(spec, env, b);
    assert [a, b][..1] == [a];
    OnlyTakeCovers(Mute(env, b), takes, a);
    OnlyTakeCovers(Mute(env, b), takes, b);
  }

  lemma AfterResume(spec: JobSpec, env: Env, a: string, b: string, takes: seq<Take>,
                    cache0: map<TextDigest, Bytes>, ledger0: seq<Usage>, ledger: seq<Usage>)
    requires env.chapters != [] && env.plan(env.chapters[0].clean) == [a, b] && spec.paid
    requires takes != [] && |takes| <= |env.chapters| && takes[0].Rendered? && |takes[0].pieces| == 2
    requires AllBilled(spec, env, takes, cache0, ledger0, ledger)
    requires Hit(spec, cache0, a) && !Hit(spec, cache0, b) && !HasUsage(ledger0, spec.id, ChunkId(spec, a))
    ensures !HasUsage(ledger, spec.id, ChunkId(spec, a)) && HasUsage(ledger, spec.id, ChunkId(spec, b))
  {
    hide Hit, HasUsage, ChunkId, AcceptedBy, CommittedBy, PiecesOf, Commits;
    PiecesOfTake(takes[0]);
    assert [a, b][..2] == [a, b];
    FirstTakeCovers(env, takes, b);
  }

  /** Every chapter can be rendered anew, and one format, which an earlier attempt left, cannot be bound: the
      run passes or is held with the earlier book of that format, beside new books of those it can bind. */
  method StaleBookPasses(studio: Studio, env: Env, stale: Format) returns (o: Outcome, ghost takes: seq<Take>)
    requires studio.Valid() && studio.work == studio.saved && Obliging(studio.spec, env) && HasText(env)
    requires stale in studio.saved.outputs && forall audios, titles :: env.bind(stale, audios, titles).None?
    modifies studio
    ensures studio.Valid() && (o == Passed || o == Held) && |takes| == |env.chapters|
    ensures stale in studio.saved.outputs
        && At(studio.storage, BookKey(stale)) == old(At(studio.storage, BookKey(stale)))
    ensures
      var audios, titles := AudioOf(takes), TitlesOf(env.chapters, takes);
      && stale !in NewOutputs(env, audios, titles)
      && studio.saved.outputs == old(studio.saved).outputs + NewOutputs(env, audios, titles)
      && forall f :: f in NewOutputs(env, audios, titles) ==>
           At(studio.storage, BookKey(f)) == env.bind(f, audios, titles)
  {
    hide *;
    ghost var outputs := studio.saved.outputs;
    var all, manifest;
    o, all, manifest := studio.RunJob(env);
    takes := all;
    RunIsComplete(studio.spec, env, o, takes, outputs);
    NotBound(env, stale, AudioOf(takes), TitlesOf(env.chapters, takes));
    BooksAreNew(studio.spec, env, AudioOf(takes), TitlesOf(env.chapters, takes), studio.saved.outputs, studio.storage);
  }

  lemma RunIsComplete(spec: JobSpec, env: Env, o: Outcome, takes: seq<Take>, outputs: set<Format>)
    requires EndOk(env, o, takes, outputs) && (o == Passed || o == Held)
    ensures NoneFailed(takes) && |takes| == |env.chapters|
  {
    hide NoneFailed;
  }

  lemma NotBound(env: Env, f: Format, audios: seq<Bytes>, titles: seq<string>)
    requires forall audios, titles :: env.bind(f, audios, titles).None?
    ensures f !in NewOutputs(env, audios, titles)
  {
  }

  lemma BooksAreNew(spec: JobSpec, env: Env, audios: seq<Bytes>, titles: seq<string>, outputs: set<Format>,
                    storage: map<Key, Bytes>)
    requires AllBound(env, audios, titles, outputs, storage) && Obliging(spec, env)
    ensures forall f :: f in NewOutputs(env, audios, titles) ==> At(storage, BookKey(f)) == env.bind(f, audios, titles)
  {
    hide At, Answers, MakesValidMedia, Undisturbed;
    assert Faithful(env);
    forall f | f in NewOutputs(env, audios, titles)
      ensures At(storage, BookKey(f)) == env.bind(f, audios, titles)
    {
      assert Bound(env, f, audios, titles, outputs, storage);
    }
  }

  /** A book in which chapter i was finished and has become empty: the run passes or is held, and its
      manifest lists the chapter, which is not in the book. */
  method EmptiedChapterStaysListed(studio: Studio, env: Env, i: nat)
    returns (o: Outcome, manifest: seq<Entry>, ghost takes: seq<Take>)
    requires studio.Valid() && studio.work == studio.saved && Obliging(studio.spec, env) && HasText(env) && Binds(env)
    requires i < |env.chapters| <= |studio.saved.rows| && env.chapters[i].clean == ""
    requires studio.saved.rows[i].status.Done?
    modifies studio
    ensures studio.Valid() && (o == Passed || o == Held) && |takes| == |env.chapters|
    ensures At(studio.storage, ManifestKey) == Some(env.json(manifest))
    ensures Lists(manifest, i) && i !in FilesOf(takes)
  {
    hide *;
    ghost var rows, stored, outputs := studio.saved.rows, studio.storage, studio.saved.outputs;
    ghost var before := Synced(rows, env.chapters);
    SyncedRow(rows, env.chapters, i);
    var all;
    o, all, manifest := studio.RunJob(env);
    takes := all;
    KeepsIsFaithful(studio.spec, env);
    RunIsComplete(studio.spec, env, o, takes, outputs);
    RowsCount(studio.spec, env, before, studio.saved.rows, stored, studio.storage, takes);
    ManifestListsTheBook(studio.spec, env, before, studio.saved.rows, stored, studio.storage, takes, i);
    SpokenChaptersContribute(studio.spec, env, before, studio.saved.rows, stored, studio.storage, takes, i);
  }

  lemma KeepsIsFaithful(spec: JobSpec, env: Env)
    ensures Obliging(spec, env) ==> Faithful(env) && env.available
  {
    hide MakesValidMedia, Undisturbed, ValidMedia, InPlan;
  }
}
