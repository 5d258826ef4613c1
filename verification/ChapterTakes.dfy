/** A run of a job seen chapter by chapter (backend/jobs/pipeline.py:141-474): what the program asks of
    the outside, what may become of a chapter, and what that does to its row and its stored audio. */
module ChapterTakes {
  import opened Wrappers
  import opened ChapterRecords

  datatype Beat = Continue | Stop | Stolen

  /** What storage does with an upload: keep it, keep something else, or fail, perhaps half-way. */
  datatype Put = Kept | Altered(bytes: Bytes) | Refused(left: Option<Bytes>)

  datatype Merge = Merged(audio: Bytes) | Unmerged(left: Option<Bytes>)

  /** The QC check may raise, and its report may lack a verdict. */
  datatype Report = Unreadable | Report(passed: Option<bool>)

  /** A chapter as this attempt reads it: its title and its synthesis text. */
  datatype Chapter = Chapter(title: string, clean: string)

  /** A manifest entry. */
  datatype Entry = Entry(
    index: nat,
    title: string,
    number: Option<nat>,
    sid: Option<TextDigest>,
    sha: Option<Digest>,
    text: Option<TextDigest>)

  /** `piped` says that texts come from the agent pipeline, which commits by itself. */
  datatype Env = Env(
    available: bool,
    piped: bool,
    chapters: seq<Chapter>,
    plan: string -> seq<string>,
    beat: nat -> Beat,
    speak: (nat, Voice, string) -> Option<Bytes>,
    put: nat -> Put,
    fetchFails: nat -> bool,
    merge: seq<Bytes> -> Merge,
    normalize: Bytes -> Option<Bytes>,
    qc: Bytes -> Report,
    bind: (Format, seq<Bytes>, seq<string>) -> Option<Bytes>,
    formats: set<Format>,
    json: seq<Entry> -> Bytes,
    blockOnQc: bool)

  /** Why a chapter failed, with the moment of the decisive question where there is one. */
  datatype Cause =
    | NoAnswer(tick: nat)
    | BadAnswers(tick: nat)
    | NoMerge
    | BadMerge
    | NoReport(audio: Bytes)
    | NoUpload(audio: Bytes, tick: nat)

  /** What became of one chapter in one run, with the pieces accepted for its chunks. */
  datatype Take =
    | Blank
    | NoChunks
    | Resumed(audio: Bytes)
    | Leftover(audio: Bytes)
    | Rendered(audio: Bytes, pieces: seq<Bytes>, tick: nat)
    | Failed(cause: Cause, pieces: seq<Bytes>)

  /** A provider, a merge or a QC check that raises rolls back; the other failures first commit the row as
      pending, and the ledger with it. */
  predicate Commits(t: Take) {
    t.Rendered? || (t.Failed? && (t.cause.BadAnswers? || t.cause.BadMerge? || t.cause.NoUpload?))
  }

  function PiecesOf(t: Take): seq<Bytes> {
    if t.Rendered? || t.Failed? then t.pieces else []
  }

  predicate Spoken(t: Take) {
    t.Resumed? || t.Leftover? || t.Rendered?
  }

  datatype Outcome = Passed | Held | Canceled | Lost | Raised

  datatype Assembled = Whole | NotMerged | Invalid

  function At(storage: map<Key, Bytes>, key: Key): Option<Bytes> {
    if key in storage then Some(storage[key]) else None
  }

  /** What a key holds after an upload. */
  function AfterPut(p: Put, was: Option<Bytes>, bytes: Bytes): Option<Bytes> {
    match p
    case Kept => Some(bytes)
    case Altered(other) => Some(other)
    case Refused(left) => if left.Some? then left else was
  }

  /** The upload at this moment is kept, can be read back, and reads back as what was sent. */
  predicate UploadWorks(env: Env, tick: nat, was: Option<Bytes>, audio: Bytes) {
    !env.put(tick).Refused? && !env.fetchFails(tick + 1) && AfterPut(env.put(tick), was, audio) == Some(audio)
  }

  // ---------- chunks ----------

  /** The first answer of up to three calls, and the moment after it. */
  function Answer(spec: JobSpec, env: Env, tick: nat, chunk: string): (Option<Bytes>, nat) {
    if env.speak(tick, VoiceOf(spec), chunk).Some? then (env.speak(tick, VoiceOf(spec), chunk), tick + 1)
    else if env.speak(tick + 1, VoiceOf(spec), chunk).Some? then (env.speak(tick + 1, VoiceOf(spec), chunk), tick + 2)
    else (env.speak(tick + 2, VoiceOf(spec), chunk), tick + 3)
  }

  datatype Synthesis = Heard(audio: Bytes) | Unanswered | Rejected

  /** A fresh synthesis: an answer that fails validation is asked for once more. */
  function Synthesized(spec: JobSpec, env: Env, tick: nat, chunk: string): (Synthesis, nat) {
    var (a, t) := Answer(spec, env, tick, chunk);
    if a.None? then (Unanswered, t)
    else if ValidMedia(spec, a.value, Some(|chunk|), 0) then (Heard(a.value), t)
    else
      var (b, u) := Answer(spec, env, t, chunk);
      if b.None? then (Unanswered, u)
      else if ValidMedia(spec, b.value, Some(|chunk|), 0) then (Heard(b.value), u)
      else (Rejected, u)
  }

  /** The cache holds valid audio for the chunk. */
  predicate Hit(spec: JobSpec, cache: map<TextDigest, Bytes>, chunk: string) {
    CacheKey(spec, chunk) in cache && ValidMedia(spec, cache[CacheKey(spec, chunk)], Some(|chunk|), 0)
  }

  /** Audio of a chunk: cached when the run began, or heard from the provider in it. */
  ghost predicate Source(spec: JobSpec, env: Env, cache0: map<TextDigest, Bytes>, chunk: string, audio: Bytes) {
    || (Hit(spec, cache0, chunk) && cache0[CacheKey(spec, chunk)] == audio)
    || exists t :: Synthesized(spec, env, t, chunk).0 == Heard(audio)
  }

  /** The provider spoke this audio, for the text of this cache key, in the voice of this job. */
  ghost predicate HeardAs(spec: JobSpec, env: Env, key: TextDigest, audio: Bytes) {
    exists chunk, t :: key == CacheKey(spec, chunk) && Synthesized(spec, env, t, chunk).0 == Heard(audio)
  }

  /** Every entry was there when the run began, or was heard in it. */
  ghost predicate CacheFrom(spec: JobSpec, env: Env, cache0: map<TextDigest, Bytes>, cache: map<TextDigest, Bytes>) {
    forall k :: k in cache ==> CacheAt(cache0, k) == Some(cache[k]) || HeardAs(spec, env, k, cache[k])
  }

  predicate PiecesOk(spec: JobSpec, chunks: seq<string>, pieces: seq<Bytes>) {
    |pieces| <= |chunks| && forall m :: 0 <= m < |pieces| ==> ValidMedia(spec, pieces[m], Some(|chunks[m]|), 0)
  }

  /** After these chunks the cache has valid audio for them, and otherwise for what it had. */
  ghost predicate ChunksCached(spec: JobSpec, chunks: seq<string>, was: map<TextDigest, Bytes>,
      now: map<TextDigest, Bytes>)
  {
    forall c :: Hit(spec, now, c) <==> Hit(spec, was, c) || c in chunks
  }

  /** After these chunks the ledger has, beside what it had, exactly those of a paid job that were not
      cached. */
  ghost predicate ChunksBilled(spec: JobSpec, chunks: seq<string>, cache: map<TextDigest, Bytes>, before: seq<Usage>,
      after: seq<Usage>)
  {
    forall c :: HasUsage(after, spec.id, ChunkId(spec, c))
                <==> HasUsage(before, spec.id, ChunkId(spec, c)) || (spec.paid && c in chunks && !Hit(spec, cache, c))
  }

  // ---------- chapters ----------

  function ReadCache(cache: map<TextDigest, Bytes>, key: TextDigest): Option<Bytes> {
    if key in cache && cache[key] != [] then Some(cache[key]) else None
  }

  /** The files of a list that exist: `merge_audio_files` skips the others. */
  function Present(cache: map<TextDigest, Bytes>, keys: seq<TextDigest>): seq<Bytes> {
    if keys == [] then []
    else Present(cache, keys[..|keys|-1])
         + (if keys[|keys|-1] in cache then [cache[keys[|keys|-1]]] else [])
  }

  function Mastered(env: Env, merged: Bytes): Bytes {
    var n := env.normalize(merged);
    if n.Some? then n.value else merged
  }

  /** The row still speaks the text it was rendered from; an old row without an id is trusted. */
  predicate Current(spec: JobSpec, row: Row, clean: string) {
    row.status.Done? && (row.sid.None? || row.sid == Some(ChapterId(spec, clean)))
  }

  /** The stored copy of a chapter is there and is what was recorded. */
  predicate Usable(row: Row, stored: Option<Bytes>) {
    row.key.Some? && row.sha.Some? && stored.Some? && Digest(stored.value) == row.sha.value
  }

  ghost predicate Dependable(env: Env) {
    forall t :: !env.fetchFails(t)
  }

  /** The chapter's audio, made of one approved piece per chunk, in order. */
  predicate Made(spec: JobSpec, env: Env, clean: string, audio: Bytes, pieces: seq<Bytes>) {
    var chunks := env.plan(clean);
    && |pieces| == |chunks| > 0
    && (forall m :: 0 <= m < |chunks| ==> ValidMedia(spec, pieces[m], Some(|chunks[m]|), 0))
    && env.merge(pieces).Merged? && audio == Mastered(env, env.merge(pieces).audio)
    && ValidMedia(spec, audio, Some(TotalLength(chunks)), |chunks| - 1)
  }

  /** The fact of the environment that made a chapter fail. */
  predicate CauseOk(spec: JobSpec, env: Env, clean: string, stored: Option<Bytes>, cause: Cause, pieces: seq<Bytes>) {
    var chunks := env.plan(clean);
    match cause
    case NoAnswer(tick) => |pieces| < |chunks| && Synthesized(spec, env, tick, chunks[|pieces|]).0 == Unanswered
    case BadAnswers(tick) => |pieces| < |chunks| && Synthesized(spec, env, tick, chunks[|pieces|]).0 == Rejected
    case NoMerge => |pieces| == |chunks| > 0 && env.merge(pieces).Unmerged?
    case BadMerge =>
      && |pieces| == |chunks| > 0 && env.merge(pieces).Merged?
      && !ValidMedia(spec, Mastered(env, env.merge(pieces).audio), Some(TotalLength(chunks)), |chunks| - 1)
    case NoReport(audio) => Made(spec, env, clean, audio, pieces) && env.qc(audio).Unreadable?
    case NoUpload(audio, tick) =>
      Made(spec, env, clean, audio, pieces) && env.qc(audio).Report? && !UploadWorks(env, tick, stored, audio)
  }

  /** A failed chapter is processing or pending; only a failed upload touches its audio. */
  predicate FailedOk(spec: JobSpec, env: Env, clean: string, before: Row, after: Row,
    stored: Option<Bytes>, kept: Option<Bytes>, cause: Cause, pieces: seq<Bytes>)
  {
    && PiecesOk(spec, env.plan(clean), pieces) && CauseOk(spec, env, clean, stored, cause, pieces)
    && if cause.NoUpload?
       then && kept == AfterPut(env.put(cause.tick), stored, cause.audio)
            && after == before.(status := Pending, qcPassed := env.qc(cause.audio).passed, key := None, sha := None)
       else && kept == stored
            && after == before.(status := if Commits(Failed(cause, pieces)) then Pending else Processing)
  }

  /** What a take did to its chapter: the row before and after, the stored bytes before and after. */
  ghost predicate TakeOk(spec: JobSpec, env: Env, i: nat, clean: string, before: Row, after: Row,
    stored: Option<Bytes>, kept: Option<Bytes>, t: Take)
  {
    && (t.Blank? <==> clean == "")
    && (!t.Rendered? && !t.Failed? ==> kept == stored)
    && (t.Leftover? || t.NoChunks? || t.Rendered? || t.Failed? ==>
          !(Current(spec, before, clean) && Usable(before, stored) && Dependable(env)))
    && match t
       case Blank => after == if before.status.Done? then before else before.(status := Skipped)
       case NoChunks => env.plan(clean) == [] && after == before.(status := Skipped)
       case Resumed(audio) =>
         Current(spec, before, clean) && after == before && stored == Some(audio) && before.sha == Some(Digest(audio))
       case Leftover(audio) =>
         Current(spec, before, clean) && after == before && ValidMedia(spec, audio, None, 0)
       case Rendered(audio, pieces, tick) =>
         && Made(spec, env, clean, audio, pieces) && env.qc(audio).Report?
         && UploadWorks(env, tick, stored, audio) && kept == Some(audio)
         && after == Published(spec,
              before.(key := Some(ChapterKey(i)), sha := Some(Digest(audio)), qcPassed := env.qc(audio).passed), clean)
       case Failed(cause, pieces) => FailedOk(spec, env, clean, before, after, stored, kept, cause, pieces)
  }

  ghost predicate Sourced(spec: JobSpec, env: Env, cache0: map<TextDigest, Bytes>, clean: string, t: Take) {
    |PiecesOf(t)| <= |env.plan(clean)|
    && forall m :: 0 <= m < |PiecesOf(t)| ==> Source(spec, env, cache0, env.plan(clean)[m], PiecesOf(t)[m])
  }

  /** The chunks of a chapter that a take accepted. */
  function ChunksOf(env: Env, clean: string, t: Take): seq<string>
    requires |PiecesOf(t)| <= |env.plan(clean)|
  {
    env.plan(clean)[..|PiecesOf(t)|]
  }

  ghost predicate TakeCached(spec: JobSpec, env: Env, clean: string, t: Take, was: map<TextDigest, Bytes>,
      now: map<TextDigest, Bytes>)
  {
    |PiecesOf(t)| <= |env.plan(clean)| && ChunksCached(spec, ChunksOf(env, clean, t), was, now)
  }

  /** The committed ledger after a take: besides what it held, exactly the accepted chunks of a paid job that
      were not cached when the chapter began, unless the take rolled back. */
  ghost predicate TakeBilled(spec: JobSpec, env: Env, clean: string, t: Take, cache: map<TextDigest, Bytes>,
    before: seq<Usage>, after: seq<Usage>)
  {
    |PiecesOf(t)| <= |env.plan(clean)|
    && ChunksBilled(spec, if Commits(t) then ChunksOf(env, clean, t) else [], cache, before, after)
  }

  /** All chapters taken so far, the others untouched. */
  ghost predicate RowsOk(spec: JobSpec, env: Env, before: seq<Row>, after: seq<Row>,
    stored: map<Key, Bytes>, kept: map<Key, Bytes>, takes: seq<Take>)
  {
    && |takes| <= |env.chapters| <= |before| == |after|
    && (forall i :: 0 <= i < |takes| ==>
          TakeOk(spec, env, i, env.chapters[i].clean, before[i], after[i],
                 At(stored, ChapterKey(i)), At(kept, ChapterKey(i)), takes[i]))
    && (forall i :: |takes| <= i < |before| ==>
          after[i] == before[i] && At(kept, ChapterKey(i)) == At(stored, ChapterKey(i)))
  }

  /** The chapters that go into the book, in order. */
  function FilesOf(takes: seq<Take>): seq<nat> {
    if takes == [] then []
    else FilesOf(takes[..|takes|-1]) + (if Spoken(takes[|takes|-1]) then [|takes| - 1] else [])
  }

  function TitlesOf(chapters: seq<Chapter>, takes: seq<Take>): seq<string>
    requires |takes| <= |chapters|
  {
    if takes == [] then []
    else TitlesOf(chapters, takes[..|takes|-1])
         + (if Spoken(takes[|takes|-1]) then [chapters[|takes|-1].title] else [])
  }

  function AudioOf(takes: seq<Take>): seq<Bytes> {
    if takes == [] then []
    else AudioOf(takes[..|takes|-1]) + (if Spoken(takes[|takes|-1]) then [takes[|takes|-1].audio] else [])
  }

  lemma {:induction false} PresentAll(cache: map<TextDigest, Bytes>, keys: seq<TextDigest>)
    requires forall m :: 0 <= m < |keys| ==> keys[m] in cache
    ensures |Present(cache, keys)| == |keys|
    ensures forall m :: 0 <= m < |keys| ==> Present(cache, keys)[m] == cache[keys[m]]
  {
    if keys != [] {
      PresentAll(cache, keys[..|keys|-1]);
    }
  }

  function NewRow(title: string): Row {
    Row(title, Pending, None, None, None, [], None, None)
  }

  /** The rows of a job once every chapter has one. */
  function Synced(rows: seq<Row>, chapters: seq<Chapter>): seq<Row> {
    seq(if |rows| > |chapters| then |rows| else |chapters|, i requires 0 <= i =>
      if i >= |chapters| then (if i < |rows| then rows[i] else NewRow(""))
      else if i < |rows| then rows[i].(title := chapters[i].title)
      else NewRow(chapters[i].title))
  }

  ghost predicate Faithful(env: Env) {
    forall t :: !env.put(t).Altered?
  }

  lemma SyncedNone(rows: seq<Row>)
    ensures Synced(rows, []) == rows
  {
  }

  lemma SyncedNext(rows: seq<Row>, chapters: seq<Chapter>, c: Chapter)
    ensures |Synced(rows, chapters)| >= |chapters| && |Synced(rows, chapters)| >= |rows|
    ensures
      var s := Synced(rows, chapters);
      Synced(rows, chapters + [c])
      == if |chapters| < |s| then s[|chapters| := s[|chapters|].(title := c.title)] else s + [NewRow(c.title)]
  {
  }

  lemma SyncedOk(spec: JobSpec, db: Db, chapters: seq<Chapter>, storage: map<Key, Bytes>,
      approved: map<string, Bytes>, rotten: bool)
    requires Safe(spec, Snapshot(db, storage), approved, rotten)
    ensures
      var next := db.(rows := Synced(db.rows, chapters));
      DbOk(spec, next, approved) && Grows(db, next) && (!rotten ==> Intact(Snapshot(next, storage)))
  {
    hide LedgerOk, ChapterId;
    var next := db.(rows := Synced(db.rows, chapters));
    forall i | 0 <= i < |next.rows| ensures RowOk(spec, i, next.rows[i]) {
      if i < |db.rows| { assert RowOk(spec, i, db.rows[i]); }
    }
    if !rotten {
      forall i | 0 <= i < |next.rows| ensures RowIntact(i, next.rows[i], storage) {
        if i < |db.rows| { assert RowIntact(i, db.rows[i], storage); }
      }
    }
  }

  lemma FaithfulPut(env: Env, t: nat)
    ensures Faithful(env) ==> !env.put(t).Altered?
    ensures forall was, bytes :: env.put(t).Kept? ==> AfterPut(env.put(t), was, bytes) == Some(bytes)
  {
  }

  lemma OutputOk(spec: JobSpec, saved: Db, work: Db, f: Format, approved: map<string, Bytes>)
    requires DbOk(spec, work, approved) && Grows(saved, work)
    ensures DbOk(spec, work.(outputs := work.outputs + {f}), approved)
    ensures Grows(saved, work.(outputs := work.outputs + {f}))
  {
    hide RowOk, LedgerOk;
  }

  lemma IntactRows(spec: JobSpec, saved: Db, work: Db, storage: map<Key, Bytes>, approved: map<string, Bytes>,
      rotten: bool)
    requires Safe(spec, Snapshot(saved, storage), approved, rotten) && work.rows == saved.rows
    ensures !rotten ==> Intact(Snapshot(work, storage))
  {
    hide RowIntact, DbOk;
  }

  lemma RenderedIsSpoken(t: Take)
    ensures Spoken(t) <==> t.Resumed? || t.Leftover? || t.Rendered?
  {
  }

  lemma BlankTake(spec: JobSpec, env: Env, i: nat, before: Row, stored: Option<Bytes>)
    ensures TakeOk(spec, env, i, "", before, if before.status.Done? then before
        else before.(status := Skipped), stored, stored, Blank)
  {
  }

  predicate NoneFailed(takes: seq<Take>) {
    forall k :: 0 <= k < |takes| ==> !takes[k].Failed?
  }

  predicate NoneRendered(takes: seq<Take>) {
    forall k :: 0 <= k < |takes| ==> !takes[k].Rendered?
  }

  /** The files accepted so far are still what was accepted. */
  predicate DiskHolds(disk: map<nat, Bytes>, takes: seq<Take>) {
    forall k :: 0 <= k < |takes| && Spoken(takes[k]) ==> k in disk && disk[k] == takes[k].audio
  }

  /** Some take accepted audio for the chunk. */
  predicate AcceptedBy(env: Env, takes: seq<Take>, chunk: string) {
    exists k :: 0 <= k < |takes| <= |env.chapters| && |PiecesOf(takes[k])| <= |env.plan(env.chapters[k].clean)|
                && chunk in ChunksOf(env, env.chapters[k].clean, takes[k])
  }

  /** Some take accepted audio for the chunk and committed. */
  predicate CommittedBy(env: Env, takes: seq<Take>, chunk: string) {
    exists k :: 0 <= k < |takes| <= |env.chapters| && |PiecesOf(takes[k])| <= |env.plan(env.chapters[k].clean)|
                && Commits(takes[k]) && chunk in ChunksOf(env, env.chapters[k].clean, takes[k])
  }

  ghost predicate AllCached(spec: JobSpec, env: Env, takes: seq<Take>, cache0: map<TextDigest, Bytes>,
      cache: map<TextDigest, Bytes>)
  {
    forall c :: Hit(spec, cache, c) <==> Hit(spec, cache0, c) || AcceptedBy(env, takes, c)
  }

  /** What a run has billed: exactly the chunks of a paid job that it accepted and committed and whose audio
      was not cached when it began. */
  ghost predicate AllBilled(spec: JobSpec, env: Env, takes: seq<Take>, cache0: map<TextDigest, Bytes>,
    ledger0: seq<Usage>, ledger: seq<Usage>)
  {
    forall c :: HasUsage(ledger, spec.id, ChunkId(spec, c))
                <==> HasUsage(ledger0, spec.id, ChunkId(spec, c))
                     || (spec.paid && CommittedBy(env, takes, c) && !Hit(spec, cache0, c))
  }

  ghost predicate AllSourced(spec: JobSpec, env: Env, takes: seq<Take>, cache0: map<TextDigest, Bytes>) {
    |takes| <= |env.chapters|
    && forall k :: 0 <= k < |takes| ==> Sourced(spec, env, cache0, env.chapters[k].clean, takes[k])
  }

  lemma NothingTaken(spec: JobSpec, env: Env, rows: seq<Row>, storage: map<Key, Bytes>, disk: map<nat, Bytes>,
                     ledger: seq<Usage>, cache: map<TextDigest, Bytes>)
    ensures
      var synced := Synced(rows, env.chapters);
      RowsOk(spec, env, synced, synced, storage, storage, [])
    ensures AllBilled(spec, env, [], cache, ledger, ledger) && AllCached(spec, env, [], cache, cache)
    ensures AllSourced(spec, env, [], cache) && CacheFrom(spec, env, cache, cache)
    ensures DiskHolds(disk, []) && NoneFailed([]) && NoneRendered([])
    ensures FilesOf([]) == [] && TitlesOf(env.chapters, []) == []
  {
    hide TakeOk, At, Hit, HasUsage, Sourced, ChunkId;
  }

  lemma RowsCount(spec: JobSpec, env: Env, before: seq<Row>, after: seq<Row>,
                  stored: map<Key, Bytes>, kept: map<Key, Bytes>, takes: seq<Take>)
    requires RowsOk(spec, env, before, after, stored, kept, takes)
    ensures |takes| <= |env.chapters| <= |before| == |after|
  {
  }

  lemma RowsStep(spec: JobSpec, env: Env, before: seq<Row>, was: Db, next: Db, stored: map<Key, Bytes>,
                 held: map<Key, Bytes>, kept: map<Key, Bytes>, takes: seq<Take>, t: Take, i: nat)
    requires RowsOk(spec, env, before, was.rows, stored, held, takes) && i == |takes| < |env.chapters|
    requires Ahead(was, next, i)
    requires TakeOk(spec, env, i, env.chapters[i].clean, was.rows[i], next.rows[i], At(held, ChapterKey(i)),
        At(kept, ChapterKey(i)), t)
    requires forall k :: k != ChapterKey(i) ==> At(kept, k) == At(held, k)
    ensures RowsOk(spec, env, before, next.rows, stored, kept, takes + [t])
  {
    hide TakeOk, At;
  }

  lemma {:induction false} AcceptedStep(env: Env, takes: seq<Take>, t: Take, chunk: string)
    requires |takes| < |env.chapters| && |PiecesOf(t)| <= |env.plan(env.chapters[|takes|].clean)|
    ensures AcceptedBy(env, takes + [t], chunk)
            <==> AcceptedBy(env, takes, chunk) || chunk in ChunksOf(env, env.chapters[|takes|].clean, t)
    ensures CommittedBy(env, takes + [t], chunk)
            <==> || CommittedBy(env, takes, chunk)
                 || (Commits(t) && chunk in ChunksOf(env, env.chapters[|takes|].clean, t))
  {
    hide ChunksOf, PiecesOf, Commits;
    var more := takes + [t];
    assert more[|takes|] == t;
    assert forall k :: 0 <= k < |takes| ==> more[k] == takes[k];
  }

  lemma UnfailedCommits(env: Env, takes: seq<Take>, chunk: string)
    requires NoneFailed(takes)
    ensures AcceptedBy(env, takes, chunk) <==> CommittedBy(env, takes, chunk)
  {
  }

  /** One more chapter: its bill is relative to the cache at its start, the run's to the cache at the run's. */
  lemma BilledStep(spec: JobSpec, env: Env, takes: seq<Take>, t: Take, cache0: map<TextDigest, Bytes>,
                   was: map<TextDigest, Bytes>, now: map<TextDigest, Bytes>,
                   ledger0: seq<Usage>, before: seq<Usage>, after: seq<Usage>)
    requires |takes| < |env.chapters| && NoneFailed(takes)
    requires AllBilled(spec, env, takes, cache0, ledger0, before) && AllCached(spec, env, takes, cache0, was)
    requires TakeBilled(spec, env, env.chapters[|takes|].clean, t, was, before, after)
    requires TakeCached(spec, env, env.chapters[|takes|].clean, t, was, now)
    ensures AllBilled(spec, env, takes + [t], cache0, ledger0, after)
    ensures AllCached(spec, env, takes + [t], cache0, now)
  {
    hide HasUsage, Hit, ChunkId, AcceptedBy, CommittedBy, ChunksOf, PiecesOf, Commits, NoneFailed;
    forall c
      ensures HasUsage(after, spec.id, ChunkId(spec, c))
              <==> HasUsage(ledger0, spec.id, ChunkId(spec, c))
                   || (spec.paid && CommittedBy(env, takes + [t], c) && !Hit(spec, cache0, c))
      ensures Hit(spec, now, c) <==> Hit(spec, cache0, c) || AcceptedBy(env, takes + [t], c)
    {
      AcceptedStep(env, takes, t, c);
      UnfailedCommits(env, takes, c);
    }
  }

  lemma SourcedStep(spec: JobSpec, env: Env, takes: seq<Take>, t: Take, cache0: map<TextDigest, Bytes>)
    requires AllSourced(spec, env, takes, cache0) && |takes| < |env.chapters|
    requires Sourced(spec, env, cache0, env.chapters[|takes|].clean, t)
    ensures AllSourced(spec, env, takes + [t], cache0)
  {
    hide Sourced;
  }

  lemma TakenStep(chapters: seq<Chapter>, takes: seq<Take>, t: Take, wasDisk: map<nat, Bytes>, disk: map<nat, Bytes>)
    requires DiskHolds(wasDisk, takes) && |takes| < |chapters|
    requires forall k :: k != |takes| ==> (k in disk <==> k in wasDisk) && (k in disk ==> disk[k] == wasDisk[k])
    requires Spoken(t) ==> |takes| in disk && disk[|takes|] == t.audio
    ensures DiskHolds(disk, takes + [t])
    ensures FilesOf(takes + [t]) == FilesOf(takes) + if Spoken(t) then [|takes|] else []
    ensures TitlesOf(chapters, takes + [t]) == TitlesOf(chapters, takes) + if Spoken(t)
        then [chapters[|takes|].title] else []
    ensures NoneFailed(takes + [t]) <==> NoneFailed(takes) && !t.Failed?
    ensures NoneRendered(takes + [t]) <==> NoneRendered(takes) && !t.Rendered?
  {
    hide Spoken;
    assert (takes + [t])[..|takes|] == takes;
    assert (takes + [t])[|takes|] == t;
    assert forall k :: 0 <= k < |takes| ==> (takes + [t])[k] == takes[k];
  }

  // ---------- what a step needs of the invariants ----------

  lemma LedgerOf(spec: JobSpec, db: Db, approved: map<string, Bytes>)
    requires DbOk(spec, db, approved)
    ensures LedgerOk(spec, db.ledger, approved)
  {
  }

  lemma WithLedger(spec: JobSpec, db: Db, ledger: seq<Usage>, approved: map<string, Bytes>)
    requires DbOk(spec, db, approved) && LedgerOk(spec, ledger, approved)
    ensures DbOk(spec, db.(ledger := ledger), approved)
  {
    hide LedgerOk, RowOk;
  }

  lemma MoreApprovedSelf(a: map<string, Bytes>)
    ensures MoreApproved(a, a)
  {
  }

  lemma MoreApprovedSoFar(a: map<string, Bytes>, b: map<string, Bytes>, chunk: string, audio: Bytes)
    requires MoreApproved(a, b)
    ensures MoreApproved(a, b[chunk := audio])
  {
  }

  lemma MoreApprovedTransitive(a: map<string, Bytes>, b: map<string, Bytes>, c: map<string, Bytes>)
    requires MoreApproved(a, b) && MoreApproved(b, c)
    ensures MoreApproved(a, c)
  {
  }

  lemma Approve(spec: JobSpec, db: Db, approved: map<string, Bytes>, chunk: string, audio: Bytes)
    requires DbOk(spec, db, approved) && ApprovedOk(spec, approved) && ValidMedia(spec, audio, Some(|chunk|), 0)
    ensures DbOk(spec, db, approved[chunk := audio]) && ApprovedOk(spec, approved[chunk := audio])
  {
    hide RowOk, LedgerOk;
    LedgerStaysOk(spec, db.ledger, approved, approved[chunk := audio]);
  }

  /** Equal chunks share a file, different chunks do not. */
  lemma SameFile(spec: JobSpec, a: string, b: string)
    ensures CacheKey(spec, a) == CacheKey(spec, b) <==> a == b
  {
    TextsHaveTheirOwnIds(spec, a, b);
  }

  lemma GrowsSelf(db: Db)
    ensures Grows(db, db)
  {
  }

  lemma SafeStorage(spec: JobSpec, db: Db, was: map<Key, Bytes>, storage: map<Key, Bytes>,
                    approved: map<string, Bytes>, rotten: bool, key: Key)
    requires Safe(spec, Snapshot(db, was), approved, rotten)
    requires forall k :: k != key ==> At(storage, k) == At(was, k)
    requires key.ChapterKey? ==> key.index < |db.rows| && !db.rows[key.index].status.Done?
    ensures Safe(spec, Snapshot(db, storage), approved, rotten)
  {
    hide DbOk;
    if !rotten {
      forall i | 0 <= i < |db.rows| ensures RowIntact(i, db.rows[i], storage) {
        assert RowIntact(i, db.rows[i], was);
        if key != ChapterKey(i) {
          assert At(storage, ChapterKey(i)) == At(was, ChapterKey(i));
        }
      }
    }
  }

  /** `b` has done nothing to the rows beyond `a` except to row i. */
  predicate Ahead(a: Db, b: Db, i: nat) {
    && |a.rows| == |b.rows| && (forall k :: 0 <= k < |a.rows| && k != i ==> b.rows[k] == a.rows[k])
    && a.ledger <= b.ledger && a.stages <= b.stages && a.outputs <= b.outputs
  }

  lemma CommitReady(spec: JobSpec, saved: Db, work: Db, storage: map<Key, Bytes>, i: nat, row: Row,
                    approved: map<string, Bytes>, rotten: bool)
    requires Safe(spec, Snapshot(saved, storage), approved, rotten) && LedgerOk(spec, work.ledger, approved)
    requires i < |saved.rows| && Ahead(saved, work, i)
    requires RowOk(spec, i, row) && RevisionsKept(saved.rows[i].revisions, row.revisions)
    requires RowIntact(i, row, storage)
    ensures i < |work.rows|
    ensures
      var next := work.(rows := work.rows[i := row]);
      DbOk(spec, next, approved) && Grows(saved, next) && (!rotten ==> Intact(Snapshot(next, storage)))
  {
    hide RowOk, RowIntact, LedgerOk;
  }

  lemma RowOf(spec: JobSpec, db: Db, i: nat, approved: map<string, Bytes>)
    requires DbOk(spec, db, approved) && i < |db.rows|
    ensures RowOk(spec, i, db.rows[i]) && LedgerOk(spec, db.ledger, approved)
  {
  }

  lemma StatusRow(spec: JobSpec, db: Db, i: nat, status: Status, approved: map<string, Bytes>, storage: map<Key, Bytes>)
    requires DbOk(spec, db, approved) && i < |db.rows| && !status.Done?
    ensures
      var row := db.rows[i].(status := status);
      RowOk(spec, i, row) && RevisionsKept(db.rows[i].revisions, row.revisions) && RowIntact(i, row, storage)
    ensures LedgerOk(spec, db.ledger, approved) && Ahead(db, db, i)
  {
    hide LedgerOk;
  }

  lemma ClearedRow(spec: JobSpec, i: nat, was: Row, row: Row, storage: map<Key, Bytes>)
    requires RowOk(spec, i, was)
    requires row == was.(qcPassed := row.qcPassed, status := Pending, key := None, sha := None)
    ensures RowOk(spec, i, row) && RevisionsKept(was.revisions, row.revisions) && RowIntact(i, row, storage)
  {
  }

  lemma PublishedRow(spec: JobSpec, i: nat, was: Row, row: Row, audio: Bytes, clean: string, storage: map<Key, Bytes>)
    requires RowOk(spec, i, was) && !was.status.Done?
    requires row == was.(qcPassed := row.qcPassed, key := Some(ChapterKey(i)), sha := Some(Digest(audio)))
    requires At(storage, ChapterKey(i)) == Some(audio)
    ensures
      var after := Published(spec, row, clean);
      RowOk(spec, i, after) && RevisionsKept(was.revisions, after.revisions) && RowIntact(i, after, storage)
  {
    hide MaxNumber, ChapterId;
    PublishedKeepsTheChain(spec, i, row, clean);
  }

  lemma ProgressOf(spec: JobSpec, saved: Db, work: Db, i: nat, approved: map<string, Bytes>)
    requires work == saved.(ledger := work.ledger) && saved.ledger <= work.ledger
    requires DbOk(spec, work, approved)
    ensures Ahead(saved, work, i) && Grows(saved, work)
  {
  }

  lemma AheadRow(a: Db, b: Db, i: nat, row: Row)
    requires i < |b.rows| && Ahead(a, b, i)
    ensures Ahead(a, b.(rows := b.rows[i := row]), i)
  {
  }

  lemma AheadStage(a: Db, b: Db, i: nat)
    requires Ahead(a, b, i)
    ensures Ahead(a, b.(stages := b.stages + {i}), i)
  {
  }

  lemma AheadSelf(a: Db, i: nat)
    ensures Ahead(a, a, i)
  {
  }

  lemma AheadTwice(a: Db, b: Db, c: Db, i: nat)
    requires Ahead(a, b, i) && Ahead(b, c, i)
    ensures Ahead(a, c, i)
  {
  }

  /** A take that accepted nothing leaves cache and ledger as they were. */
  lemma NothingAccepted(spec: JobSpec, env: Env, clean: string, t: Take, cache0: map<TextDigest, Bytes>,
                        cache: map<TextDigest, Bytes>, ledger: seq<Usage>)
    requires !t.Rendered? && !t.Failed?
    ensures TakeBilled(spec, env, clean, t, cache, ledger, ledger) && TakeCached(spec, env, clean, t, cache, cache)
    ensures Sourced(spec, env, cache0, clean, t)
  {
    hide HasUsage, Hit, ChunkId, Source;
  }

  /** A take that rolled back leaves the committed ledger as it was. */
  lemma RolledBack(spec: JobSpec, env: Env, clean: string, t: Take, cache: map<TextDigest, Bytes>, ledger: seq<Usage>)
    requires !Commits(t) && |PiecesOf(t)| <= |env.plan(clean)|
    ensures TakeBilled(spec, env, clean, t, cache, ledger, ledger)
  {
    hide HasUsage, Hit, ChunkId, PiecesOf;
  }

  lemma CommittedTake(spec: JobSpec, env: Env, clean: string, t: Take, cache: map<TextDigest, Bytes>,
                      before: seq<Usage>, after: seq<Usage>)
    requires Commits(t) && |PiecesOf(t)| <= |env.plan(clean)|
    requires ChunksBilled(spec, env.plan(clean)[..|PiecesOf(t)|], cache, before, after)
    ensures TakeBilled(spec, env, clean, t, cache, before, after)
  {
    hide ChunksBilled;
  }

  lemma CachedTake(spec: JobSpec, env: Env, cache0: map<TextDigest, Bytes>, clean: string, t: Take,
                   was: map<TextDigest, Bytes>, now: map<TextDigest, Bytes>)
    requires |PiecesOf(t)| <= |env.plan(clean)| && ChunksCached(spec, env.plan(clean)[..|PiecesOf(t)|], was, now)
    requires forall m :: 0 <= m < |PiecesOf(t)| ==> Source(spec, env, cache0, env.plan(clean)[m], PiecesOf(t)[m])
    ensures TakeCached(spec, env, clean, t, was, now) && Sourced(spec, env, cache0, clean, t)
  {
    hide ChunksCached, Source, PiecesOf;
  }

  lemma NoChunksTake(spec: JobSpec, env: Env, i: nat, clean: string, before: Row, after: Row, stored: Option<Bytes>)
    requires clean != "" && env.plan(clean) == [] && after == before.(status := Skipped)
    requires !(Current(spec, before, clean) && Usable(before, stored) && Dependable(env))
    ensures TakeOk(spec, env, i, clean, before, after, stored, stored, NoChunks)
  {
    hide Current, Usable, Dependable;
  }

  lemma FailedTake(spec: JobSpec, env: Env, i: nat, clean: string, before: Row, after: Row, stored: Option<Bytes>,
                   cause: Cause, pieces: seq<Bytes>)
    requires clean != "" && !cause.NoUpload?
    requires PiecesOk(spec, env.plan(clean), pieces) && CauseOk(spec, env, clean, stored, cause, pieces)
    requires after == before.(status := if Commits(Failed(cause, pieces)) then Pending else Processing)
    requires !(Current(spec, before, clean) && Usable(before, stored) && Dependable(env))
    ensures TakeOk(spec, env, i, clean, before, after, stored, stored, Failed(cause, pieces))
  {
    hide Current, Usable, Dependable, PiecesOk, CauseOk, Commits;
  }

  lemma UploadFailedTake(spec: JobSpec, env: Env, i: nat, clean: string, before: Row, after: Row,
                         stored: Option<Bytes>, kept: Option<Bytes>, audio: Bytes, pieces: seq<Bytes>, tick: nat)
    requires clean != "" && Made(spec, env, clean, audio, pieces) && env.qc(audio).Report?
    requires after == before.(status := Pending, qcPassed := env.qc(audio).passed, key := None, sha := None)
    requires !UploadWorks(env, tick, stored, audio) && kept == AfterPut(env.put(tick), stored, audio)
    requires !(Current(spec, before, clean) && Usable(before, stored) && Dependable(env))
    ensures TakeOk(spec, env, i, clean, before, after, stored, kept, Failed(NoUpload(audio, tick), pieces))
  {
    hide Current, Usable, Dependable, ValidMedia, UploadWorks, Mastered;
  }

  lemma RenderedTake(spec: JobSpec, env: Env, i: nat, clean: string, before: Row, row: Row,
                     stored: Option<Bytes>, kept: Option<Bytes>, t: Take)
    requires clean != "" && t.Rendered? && UploadWorks(env, t.tick, stored, t.audio) && kept == Some(t.audio)
    requires Made(spec, env, clean, t.audio, t.pieces) && env.qc(t.audio).Report?
    requires row == before.(status := Processing, qcPassed := env.qc(t.audio).passed,
                            key := Some(ChapterKey(i)), sha := Some(Digest(t.audio)))
    requires !(Current(spec, before, clean) && Usable(before, stored) && Dependable(env))
    ensures TakeOk(spec, env, i, clean, before, Published(spec, row, clean), stored, kept, t)
  {
    hide Current, Usable, Dependable, Made, MaxNumber, ChapterId, Superseded, UploadWorks;
  }

  // ---------- one chunk ----------

  /** Rendering one chunk changes what is cached for that chunk only. */
  lemma HitAfter(spec: JobSpec, was: map<TextDigest, Bytes>, now: map<TextDigest, Bytes>, chunk: string, heard: bool)
    requires forall k :: k != CacheKey(spec, chunk) ==> CacheAt(now, k) == CacheAt(was, k)
    requires heard ==> Hit(spec, now, chunk)
    requires !heard ==> !Hit(spec, was, chunk) && !Hit(spec, now, chunk)
    ensures ChunksCached(spec, if heard then [chunk] else [], was, now)
  {
    hide ValidMedia, CacheKey;
    forall c ensures Hit(spec, now, c) <==> Hit(spec, was, c) || c in (if heard then [chunk] else []) {
      SameFile(spec, c, chunk);
      assert c != chunk ==> CacheAt(now, CacheKey(spec, c)) == CacheAt(was, CacheKey(spec, c));
    }
  }

  lemma UsageAfter(spec: JobSpec, ledger: seq<Usage>, chunk: string, c: string)
    ensures HasUsage(ChapterRecords.Recorded(ledger, Usage(spec.id, ChunkId(spec, chunk), |chunk|)), spec.id,
        ChunkId(spec, c))
            <==> HasUsage(ledger, spec.id, ChunkId(spec, c)) || c == chunk
  {
    hide ChunkId, HasUsage;
    TextsHaveTheirOwnIds(spec, c, chunk);
    UsageAppended(ledger, Usage(spec.id, ChunkId(spec, chunk), |chunk|), ChunkId(spec, c));
  }

  lemma UsageAppended(ledger: seq<Usage>, u: Usage, sid: TextDigest)
    ensures HasUsage(ledger + [u], u.job, sid) <==> HasUsage(ledger, u.job, sid) || u.sid == sid
  {
    var after := ledger + [u];
    assert after[|ledger|] == u;
    assert forall k :: 0 <= k < |ledger| ==> after[k] == ledger[k];
  }

  function CacheAt(cache: map<TextDigest, Bytes>, key: TextDigest): Option<Bytes> {
    if key in cache then Some(cache[key]) else None
  }

  /** Audio heard in the run may join a cache all of whose audio is accounted for. */
  lemma CacheFromStep(spec: JobSpec, env: Env, cache0: map<TextDigest, Bytes>, was: map<TextDigest, Bytes>,
                      now: map<TextDigest, Bytes>, chunk: string)
    requires CacheFrom(spec, env, cache0, was)
    requires forall k :: k != CacheKey(spec, chunk) ==> CacheAt(now, k) == CacheAt(was, k)
    requires
      var entry := CacheAt(now, CacheKey(spec, chunk));
      || entry.None? || entry == CacheAt(was, CacheKey(spec, chunk))
      || HeardAs(spec, env, CacheKey(spec, chunk), entry.value)
    ensures CacheFrom(spec, env, cache0, now)
  {
    hide CacheKey, HeardAs;
    forall k | k in now ensures CacheAt(cache0, k) == Some(now[k]) || HeardAs(spec, env, k, now[k]) {
      assert CacheAt(now, k) == Some(now[k]);
    }
  }

  /** Cached audio of a chunk was cached when the run began, or heard in it for this chunk. */
  lemma HitIsSourced(spec: JobSpec, env: Env, cache0: map<TextDigest, Bytes>, cache: map<TextDigest, Bytes>,
                     chunk: string)
    requires CacheFrom(spec, env, cache0, cache) && Hit(spec, cache, chunk)
    ensures Source(spec, env, cache0, chunk, cache[CacheKey(spec, chunk)])
  {
    hide CacheKey, Synthesized, ValidMedia;
    var key := CacheKey(spec, chunk);
    if CacheAt(cache0, key) != Some(cache[key]) {
      var c, t :| key == CacheKey(spec, c) && Synthesized(spec, env, t, c).0 == Heard(cache[key]);
      SameFile(spec, c, chunk);
    }
  }

  predicate ChunkFailure(spec: JobSpec, env: Env, chunks: seq<string>, cause: Cause, pieces: seq<Bytes>) {
    && |pieces| < |chunks| && (cause.NoAnswer? || cause.BadAnswers?)
    && Synthesized(spec, env, cause.tick, chunks[|pieces|]).0 == if cause.NoAnswer? then Unanswered else Rejected
  }

  lemma ChunkFailureIs(spec: JobSpec, env: Env, clean: string, stored: Option<Bytes>, cause: Cause, pieces: seq<Bytes>)
    requires ChunkFailure(spec, env, env.plan(clean), cause, pieces)
    ensures CauseOk(spec, env, clean, stored, cause, pieces) && (cause.NoAnswer? || cause.BadAnswers?)
    ensures PiecesOf(Failed(cause, pieces)) == pieces && |pieces| <= |env.plan(clean)|
    ensures Commits(Failed(cause, pieces)) <==> cause.BadAnswers?
  {
    hide Synthesized;
  }

  lemma MergeFailureIs(spec: JobSpec, env: Env, clean: string, stored: Option<Bytes>, pieces: seq<Bytes>)
    ensures CauseOk(spec, env, clean, stored, NoMerge, pieces) <==> CauseOk(spec, env, clean, None, NoMerge, pieces)
    ensures CauseOk(spec, env, clean, stored, BadMerge, pieces) <==> CauseOk(spec, env, clean, None, BadMerge, pieces)
    ensures Commits(Failed(BadMerge, pieces)) && !Commits(Failed(NoMerge, pieces))
  {
  }

  lemma ReportFailureIs(spec: JobSpec, env: Env, clean: string, stored: Option<Bytes>, audio: Bytes, pieces: seq<Bytes>)
    requires Made(spec, env, clean, audio, pieces) && env.qc(audio).Unreadable?
    ensures CauseOk(spec, env, clean, stored, NoReport(audio), pieces) && !Commits(Failed(NoReport(audio), pieces))
  {
    hide Made;
  }

  lemma PiecesOfTake(t: Take)
    ensures t.Rendered? || t.Failed? ==> PiecesOf(t) == t.pieces
    ensures t.Rendered? || (t.Failed? && t.cause.NoUpload?) ==> Commits(t)
  {
  }

  lemma PiecesAre(spec: JobSpec, chunks: seq<string>, pieces: seq<Bytes>)
    requires |pieces| <= |chunks| && forall m :: 0 <= m < |pieces| ==> ValidMedia(spec, pieces[m], Some(|chunks[m]|), 0)
    ensures PiecesOk(spec, chunks, pieces)
  {
  }

  lemma AllPieces(chunks: seq<string>, pieces: seq<Bytes>)
    requires |pieces| == |chunks|
    ensures chunks[..|pieces|] == chunks
  {
  }

  lemma UploadKept(env: Env, tick: nat, was: Option<Bytes>, audio: Bytes)
    requires UploadWorks(env, tick, was, audio)
    ensures AfterPut(env.put(tick), was, audio) == Some(audio)
  {
  }

  lemma NoChunksYet(spec: JobSpec, chunks: seq<string>, cache: map<TextDigest, Bytes>, ledger: seq<Usage>)
    ensures ChunksCached(spec, chunks[..0], cache, cache) && ChunksBilled(spec, chunks[..0], cache, ledger, ledger)
  {
    hide Hit, HasUsage, ChunkId;
  }

  /** A file that is accepted again is the one that was accepted. */
  lemma StillCached(spec: JobSpec, cache: map<TextDigest, Bytes>, chunk: string, piece: Bytes)
    requires CacheAt(cache, CacheKey(spec, chunk)) == Some(piece) && ValidMedia(spec, piece, Some(|chunk|), 0)
    ensures Hit(spec, cache, chunk)
  {
    hide ValidMedia, CacheKey;
  }

  lemma HeardIsHeard(spec: JobSpec, env: Env, tick: nat, chunk: string, r: Synthesis)
    requires Synthesized(spec, env, tick, chunk).0 == r
    ensures r.Heard? ==> HeardAs(spec, env, CacheKey(spec, chunk), r.audio)
  {
    hide Synthesized, CacheKey;
  }

  /** What one rendered chunk means for cache and ledger. */
  lemma ChunkStep(spec: JobSpec, env: Env, cache0: map<TextDigest, Bytes>, was: map<TextDigest, Bytes>,
                  now: map<TextDigest, Bytes>, before: seq<Usage>, after: seq<Usage>, chunk: string,
                  tick: nat, end: nat, r: Synthesis)
    requires CacheFrom(spec, env, cache0, was)
    requires Hit(spec, was, chunk) ==> r == Heard(was[CacheKey(spec, chunk)]) && now == was && after == before
    requires !Hit(spec, was, chunk) ==>
               && (r, end) == Synthesized(spec, env, tick, chunk)
               && after == if r.Heard? && spec.paid
                           then ChapterRecords.Recorded(before, Usage(spec.id, ChunkId(spec, chunk), |chunk|))
                               else before
    requires forall k :: k != CacheKey(spec, chunk) ==> CacheAt(now, k) == CacheAt(was, k)
    requires r.Heard? ==>
               CacheAt(now, CacheKey(spec, chunk)) == Some(r.audio) && ValidMedia(spec, r.audio, Some(|chunk|), 0)
    requires !r.Heard? ==> ReadCache(now, CacheKey(spec, chunk)).None?
    requires !r.Heard? ==>
               || CacheAt(now, CacheKey(spec, chunk)).None?
               || CacheAt(now, CacheKey(spec, chunk)) == CacheAt(was, CacheKey(spec, chunk))
    ensures CacheFrom(spec, env, cache0, now)
    ensures r.Heard? ==> Source(spec, env, cache0, chunk, r.audio)
    ensures !r.Heard? ==> Synthesized(spec, env, tick, chunk).0 == r
    ensures ChunksCached(spec, if r.Heard? then [chunk] else [], was, now)
    ensures ChunksBilled(spec, if r.Heard? then [chunk] else [], was, before, after)
  {
    hide CacheKey, ChunkId, HasUsage, Synthesized, ChapterRecords.Recorded, CacheFrom;
    if Hit(spec, was, chunk) {
      HitIsSourced(spec, env, cache0, was, chunk);
    } else {
      HeardIsHeard(spec, env, tick, chunk, r);
      CacheFromStep(spec, env, cache0, was, now, chunk);
    }
    HitAfter(spec, was, now, chunk, r.Heard?);
    forall c ensures HasUsage(after, spec.id, ChunkId(spec, c))
                     <==> HasUsage(before, spec.id, ChunkId(spec, c))
                          || (spec.paid && c in (if r.Heard? then [chunk] else []) && !Hit(spec, was, c))
    {
      UsageAfter(spec, before, chunk, c);
    }
  }

  predicate SomeRefused(env: Env, from: nat, to: nat) {
    exists t :: from <= t < to && env.put(t).Refused?
  }

  lemma CachedJoin(spec: JobSpec, a: seq<string>, b: seq<string>, x: map<TextDigest, Bytes>,
      y: map<TextDigest, Bytes>, z: map<TextDigest, Bytes>)
    requires ChunksCached(spec, a, x, y) && ChunksCached(spec, b, y, z)
    ensures ChunksCached(spec, a + b, x, z)
  {
    hide Hit;
  }

  /** Two stretches of chunks: a repeated chunk is cached by then, and billed once. */
  lemma BilledJoin(spec: JobSpec, a: seq<string>, b: seq<string>, x: map<TextDigest, Bytes>, y: map<TextDigest, Bytes>,
                   before: seq<Usage>, mid: seq<Usage>, after: seq<Usage>)
    requires ChunksCached(spec, a, x, y)
    requires ChunksBilled(spec, a, x, before, mid) && ChunksBilled(spec, b, y, mid, after)
    ensures ChunksBilled(spec, a + b, x, before, after)
  {
    hide Hit, HasUsage, ChunkId;
  }

  lemma KeyOfRow(spec: JobSpec, i: nat, row: Row)
    requires RowOk(spec, i, row)
    ensures row.key.Some? ==> row.key.value == ChapterKey(i)
  {
  }

  // ---------- what a run means ----------

  lemma {:induction false} FilesAreSpoken(takes: seq<Take>, i: nat)
    ensures i in FilesOf(takes) <==> i < |takes| && Spoken(takes[i])
  {
    hide Spoken;
    if takes != [] {
      FilesAreSpoken(takes[..|takes|-1], i);
    }
  }

  /** The book has one file per spoken chapter, in index order, each next to its own title and holding
      the audio that was accepted for it. */
  lemma {:induction false} FilesAreAligned(chapters: seq<Chapter>, takes: seq<Take>, k: nat)
    requires |takes| <= |chapters|
    ensures |FilesOf(takes)| == |TitlesOf(chapters, takes)| == |AudioOf(takes)|
    ensures k < |FilesOf(takes)| ==>
              var i := FilesOf(takes)[k];
              && i < |takes| && Spoken(takes[i])
              && TitlesOf(chapters, takes)[k] == chapters[i].title && AudioOf(takes)[k] == takes[i].audio
              && (forall j :: k < j < |FilesOf(takes)| ==> i < FilesOf(takes)[j])
  {
    hide Spoken;
    if takes != [] {
      var rest := takes[..|takes|-1];
      FilesAreAligned(chapters, rest, k);
      forall j | 0 <= j < |FilesOf(rest)| ensures FilesOf(rest)[j] < |rest| {
        FilesAreAligned(chapters, rest, j);
      }
    }
  }

  /** A chapter contributes a file exactly when it has something to say: text that gives chunks, or
      text whose audio was kept. */
  lemma SpokenChaptersContribute(spec: JobSpec, env: Env, before: seq<Row>, after: seq<Row>,
                                 stored: map<Key, Bytes>, kept: map<Key, Bytes>, takes: seq<Take>, i: nat)
    requires RowsOk(spec, env, before, after, stored, kept, takes) && NoneFailed(takes) && i < |takes|
    ensures
      var clean := env.chapters[i].clean;
      && (i in FilesOf(takes) ==> clean != "")
      && (clean != "" && env.plan(clean) != [] ==> i in FilesOf(takes))
      && (clean != "" && env.plan(clean) == []
          ==> (i in FilesOf(takes) <==> after[i] == before[i] && before[i].status.Done?))
  {
    hide Usable, Dependable, At, Published, Made, ValidMedia, Current, UploadWorks, FailedOk;
    CurrentIsDone(spec, before[i], env.chapters[i].clean);
    MadeOfChunks(spec, env, env.chapters[i].clean, takes[i]);
    FilesAreSpoken(takes, i);
    assert TakeOk(spec, env, i, env.chapters[i].clean, before[i], after[i], At(stored, ChapterKey(i)),
        At(kept, ChapterKey(i)), takes[i]);
  }

  /** Where the audio of a file comes from: stored bytes with the recorded checksum, a local file that
      passed validation, or new audio that was validated, uploaded, read back and recorded. */
  lemma FilesAreAccountedFor(spec: JobSpec, env: Env, before: seq<Row>, after: seq<Row>,
                             stored: map<Key, Bytes>, kept: map<Key, Bytes>, takes: seq<Take>, i: nat)
    requires RowsOk(spec, env, before, after, stored, kept, takes) && i in FilesOf(takes)
    ensures i < |takes| && Spoken(takes[i]) && after[i].status.Done?
    ensures
      var audio := takes[i].audio;
      || (takes[i].Resumed? && At(stored, ChapterKey(i)) == Some(audio) && after[i].sha == Some(Digest(audio)))
      || (takes[i].Leftover? && ValidMedia(spec, audio, None, 0))
      || (takes[i].Rendered? && At(kept, ChapterKey(i)) == Some(audio) && after[i].sha == Some(Digest(audio))
          && after[i].key == Some(ChapterKey(i)) && Made(spec, env, env.chapters[i].clean, audio, takes[i].pieces))
    ensures takes[i].Rendered? ==>
              var merged := env.merge(takes[i].pieces).audio;
              takes[i].audio == match env.normalize(merged) { case Some(better) => better case None => merged }
  {
    hide Usable, Dependable, At, Made, ValidMedia, ChapterId, MaxNumber, Superseded;
    FilesAreSpoken(takes, i);
    assert TakeOk(spec, env, i, env.chapters[i].clean, before[i], after[i], At(stored, ChapterKey(i)),
        At(kept, ChapterKey(i)), takes[i]);
    MadeIsMastered(spec, env, env.chapters[i].clean, takes[i]);
  }

  /** The normalized audio, when the normalizer gives some, and otherwise the merged one. */
  lemma MadeIsMastered(spec: JobSpec, env: Env, clean: string, t: Take)
    ensures t.Rendered? && Made(spec, env, clean, t.audio, t.pieces) ==>
              var merged := env.merge(t.pieces).audio;
              t.audio == match env.normalize(merged) { case Some(better) => better case None => merged }
  {
  }

  /** A finished chapter whose stored copy is intact. */
  predicate Finished(row: Row, stored: Option<Bytes>) {
    row.status.Done? && row.revisions != [] && Usable(row, stored)
  }

  /** A rerender touches a finished chapter exactly when its synthesis text changed: then it gains one
      revision, speaking the new text; otherwise its row stays and its stored bytes are used. */
  lemma RerenderIsSelective(spec: JobSpec, env: Env, before: seq<Row>, after: seq<Row>,
                            stored: map<Key, Bytes>, kept: map<Key, Bytes>, takes: seq<Take>, i: nat)
    requires RowsOk(spec, env, before, after, stored, kept, takes) && NoneFailed(takes) && Dependable(env)
    requires i < |takes| && RowOk(spec, i, before[i]) && Finished(before[i], At(stored, ChapterKey(i)))
    ensures
      var clean, prior := env.chapters[i].clean, before[i].revisions;
      var n := |prior|;
      if clean == "" then after[i] == before[i] && takes[i] == Blank
      else if clean == prior[n-1].text then after[i] == before[i] && takes[i] == Resumed(stored[ChapterKey(i)])
      else if env.plan(clean) == [] then after[i] == before[i].(status := Skipped)
      else |after[i].revisions| == n + 1 && after[i].revisions[n].text == clean && after[i].revisions[n].live
           && RevisionsKept(prior, after[i].revisions) && takes[i].Rendered?
  {
    hide ChapterId, MaxNumber, Dependable, ValidMedia;
    var clean := env.chapters[i].clean;
    var last := before[i].revisions[|before[i].revisions|-1];
    TextsHaveTheirOwnIds(spec, clean, last.text);
    assert TakeOk(spec, env, i, clean, before[i], after[i], At(stored, ChapterKey(i)), At(kept, ChapterKey(i)),
        takes[i]);
  }

  /** No chapter's text differs from what was last rendered of it. */
  predicate Unchanged(env: Env, rows: seq<Row>, stored: map<Key, Bytes>) {
    |env.chapters| <= |rows|
    && forall i :: 0 <= i < |env.chapters| && env.chapters[i].clean != "" ==>
         && Finished(rows[i], At(stored, ChapterKey(i)))
         && rows[i].revisions[|rows[i].revisions|-1].text == env.chapters[i].clean
  }

  /** With nothing changed, nothing is rendered and nothing can fail in the chapter loop. */
  lemma UnchangedRendersNothing(spec: JobSpec, env: Env, before: seq<Row>, after: seq<Row>,
                                stored: map<Key, Bytes>, kept: map<Key, Bytes>, takes: seq<Take>)
    requires RowsOk(spec, env, before, after, stored, kept, takes) && Dependable(env)
    requires AllRowsOk(spec, before)
    requires Unchanged(env, before, stored)
    ensures NoneRendered(takes) && NoneFailed(takes)
    ensures forall i :: 0 <= i < |takes| ==>
              if env.chapters[i].clean == "" then takes[i].Blank?
              else takes[i] == Resumed(stored[ChapterKey(i)]) && after[i] == before[i]
  {
    hide ChapterId, MaxNumber, Dependable, Made, Published;
    forall i | 0 <= i < |takes| ensures
      if env.chapters[i].clean == "" then takes[i].Blank?
      else takes[i] == Resumed(stored[ChapterKey(i)]) && after[i] == before[i]
    {
      var clean := env.chapters[i].clean;
      assert TakeOk(spec, env, i, clean, before[i], after[i], At(stored, ChapterKey(i)), At(kept, ChapterKey(i)),
          takes[i]);
      if clean != "" {
        assert RowOk(spec, i, before[i]) && Finished(before[i], At(stored, ChapterKey(i)));
        TextsHaveTheirOwnIds(spec, clean, before[i].revisions[|before[i].revisions|-1].text);
      }
    }
  }

  /** The upload a take made, if it got that far: its moment and its audio. */
  function UploadOf(t: Take): Option<(nat, Bytes)> {
    if t.Rendered? then Some((t.tick, t.audio))
    else if t.Failed? && t.cause.NoUpload? then Some((t.cause.tick, t.cause.audio))
    else None
  }

  predicate UploadFails(env: Env, stored: Option<Bytes>, t: Take) {
    UploadOf(t).Some? && !UploadWorks(env, UploadOf(t).value.0, stored, UploadOf(t).value.1)
  }

  /** A chapter that had audio loses the key to it exactly when it is uploaded anew and storage, at that
      moment, does not keep the upload or cannot give it back.  Its stored bytes change exactly by what
      storage made of an upload.  Its revisions and its active revision stay unless it is rendered. */
  lemma PriorAudioIsLostIffUploadFails(spec: JobSpec, env: Env, before: seq<Row>, after: seq<Row>,
                                       stored: map<Key, Bytes>, kept: map<Key, Bytes>, takes: seq<Take>, i: nat)
    requires RowsOk(spec, env, before, after, stored, kept, takes) && i < |takes| && before[i].key.Some?
    ensures after[i].key.None? <==> UploadFails(env, At(stored, ChapterKey(i)), takes[i])
    ensures
      At(kept, ChapterKey(i)) ==
      match UploadOf(takes[i])
      case Some(u) => AfterPut(env.put(u.0), At(stored, ChapterKey(i)), u.1)
      case None => At(stored, ChapterKey(i))
    ensures !takes[i].Rendered? ==>
              && after[i].revisions == before[i].revisions && after[i].active == before[i].active
              && after[i].sid == before[i].sid
    ensures takes[i].Failed? ==> !after[i].status.Done?
  {
    hide Usable, Dependable, Made, Current, MaxNumber, ChapterId, Superseded, ValidMedia, Mastered, Synthesized,
        PiecesOk;
    assert TakeOk(spec, env, i, env.chapters[i].clean, before[i], after[i], At(stored, ChapterKey(i)),
        At(kept, ChapterKey(i)), takes[i]);
  }

  predicate AllRowsOk(spec: JobSpec, rows: seq<Row>) {
    forall i :: 0 <= i < |rows| ==> RowOk(spec, i, rows[i])
  }

  lemma RowsOfDb(spec: JobSpec, db: Db, approved: map<string, Bytes>)
    requires DbOk(spec, db, approved)
    ensures AllRowsOk(spec, db.rows)
  {
    hide RowOk, LedgerOk;
  }

  /** Writing a book or a manifest does not touch the chapters. */
  lemma RowsOkElsewhere(spec: JobSpec, env: Env, before: seq<Row>, after: seq<Row>,
                        stored: map<Key, Bytes>, kept: map<Key, Bytes>, later: map<Key, Bytes>, takes: seq<Take>)
    requires RowsOk(spec, env, before, after, stored, kept, takes)
    requires forall i: nat :: At(later, ChapterKey(i)) == At(kept, ChapterKey(i))
    ensures RowsOk(spec, env, before, after, stored, later, takes)
  {
    hide TakeOk, At;
  }

  lemma DiskHas(disk: map<nat, Bytes>, takes: seq<Take>, i: nat)
    requires DiskHolds(disk, takes) && i < |takes| && Spoken(takes[i])
    ensures i in disk && disk[i] == takes[i].audio
  {
  }

  lemma UnchangedStorage(spec: JobSpec, env: Env, before: seq<Row>, after: seq<Row>,
                         stored: map<Key, Bytes>, kept: map<Key, Bytes>, takes: seq<Take>)
    requires RowsOk(spec, env, before, after, stored, kept, takes) && NoneRendered(takes) && NoneFailed(takes)
    ensures forall i :: 0 <= i < |before| ==> At(kept, ChapterKey(i)) == At(stored, ChapterKey(i))
  {
    hide At, Usable, Current, Dependable, Made, Published;
    forall i | 0 <= i < |before| ensures At(kept, ChapterKey(i)) == At(stored, ChapterKey(i)) {
      if i < |takes| {
        assert TakeOk(spec, env, i, env.chapters[i].clean, before[i], after[i], At(stored, ChapterKey(i)),
            At(kept, ChapterKey(i)), takes[i]);
      }
    }
  }

  /** The book of a format that could be bound is stored under its key, unless storage altered it: no
      book is read back. */
  ghost predicate Bound(env: Env, f: Format, audios: seq<Bytes>, titles: seq<string>, outputs: set<Format>,
      storage: map<Key, Bytes>)
  {
    env.bind(f, audios, titles).Some? ==>
      f in outputs && (Faithful(env) ==> At(storage, BookKey(f)) == env.bind(f, audios, titles))
  }

  ghost predicate AllBound(env: Env, audios: seq<Bytes>, titles: seq<string>, outputs: set<Format>,
      storage: map<Key, Bytes>)
  {
    forall f :: f in env.formats ==> Bound(env, f, audios, titles, outputs, storage)
  }

  /** The formats that this run can bind. */
  function NewOutputs(env: Env, audios: seq<Bytes>, titles: seq<string>): set<Format> {
    set f | f in env.formats && env.bind(f, audios, titles).Some?
  }

  lemma BothOutputs(env: Env, audios: seq<Bytes>, titles: seq<string>)
    ensures NewOutputs(env, audios, titles)
            == (if Mp3 in env.formats && env.bind(Mp3, audios, titles).Some? then {Mp3} else {})
               + (if M4b in env.formats && env.bind(M4b, audios, titles).Some? then {M4b} else {})
  {
    forall f | f in NewOutputs(env, audios, titles) ensures f == Mp3 || f == M4b {
    }
  }

  lemma BoundOf(env: Env, f: Format, audios: seq<Bytes>, titles: seq<string>, outputs: set<Format>,
      storage: map<Key, Bytes>)
    requires env.bind(f, audios, titles).Some? ==>
               f in outputs && (Faithful(env) ==> At(storage, BookKey(f)) == env.bind(f, audios, titles))
    ensures Bound(env, f, audios, titles, outputs, storage)
  {
  }

  lemma BoundBoth(env: Env, audios: seq<Bytes>, titles: seq<string>, outputs: set<Format>, kept: map<Key, Bytes>,
                  moreOutputs: set<Format>, later: map<Key, Bytes>)
    requires Mp3 in env.formats ==> Bound(env, Mp3, audios, titles, outputs, kept)
    requires outputs <= moreOutputs && forall k :: k != BookKey(M4b) ==> At(later, k) == At(kept, k)
    ensures (M4b in env.formats ==> Bound(env, M4b, audios, titles, moreOutputs, later))
            ==> AllBound(env, audios, titles, moreOutputs, later)
  {
    hide Faithful, At;
    if M4b in env.formats ==> Bound(env, M4b, audios, titles, moreOutputs, later) {
      forall f | f in env.formats ensures Bound(env, f, audios, titles, moreOutputs, later) {
        if f.Mp3? {
          assert Bound(env, Mp3, audios, titles, outputs, kept);
          assert At(later, BookKey(Mp3)) == At(kept, BookKey(Mp3));
        }
      }
    }
  }

  lemma AllBoundStays(env: Env, audios: seq<Bytes>, titles: seq<string>, outputs: set<Format>, kept: map<Key, Bytes>,
      later: map<Key, Bytes>)
    requires AllBound(env, audios, titles, outputs, kept)
    requires forall k :: k != ManifestKey ==> At(later, k) == At(kept, k)
    ensures AllBound(env, audios, titles, outputs, later)
  {
    hide Faithful, At;
  }

  lemma CurrentIsDone(spec: JobSpec, row: Row, clean: string)
    ensures Current(spec, row, clean) ==> row.status.Done?
  {
  }

  lemma MadeOfChunks(spec: JobSpec, env: Env, clean: string, t: Take)
    ensures t.Rendered? && Made(spec, env, clean, t.audio, t.pieces) ==> env.plan(clean) != []
  {
  }

  lemma NoneRefused(env: Env, tick: nat)
    ensures !SomeRefused(env, tick, tick)
  {
  }

  lemma OneRefused(env: Env, tick: nat)
    ensures SomeRefused(env, tick, tick + 1) <==> env.put(tick).Refused?
  {
  }

  lemma RefusedJoin(env: Env, a: nat, b: nat, c: nat)
    requires a <= b <= c
    ensures SomeRefused(env, a, c) <==> SomeRefused(env, a, b) || SomeRefused(env, b, c)
  {
    if SomeRefused(env, a, c) {
      var t :| a <= t < c && env.put(t).Refused?;
      assert t < b ==> SomeRefused(env, a, b);
    }
  }

  // ---------- how a run ends ----------

  /** Every way out has its cause: the heartbeats, a provider that is not available, a failed chapter (whose
      take names the cause), nothing to say, nothing bound now or before, or a refused upload. */
  ghost predicate EndOk(env: Env, o: Outcome, takes: seq<Take>, outputs: set<Format>) {
    match o
    case Lost => NoneFailed(takes) && exists t :: env.beat(t) == Stolen
    case Canceled => NoneFailed(takes) && exists t :: env.beat(t) == Stop
    case Raised =>
      || !env.available
      || (takes != [] && takes[|takes|-1].Failed? && NoneFailed(takes[..|takes|-1]))
      || (NoneFailed(takes) && |takes| == |env.chapters|
          && (|| FilesOf(takes) == []
              || outputs + NewOutputs(env, AudioOf(takes), TitlesOf(env.chapters, takes)) == {}
              || exists t :: env.put(t).Refused?))
    case _ =>
      && env.available && NoneFailed(takes) && |takes| == |env.chapters| && FilesOf(takes) != []
      && outputs + NewOutputs(env, AudioOf(takes), TitlesOf(env.chapters, takes)) != {}
  }

  lemma NotAvailable(env: Env, outputs: set<Format>)
    requires !env.available
    ensures EndOk(env, Raised, [], outputs)
  {
  }

  lemma Stopped(env: Env, o: Outcome, takes: seq<Take>, outputs: set<Format>, beats: seq<nat>)
    requires o == Raised || o == Canceled || o == Lost
    requires o == Raised ==> takes != [] && takes[|takes|-1].Failed? && NoneFailed(takes[..|takes|-1])
    requires o != Raised ==> NoneFailed(takes) && |beats| == |takes| + 1
    requires o == Canceled ==> env.beat(beats[|takes|]) == Stop
    requires o == Lost ==> env.beat(beats[|takes|]) == Stolen
    ensures EndOk(env, o, takes, outputs)
  {
    hide NoneFailed, FilesOf, NewOutputs;
  }

  lemma FinishedEnd(env: Env, o: Outcome, takes: seq<Take>, outputs: set<Format>, from: nat, to: nat)
    requires env.available && NoneFailed(takes) && |takes| == |env.chapters|
    requires o == Passed || o == Held || o == Raised
    requires o == Raised <==>
               || FilesOf(takes) == []
               || outputs + NewOutputs(env, AudioOf(takes), TitlesOf(env.chapters, takes)) == {}
               || SomeRefused(env, from, to)
    ensures EndOk(env, o, takes, outputs)
  {
    hide NoneFailed, FilesOf, NewOutputs, AudioOf, TitlesOf;
  }
}
