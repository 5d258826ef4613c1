/** When a run of a job succeeds, and the two ways in which it keeps less than it promises
    (backend/jobs/pipeline.py:71-588): what a failed upload costs, and what is never billed. */
module RunOutcomes {
  import opened Wrappers
  import opened ChapterRecords
  import opened ChapterTakes

  // ---------- an outside that plays along ----------

  predicate InPlan(env: Env, chunk: string) {
    exists i :: 0 <= i < |env.chapters| && chunk in env.plan(env.chapters[i].clean)
  }

  /** The provider is there and answers every chunk of the job with audio that passes validation. */
  ghost predicate Answers(spec: JobSpec, env: Env) {
    && env.available
    && forall t, c :: InPlan(env, c) ==>
         var answer := env.speak(t, VoiceOf(spec), c);
         answer.Some? && ValidMedia(spec, answer.value, Some(|c|), 0)
  }

  /** Valid pieces merge into valid audio, on which the QC check reports. */
  ghost predicate MakesValidMedia(spec: JobSpec, env: Env) {
    && (forall audio :: env.qc(audio).Report?)
    && forall i, pieces ::
         0 <= i < |env.chapters| && pieces != [] && |pieces| == |env.plan(env.chapters[i].clean)|
         && PiecesOk(spec, env.plan(env.chapters[i].clean), pieces) ==>
           Masters(spec, env, env.plan(env.chapters[i].clean), pieces)
  }

  predicate Masters(spec: JobSpec, env: Env, chunks: seq<string>, pieces: seq<Bytes>)
    requires chunks != []
  {
    && env.merge(pieces).Merged?
    && ValidMedia(spec, Mastered(env, env.merge(pieces).audio), Some(TotalLength(chunks)), |chunks| - 1)
  }

  ghost predicate KeepsUploads(env: Env) {
    Dependable(env) && forall t :: env.put(t).Kept?
  }

  ghost predicate Undisturbed(env: Env) {
    forall t :: env.beat(t) == Continue
  }

  ghost predicate Obliging(spec: JobSpec, env: Env) {
    Answers(spec, env) && MakesValidMedia(spec, env) && KeepsUploads(env) && Undisturbed(env)
  }

  predicate HasText(env: Env) {
    exists i :: 0 <= i < |env.chapters| && env.chapters[i].clean != "" && env.plan(env.chapters[i].clean) != []
  }

  /** Some requested format can always be bound. */
  ghost predicate Binds(env: Env) {
    exists f :: f in env.formats && forall audios, titles :: env.bind(f, audios, titles).Some?
  }

  // ---------- success ----------

  lemma InPlanHere(env: Env, i: nat, m: nat)
    requires i < |env.chapters| && m < |env.plan(env.chapters[i].clean)|
    ensures InPlan(env, env.plan(env.chapters[i].clean)[m])
  {
  }

  lemma AnswersIsThere(spec: JobSpec, env: Env)
    requires Answers(spec, env)
    ensures env.available
  {
    hide ValidMedia, InPlan;
  }

  lemma ChunkIsHeard(spec: JobSpec, env: Env, chunk: string, tick: nat)
    requires Answers(spec, env) && InPlan(env, chunk)
    ensures Synthesized(spec, env, tick, chunk).0.Heard?
  {
    hide ValidMedia, InPlan;
  }

  /** With a provider that answers, valid media and QC reports, only an upload can fail. */
  lemma OnlyUploadsFail(spec: JobSpec, env: Env, i: nat, stored: Option<Bytes>, cause: Cause, pieces: seq<Bytes>)
    requires Answers(spec, env) && MakesValidMedia(spec, env) && i < |env.chapters|
    requires PiecesOk(spec, env.plan(env.chapters[i].clean), pieces)
    requires CauseOk(spec, env, env.chapters[i].clean, stored, cause, pieces)
    ensures cause.NoUpload? && !UploadWorks(env, cause.tick, stored, cause.audio)
  {
    hide ValidMedia, Synthesized, Made, Mastered, PiecesOk, TotalLength, UploadWorks;
    var chunks := env.plan(env.chapters[i].clean);
    assert pieces != [] && |pieces| == |chunks| ==> Masters(spec, env, chunks, pieces);
    if cause.NoAnswer? || cause.BadAnswers? {
      InPlanHere(env, i, |pieces|);
      ChunkIsHeard(spec, env, chunks[|pieces|], cause.tick);
    }
  }

  lemma KeptUploadWorks(env: Env, tick: nat, was: Option<Bytes>, audio: Bytes)
    requires KeepsUploads(env)
    ensures UploadWorks(env, tick, was, audio)
  {
  }

  lemma FailedTakeHasCause(spec: JobSpec, env: Env, before: seq<Row>, after: seq<Row>,
                           stored: map<Key, Bytes>, kept: map<Key, Bytes>, takes: seq<Take>, k: nat)
    requires RowsOk(spec, env, before, after, stored, kept, takes) && k < |takes| && takes[k].Failed?
    ensures FailedOk(spec, env, env.chapters[k].clean, before[k], after[k],
              At(stored, ChapterKey(k)), At(kept, ChapterKey(k)), takes[k].cause, takes[k].pieces)
  {
    hide FailedOk, At, Current, Usable, Dependable;
    assert TakeOk(spec, env, k, env.chapters[k].clean, before[k], after[k], At(stored, ChapterKey(k)),
        At(kept, ChapterKey(k)), takes[k]);
  }

  lemma NothingFails(spec: JobSpec, env: Env, before: seq<Row>, after: seq<Row>,
                     stored: map<Key, Bytes>, kept: map<Key, Bytes>, takes: seq<Take>)
    requires RowsOk(spec, env, before, after, stored, kept, takes) && Obliging(spec, env)
    ensures NoneFailed(takes)
  {
    hide RowsOk, At, Answers, MakesValidMedia, KeepsUploads, UploadWorks, CauseOk, PiecesOk;
    RowsCount(spec, env, before, after, stored, kept, takes);
    forall k | 0 <= k < |takes| ensures !takes[k].Failed? {
      if takes[k].Failed? {
        var t := takes[k];
        FailedTakeHasCause(spec, env, before, after, stored, kept, takes, k);
        OnlyUploadsFail(spec, env, k, At(stored, ChapterKey(k)), t.cause, t.pieces);
        KeptUploadWorks(env, t.cause.tick, At(stored, ChapterKey(k)), t.cause.audio);
      }
    }
  }

  /** A run to which nothing happens gets to its end, and passes or is held exactly when it has something
      to say and some output, made now or by an earlier attempt. */
  lemma UndisturbedRunEnds(spec: JobSpec, env: Env, before: seq<Row>, after: seq<Row>, stored: map<Key, Bytes>,
                           kept: map<Key, Bytes>, takes: seq<Take>, o: Outcome, outputs: set<Format>)
    requires RowsOk(spec, env, before, after, stored, kept, takes) && EndOk(env, o, takes, outputs)
    requires Obliging(spec, env)
    ensures NoneFailed(takes) && |takes| == |env.chapters|
    ensures o == Passed || o == Held
            <==> FilesOf(takes) != [] && outputs + NewOutputs(env, AudioOf(takes), TitlesOf(env.chapters, takes)) != {}
  {
    hide RowsOk, At, MakesValidMedia, UploadWorks, FilesOf, NewOutputs, AudioOf, TitlesOf;
    NothingFails(spec, env, before, after, stored, kept, takes);
  }

  lemma TextGivesFiles(spec: JobSpec, env: Env, before: seq<Row>, after: seq<Row>,
                       stored: map<Key, Bytes>, kept: map<Key, Bytes>, takes: seq<Take>)
    requires RowsOk(spec, env, before, after, stored, kept, takes) && NoneFailed(takes)
    requires |takes| == |env.chapters| && HasText(env)
    ensures FilesOf(takes) != []
  {
    hide RowsOk, At, NoneFailed, FilesOf;
    var i :| 0 <= i < |env.chapters| && env.chapters[i].clean != "" && env.plan(env.chapters[i].clean) != [];
    SpokenChaptersContribute(spec, env, before, after, stored, kept, takes, i);
  }

  lemma NotObliging(spec: JobSpec, env: Env)
    requires !env.available
    ensures !Obliging(spec, env)
  {
    hide MakesValidMedia, KeepsUploads, Undisturbed, ValidMedia, InPlan;
  }

  /** With a provider that answers, valid media, storage that keeps what it is given and heartbeats that
      go on, a job with something to say and something to show passes, or is held for review. */
  lemma ObligingRunSucceeds(spec: JobSpec, env: Env, before: seq<Row>, after: seq<Row>, stored: map<Key, Bytes>,
                            kept: map<Key, Bytes>, takes: seq<Take>, o: Outcome, outputs: set<Format>)
    requires RowsOk(spec, env, before, after, stored, kept, takes) && EndOk(env, o, takes, outputs)
    requires Obliging(spec, env) && HasText(env) && (outputs != {} || Binds(env))
    ensures o == Passed || o == Held
  {
    hide RowsOk, At, Obliging, HasText, FilesOf, NoneFailed, EndOk, AudioOf, TitlesOf;
    UndisturbedRunEnds(spec, env, before, after, stored, kept, takes, o, outputs);
    TextGivesFiles(spec, env, before, after, stored, kept, takes);
    if outputs == {} {
      var f :| f in env.formats && forall audios, titles :: env.bind(f, audios, titles).Some?;
      assert f in NewOutputs(env, AudioOf(takes), TitlesOf(env.chapters, takes));
    }
  }

  // ---------- storage that refuses ----------

  /** The same outside with storage that takes no writes. */
  function Outage(env: Env): Env {
    env.(put := (t: nat) => Refused(None))
  }

  lemma OutageIs(spec: JobSpec, env: Env)
    ensures Outage(env).chapters == env.chapters && (Obliging(spec, env) ==> Outage(env).available)
  {
    hide InPlan, ValidMedia, MakesValidMedia, KeepsUploads, Undisturbed;
  }

  lemma OutageMakesTheSame(spec: JobSpec, env: Env)
    requires Answers(spec, env) && MakesValidMedia(spec, env) && Undisturbed(env)
    ensures Answers(spec, Outage(env)) && MakesValidMedia(spec, Outage(env)) && Undisturbed(Outage(env))
  {
    hide ValidMedia, PiecesOk, TotalLength;
    var out := Outage(env);
    assert forall c :: InPlan(out, c) <==> InPlan(env, c);
    forall i, pieces | 0 <= i < |out.chapters| && pieces != [] && |pieces| == |out.plan(out.chapters[i].clean)|
                       && PiecesOk(spec, out.plan(out.chapters[i].clean), pieces)
      ensures Masters(spec, out, out.plan(out.chapters[i].clean), pieces)
    {
      assert Masters(spec, env, env.plan(env.chapters[i].clean), pieces);
    }
  }

  /** Every chapter with text has audio from before. */
  predicate AllFinished(env: Env, rows: seq<Row>, stored: map<Key, Bytes>) {
    |env.chapters| <= |rows|
    && forall i :: 0 <= i < |env.chapters| && env.chapters[i].clean != ""
        ==> Finished(rows[i], At(stored, ChapterKey(i)))
  }

  /** A chapter to be spoken anew. */
  predicate Changed(env: Env, rows: seq<Row>, i: nat)
    requires i < |env.chapters| <= |rows|
  {
    && env.chapters[i].clean != "" && env.plan(env.chapters[i].clean) != [] && rows[i].revisions != []
    && rows[i].revisions[|rows[i].revisions|-1].text != env.chapters[i].clean
  }

  lemma ChangedIsNotCurrent(spec: JobSpec, env: Env, rows: seq<Row>, i: nat)
    requires i < |env.chapters| <= |rows| && RowOk(spec, i, rows[i]) && Changed(env, rows, i)
    ensures !Current(spec, rows[i], env.chapters[i].clean)
  {
    hide ChapterId;
    TextsHaveTheirOwnIds(spec, env.chapters[i].clean, rows[i].revisions[|rows[i].revisions|-1].text);
  }

  /** Without uploads, a chapter to be spoken anew fails. */
  lemma ChangedFails(spec: JobSpec, env: Env, before: seq<Row>, after: seq<Row>,
                     stored: map<Key, Bytes>, kept: map<Key, Bytes>, takes: seq<Take>, i: nat)
    requires RowsOk(spec, env, before, after, stored, kept, takes) && i < |takes|
    requires RowOk(spec, i, before[i]) && Changed(env, before, i)
    requires forall t :: env.put(t).Refused?
    ensures takes[i].Failed?
  {
    hide At, Current, Usable, Dependable, RowOk, Made, Published, FailedOk, ValidMedia;
    ChangedIsNotCurrent(spec, env, before, i);
    assert TakeOk(spec, env, i, env.chapters[i].clean, before[i], after[i], At(stored, ChapterKey(i)),
        At(kept, ChapterKey(i)), takes[i]);
  }

  /** One outage while a finished job is rerendered with one changed text: the run raises at a chapter
      that had audio, and that chapter has lost the key to it, although its bytes are still stored
      unharmed and its last revision still names them. */
  lemma OutageLosesAKey(spec: JobSpec, env: Env, before: seq<Row>, after: seq<Row>, stored: map<Key, Bytes>,
                        kept: map<Key, Bytes>, takes: seq<Take>, o: Outcome, outputs: set<Format>, j: nat)
    requires Obliging(spec, env) && AllRowsOk(spec, before)
    requires RowsOk(spec, Outage(env), before, after, stored, kept, takes) && EndOk(Outage(env), o, takes, outputs)
    requires AllFinished(env, before, stored) && j < |env.chapters| && Changed(env, before, j)
    ensures o == Raised && takes != []
    ensures
      var i := |takes| - 1;
      && Finished(before[i], At(stored, ChapterKey(i))) && before[i].key == Some(ChapterKey(i))
      && after[i].key.None? && !after[i].status.Done?
      && after[i].revisions == before[i].revisions && after[i].active == before[i].active
      && At(kept, ChapterKey(i)) == At(stored, ChapterKey(i))
  {
    hide Answers, MakesValidMedia, Made, Changed, ValidMedia, CauseOk, PiecesOk, RowsOk, Usable, FilesOf, NewOutputs,
      AudioOf, TitlesOf, FailedOk, Current;
    var out := Outage(env);
    OutageMakesTheSame(spec, env);
    AnswersIsThere(spec, env);
    RowsCount(spec, out, before, after, stored, kept, takes);
    if NoneFailed(takes) {
      if |takes| == |env.chapters| {
        ChangedInOutage(env, before, j);
        ChangedFails(spec, out, before, after, stored, kept, takes, j);
      }
    }
    assert o == Raised && takes[|takes|-1].Failed?;
    OutageTake(spec, out, before, after, stored, kept, takes, |takes| - 1);
  }

  lemma ChangedInOutage(env: Env, rows: seq<Row>, i: nat)
    requires i < |env.chapters| <= |rows|
    ensures Changed(Outage(env), rows, i) <==> Changed(env, rows, i)
  {
  }

  lemma OutageTake(spec: JobSpec, env: Env, before: seq<Row>, after: seq<Row>,
                   stored: map<Key, Bytes>, kept: map<Key, Bytes>, takes: seq<Take>, i: nat)
    requires Answers(spec, env) && MakesValidMedia(spec, env) && forall t :: env.put(t) == Refused(None)
    requires RowsOk(spec, env, before, after, stored, kept, takes) && i < |takes| && takes[i].Failed?
    requires AllRowsOk(spec, before) && AllFinished(env, before, stored)
    ensures Finished(before[i], At(stored, ChapterKey(i))) && before[i].key == Some(ChapterKey(i))
    ensures after[i].key.None? && !after[i].status.Done?
    ensures after[i].revisions == before[i].revisions && after[i].active == before[i].active
    ensures At(kept, ChapterKey(i)) == At(stored, ChapterKey(i))
  {
    hide Answers, MakesValidMedia, Made, ValidMedia, CauseOk, PiecesOk, RowsOk, Current, At, RowOk;
    RowsCount(spec, env, before, after, stored, kept, takes);
    FailedTakeHasCause(spec, env, before, after, stored, kept, takes, i);
    OnlyUploadsFail(spec, env, i, At(stored, ChapterKey(i)), takes[i].cause, takes[i].pieces);
    FailedIsNotBlank(spec, env, before, after, stored, kept, takes, i);
    KeyOfRow(spec, i, before[i]);
  }

  lemma FailedIsNotBlank(spec: JobSpec, env: Env, before: seq<Row>, after: seq<Row>,
                         stored: map<Key, Bytes>, kept: map<Key, Bytes>, takes: seq<Take>, i: nat)
    requires RowsOk(spec, env, before, after, stored, kept, takes) && i < |takes| && takes[i].Failed?
    ensures env.chapters[i].clean != ""
  {
    hide At, Current, Usable, Dependable, FailedOk;
    assert TakeOk(spec, env, i, env.chapters[i].clean, before[i], after[i], At(stored, ChapterKey(i)),
        At(kept, ChapterKey(i)), takes[i]);
  }

  // ---------- what is not billed ----------

  lemma RenderedIsCommitted(spec: JobSpec, env: Env, before: seq<Row>, after: seq<Row>,
                            stored: map<Key, Bytes>, kept: map<Key, Bytes>, takes: seq<Take>, i: nat, m: nat)
    requires RowsOk(spec, env, before, after, stored, kept, takes) && i < |takes| && takes[i].Rendered?
    requires m < |env.plan(env.chapters[i].clean)|
    ensures CommittedBy(env, takes, env.plan(env.chapters[i].clean)[m])
  {
    hide At, Current, Usable, Dependable, Published, UploadWorks, FailedOk, ValidMedia, Mastered;
    var chunks := env.plan(env.chapters[i].clean);
    assert TakeOk(spec, env, i, env.chapters[i].clean, before[i], after[i], At(stored, ChapterKey(i)),
        At(kept, ChapterKey(i)), takes[i]);
    assert chunks[..|takes[i].pieces|] == chunks;
    assert chunks[m] in ChunksOf(env, env.chapters[i].clean, takes[i]);
  }

  /** A chunk of a chapter that a run rendered is in the committed ledger after the run exactly when it was
      there before, or the job is paid and the chunk was not cached when the run began. */
  lemma RenderedChunkIsBilledIff(spec: JobSpec, env: Env, before: seq<Row>, after: seq<Row>,
                                 stored: map<Key, Bytes>, kept: map<Key, Bytes>, takes: seq<Take>,
                                 cache: map<TextDigest, Bytes>, ledger0: seq<Usage>, ledger: seq<Usage>, i: nat, m: nat)
    requires RowsOk(spec, env, before, after, stored, kept, takes) && i < |takes| && takes[i].Rendered?
    requires AllBilled(spec, env, takes, cache, ledger0, ledger) && m < |env.plan(env.chapters[i].clean)|
    ensures
      var chunk := env.plan(env.chapters[i].clean)[m];
      HasUsage(ledger, spec.id, ChunkId(spec, chunk))
      <==> HasUsage(ledger0, spec.id, ChunkId(spec, chunk)) || (spec.paid && !Hit(spec, cache, chunk))
  {
    hide HasUsage, Hit, ChunkId, CommittedBy, RowsOk;
    RowsCount(spec, env, before, after, stored, kept, takes);
    RenderedIsCommitted(spec, env, before, after, stored, kept, takes, i, m);
  }

  /** The same outside with a provider that never speaks one chunk. */
  function Mute(env: Env, chunk: string): Env {
    env.(speak := (t: nat, v: Voice, c: string) => if c == chunk then None else env.speak(t, v, c))
  }

  lemma MuteIs(spec: JobSpec, env: Env, chunk: string)
    ensures Mute(env, chunk).chapters == env.chapters && Mute(env, chunk).plan == env.plan
    ensures Obliging(spec, env) ==> env.available && Mute(env, chunk).available
  {
    hide InPlan, ValidMedia, MakesValidMedia, KeepsUploads, Undisturbed;
  }

  lemma Muted(spec: JobSpec, env: Env, a: string, b: string, tick: nat)
    requires Answers(spec, env) && InPlan(env, a) && a != b
    ensures Synthesized(spec, Mute(env, b), tick, a).0.Heard?
    ensures Synthesized(spec, Mute(env, b), tick, b).0 == Unanswered
  {
    hide ValidMedia, InPlan;
  }

  lemma NeverHeard(spec: JobSpec, env: Env, cache: map<TextDigest, Bytes>, chunk: string)
    requires !Hit(spec, cache, chunk) && forall t :: !Synthesized(spec, env, t, chunk).0.Heard?
    ensures forall audio :: !Source(spec, env, cache, chunk, audio)
  {
    hide Hit, Synthesized;
  }

  lemma MutedTake(spec: JobSpec, env: Env, a: string, b: string, before: Row, after: Row,
                  stored: Option<Bytes>, kept: Option<Bytes>, t: Take, cache: map<TextDigest, Bytes>)
    requires Answers(spec, env) && env.chapters != [] && env.chapters[0].clean != ""
    requires env.plan(env.chapters[0].clean) == [a, b] && a != b && !Hit(spec, cache, b)
    requires TakeOk(spec, Mute(env, b), 0, env.chapters[0].clean, before, after, stored, kept, t)
    requires Sourced(spec, Mute(env, b), cache, env.chapters[0].clean, t) && !before.status.Done?
    ensures t.Failed? && t.cause.NoAnswer? && |t.pieces| == 1 && after == before.(status := Processing)
  {
    hide ValidMedia, Synthesized, Hit, Usable, Dependable, Published, UploadWorks, Answers, PiecesOk, Mastered, Source;
    var mute := Mute(env, b);
    InPlanHere(env, 0, 0);
    forall t: nat ensures Synthesized(spec, mute, t, a).0.Heard? && Synthesized(spec, mute, t, b).0 == Unanswered {
      Muted(spec, env, a, b, t);
    }
    assert |PiecesOf(t)| > 1 ==> Source(spec, mute, cache, b, PiecesOf(t)[1]);
    NeverHeard(spec, mute, cache, b);
  }

  /** A pending first chapter of two chunks of which the provider never speaks the second: the run raises
      there, having accepted the first chunk alone and committed nothing. */
  lemma MutedRunRollsBack(spec: JobSpec, env: Env, a: string, b: string, before: seq<Row>, after: seq<Row>,
                          stored: map<Key, Bytes>, kept: map<Key, Bytes>, takes: seq<Take>, o: Outcome,
                          outputs: set<Format>, cache: map<TextDigest, Bytes>)
    requires Obliging(spec, env) && env.chapters != [] && env.chapters[0].clean != ""
    requires env.plan(env.chapters[0].clean) == [a, b] && a != b && !Hit(spec, cache, b)
    requires RowsOk(spec, Mute(env, b), before, after, stored, kept, takes) && EndOk(Mute(env, b), o, takes, outputs)
    requires AllSourced(spec, Mute(env, b), takes, cache) && !before[0].status.Done?
    ensures o == Raised && |takes| == 1 && !Commits(takes[0])
    ensures PiecesOf(takes[0]) != [] && |PiecesOf(takes[0])| == 1 && after[0] == before[0].(status := Processing)
  {
    hide TakeOk, Sourced, Hit, At, FilesOf, NewOutputs, Answers, MakesValidMedia, AudioOf, TitlesOf;
    var mute := Mute(env, b);
    AnswersIsThere(spec, env);
    assert takes != [] && (o == Raised || NoneFailed(takes));
    assert TakeOk(spec, mute, 0, mute.chapters[0].clean, before[0], after[0], At(stored, ChapterKey(0)),
        At(kept, ChapterKey(0)), takes[0]);
    assert Sourced(spec, mute, cache, mute.chapters[0].clean, takes[0]);
    MutedTake(spec, env, a, b, before[0], after[0], At(stored, ChapterKey(0)), At(kept, ChapterKey(0)), takes[0],
        cache);
  }

  /** With the provider back, the chapter is rendered. */
  lemma PendingIsRendered(spec: JobSpec, env: Env, before: seq<Row>, after: seq<Row>, stored: map<Key, Bytes>,
                          kept: map<Key, Bytes>, takes: seq<Take>)
    requires RowsOk(spec, env, before, after, stored, kept, takes) && NoneFailed(takes) && takes != []
    requires env.chapters[0].clean != "" && env.plan(env.chapters[0].clean) != [] && !before[0].status.Done?
    ensures takes[0].Rendered? && |takes[0].pieces| == |env.plan(env.chapters[0].clean)|
  {
    hide ValidMedia, Usable, Dependable, Published, At, UploadWorks, FailedOk, Mastered;
    assert TakeOk(spec, env, 0, env.chapters[0].clean, before[0], after[0], At(stored, ChapterKey(0)),
        At(kept, ChapterKey(0)), takes[0]);
  }

  /** Which of the two chunks the first take accounts for. */
  lemma FirstTakeCovers(env: Env, takes: seq<Take>, chunk: string)
    requires takes != [] && |takes| <= |env.chapters| && |PiecesOf(takes[0])| <= |env.plan(env.chapters[0].clean)|
    requires chunk in env.plan(env.chapters[0].clean)[..|PiecesOf(takes[0])|]
    ensures AcceptedBy(env, takes, chunk) && (Commits(takes[0]) ==> CommittedBy(env, takes, chunk))
  {
    hide PiecesOf, Commits;
  }

  lemma OnlyTakeCovers(env: Env, takes: seq<Take>, chunk: string)
    requires |takes| == 1 && env.chapters != [] && |PiecesOf(takes[0])| <= |env.plan(env.chapters[0].clean)|
    ensures AcceptedBy(env, takes, chunk) <==> chunk in env.plan(env.chapters[0].clean)[..|PiecesOf(takes[0])|]
    ensures CommittedBy(env, takes, chunk) ==> Commits(takes[0])
  {
    hide PiecesOf, Commits;
    if chunk in env.plan(env.chapters[0].clean)[..|PiecesOf(takes[0])|] {
      FirstTakeCovers(env, takes, chunk);
    }
  }

  // ---------- one chunk, call by call ----------

  predicate Silent(spec: JobSpec, env: Env, chunk: string, u: nat) {
    env.speak(u, VoiceOf(spec), chunk).None?
  }

  predicate Spoiled(spec: JobSpec, env: Env, chunk: string, u: nat) {
    var a := env.speak(u, VoiceOf(spec), chunk);
    a.Some? && !ValidMedia(spec, a.value, Some(|chunk|), 0)
  }

  /** The calls of one synthesis, from `tick` to `end`: it is over at the first valid answer, at the second
      invalid one, or at the third call in a row without an answer, whichever comes first. */
  predicate CallsAre(spec: JobSpec, env: Env, chunk: string, tick: nat, r: Synthesis, end: nat) {
    && tick < end
    && (forall u :: tick <= u < end - 1 ==> Silent(spec, env, chunk, u) || Spoiled(spec, env, chunk, u))
    && (forall u, v :: tick <= u < v < end - 1 && Spoiled(spec, env, chunk, u) ==> !Spoiled(spec, env, chunk, v))
    && (forall u :: tick <= u < end - 3 && Silent(spec, env, chunk, u) && Silent(spec, env, chunk, u + 1) ==>
          !Silent(spec, env, chunk, u + 2))
    && match r
       case Heard(audio) =>
         env.speak(end - 1, VoiceOf(spec), chunk) == Some(audio) && ValidMedia(spec, audio, Some(|chunk|), 0)
       case Rejected =>
         Spoiled(spec, env, chunk, end - 1) && exists u :: tick <= u < end - 1 && Spoiled(spec, env, chunk, u)
       case Unanswered =>
         end >= tick + 3 && forall u :: end - 3 <= u < end ==> Silent(spec, env, chunk, u)
  }

  lemma AnswerIsFirst(spec: JobSpec, env: Env, tick: nat, chunk: string)
    ensures
      var (a, t) := Answer(spec, env, tick, chunk);
      && tick < t <= tick + 3 && a == env.speak(t - 1, VoiceOf(spec), chunk)
      && (forall u :: tick <= u < t - 1 ==> Silent(spec, env, chunk, u) && !Spoiled(spec, env, chunk, u))
      && (a.None? ==> t == tick + 3)
  {
  }

  /** Every synthesis goes like that, so it makes at most six calls. */
  lemma SynthesisGoesCallByCall(spec: JobSpec, env: Env, tick: nat, chunk: string)
    ensures
      var (r, t) := Synthesized(spec, env, tick, chunk);
      CallsAre(spec, env, chunk, tick, r, t) && t <= tick + 6
  {
    hide Answer, ValidMedia;
    AnswerIsFirst(spec, env, tick, chunk);
    var (a, t) := Answer(spec, env, tick, chunk);
    AnswerIsFirst(spec, env, t, chunk);
    if a.None? {
      assert Synthesized(spec, env, tick, chunk) == (Unanswered, t);
      assert Silent(spec, env, chunk, t - 1);
    } else if ValidMedia(spec, a.value, Some(|chunk|), 0) {
      assert Synthesized(spec, env, tick, chunk) == (Heard(a.value), t);
    } else {
      assert Spoiled(spec, env, chunk, t - 1);
      var (b, u) := Answer(spec, env, t, chunk);
      forall v | tick <= v < u - 1 && v != t - 1
        ensures Silent(spec, env, chunk, v) && !Spoiled(spec, env, chunk, v)
      {
      }
      SecondAnswer(spec, env, tick, chunk, t, b, u);
    }
  }

  lemma SecondAnswer(spec: JobSpec, env: Env, tick: nat, chunk: string, t: nat, b: Option<Bytes>, u: nat)
    requires tick < t <= tick + 3 && t < u <= t + 3 && b == env.speak(u - 1, VoiceOf(spec), chunk)
    requires Spoiled(spec, env, chunk, t - 1) && (b.None? ==> u == t + 3)
    requires forall v :: tick <= v < u - 1 && v != t - 1 ==>
               Silent(spec, env, chunk, v) && !Spoiled(spec, env, chunk, v)
    ensures
      var r := if b.None? then Unanswered
               else if ValidMedia(spec, b.value, Some(|chunk|), 0) then Heard(b.value) else Rejected;
      CallsAre(spec, env, chunk, tick, r, u)
  {
    hide ValidMedia;
    assert !Silent(spec, env, chunk, t - 1);
    assert b.None? ==> Silent(spec, env, chunk, u - 1);
  }

  // ---------- old chapters ----------

  /** A finished chapter from before ids and revisions is trusted: with its stored copy intact it is reused
      whatever its text is now. */
  lemma OldChaptersAreTrusted(spec: JobSpec, env: Env, before: seq<Row>, after: seq<Row>, stored: map<Key, Bytes>,
                              kept: map<Key, Bytes>, takes: seq<Take>, i: nat)
    requires RowsOk(spec, env, before, after, stored, kept, takes) && Dependable(env) && i < |takes|
    requires before[i].status.Done? && before[i].sid.None? && Usable(before[i], At(stored, ChapterKey(i)))
    requires env.chapters[i].clean != ""
    ensures takes[i] == Resumed(stored[ChapterKey(i)]) && after[i] == before[i]
  {
    hide Dependable, ValidMedia, Made, Published, UploadWorks, FailedOk;
    assert TakeOk(spec, env, i, env.chapters[i].clean, before[i], after[i], At(stored, ChapterKey(i)),
        At(kept, ChapterKey(i)), takes[i]);
  }
}
