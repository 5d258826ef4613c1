/** What a production run records (backend/db/models.py:200-353): chapter rows with their immutable
    revisions, the usage ledger, and what must hold of them at every committed state. */
module ChapterRecords {
  import opened Wrappers

  newtype Byte = x: int | 0 <= x < 256
  type Bytes = seq<Byte>

  /** SHA-256 of a file or of a text, taken to be injective: a digest is as good as what it digests. */
  datatype Digest = Digest(of: Bytes)
  datatype TextDigest = TextDigest(of: string)

  datatype Format = Mp3 | M4b
  datatype Key = ChapterKey(index: nat) | BookKey(format: Format) | ManifestKey

  datatype Status = Pending | Processing | Done | Skipped
  datatype Revision = Revision(number: nat, text: string, key: Option<Key>, sha: Option<Digest>, sid: TextDigest,
      live: bool)

  /** `active` is the position of a revision in `revisions`, standing for its id. */
  datatype Row = Row(
    title: string,
    status: Status,
    sid: Option<TextDigest>,
    key: Option<Key>,
    sha: Option<Digest>,
    revisions: seq<Revision>,
    active: Option<nat>,
    qcPassed: Option<bool>)

  datatype Usage = Usage(job: nat, sid: TextDigest, characters: nat)

  /** The database: this job's chapter rows, upload stages and outputs, and everybody's ledger. */
  datatype Db = Db(rows: seq<Row>, ledger: seq<Usage>, stages: set<nat>, outputs: set<Format>)

  datatype Snapshot = Snapshot(db: Db, storage: map<Key, Bytes>)

  /** A job's voice, and `validate_media` as a deterministic predicate of the bytes, the expected
      number of characters and the number of gaps. */
  datatype JobSpec = JobSpec(
    id: nat,
    requested: string,
    provider: string,
    voice: string,
    engine: string,
    paid: bool,
    media: (Bytes, Option<nat>, nat) -> bool)

  /** What is asked of a provider: one of its voices, at one quality. */
  datatype Voice = Voice(provider: string, voice: string, engine: string)

  function VoiceOf(spec: JobSpec): Voice {
    Voice(spec.provider, spec.voice, spec.engine)
  }

  /** An empty file never passes (backend/services/media_validation.py:106-108). */
  predicate ValidMedia(spec: JobSpec, audio: Bytes, characters: Option<nat>, gaps: nat) {
    audio != [] && spec.media(audio, characters, gaps)
  }

  function ChapterId(spec: JobSpec, clean: string): TextDigest {
    TextDigest(spec.requested + ":" + spec.voice + ":" + spec.engine + ":" + clean)
  }

  function ChunkId(spec: JobSpec, chunk: string): TextDigest {
    TextDigest(spec.provider + ":" + spec.voice + ":" + spec.engine + ":" + chunk)
  }

  /** `SynthesisCache.key` */
  function CacheKey(spec: JobSpec, chunk: string): TextDigest {
    TextDigest(spec.provider + "|" + spec.voice + "|" + spec.engine + "|" + chunk)
  }

  lemma PrefixCancels(prefix: string, a: string, b: string)
    ensures prefix + a == prefix + b <==> a == b
  {
    if prefix + a == prefix + b {
      assert a == (prefix + a)[|prefix|..] == (prefix + b)[|prefix|..] == b;
    }
  }

  /** Within a job, an id or a cache key identifies the text, although the joined string could be
      read in several ways. */
  lemma TextsHaveTheirOwnIds(spec: JobSpec, a: string, b: string)
    ensures ChapterId(spec, a) == ChapterId(spec, b) <==> a == b
    ensures ChunkId(spec, a) == ChunkId(spec, b) <==> a == b
    ensures CacheKey(spec, a) == CacheKey(spec, b) <==> a == b
  {
    PrefixCancels(spec.requested + ":" + spec.voice + ":" + spec.engine + ":", a, b);
    PrefixCancels(spec.provider + ":" + spec.voice + ":" + spec.engine + ":", a, b);
    PrefixCancels(spec.provider + "|" + spec.voice + "|" + spec.engine + "|", a, b);
  }

  // ---------- revisions ----------

  /** `max((r.revision_number for r in revisions), default=0)` */
  function MaxNumber(revisions: seq<Revision>): nat {
    if revisions == [] then 0
    else
      var m := MaxNumber(revisions[1..]);
      if revisions[0].number > m then revisions[0].number else m
  }

  function Superseded(revisions: seq<Revision>, active: Option<nat>): seq<Revision> {
    if active.Some? && active.value < |revisions|
    then revisions[active.value := revisions[active.value].(live := false)]
    else revisions
  }

  /** A new revision of a chapter: numbered, active, and the previous one superseded. */
  function Published(spec: JobSpec, row: Row, clean: string): Row {
    var sid := ChapterId(spec, clean);
    row.(
      revisions := Superseded(row.revisions, row.active)
                   + [Revision(1 + MaxNumber(row.revisions), clean, row.key, row.sha, sid, true)],
      active := Some(|row.revisions|),
      sid := Some(sid),
      status := Done)
  }

  /** Revisions are numbered 1..k, the k-th is the active one, and row and revision agree. */
  predicate RowOk(spec: JobSpec, i: nat, row: Row) {
    && (forall k :: 0 <= k < |row.revisions| ==>
          && row.revisions[k].number == k + 1
          && (row.revisions[k].live <==> k == |row.revisions| - 1)
          && row.revisions[k].sid == ChapterId(spec, row.revisions[k].text))
    && (row.key.Some? ==> row.key.value == ChapterKey(i))
    && (row.revisions == [] ==> row.active.None? && row.sid.None?)
    && (row.revisions != [] ==>
          var last := row.revisions[|row.revisions| - 1];
          && row.active == Some(|row.revisions| - 1)
          && row.sid == Some(last.sid)
          && (row.status.Done? ==> row.key.Some? && row.sha.Some? && row.key == last.key && row.sha == last.sha))
  }

  lemma {:induction false} MaxOfNumbered(revisions: seq<Revision>, from: nat)
    requires forall k :: 0 <= k < |revisions| ==> revisions[k].number == from + k
    ensures MaxNumber(revisions) == if revisions == [] then 0 else from + |revisions| - 1
  {
    if revisions != [] {
      MaxOfNumbered(revisions[1..], from + 1);
    }
  }

  /** Publishing keeps the chain: it gains exactly its next link. */
  lemma PublishedKeepsTheChain(spec: JobSpec, i: nat, row: Row, clean: string)
    requires RowOk(spec, i, row) && row.key.Some? && row.sha.Some?
    ensures RowOk(spec, i, Published(spec, row, clean))
    ensures |Published(spec, row, clean).revisions| == |row.revisions| + 1
    ensures RevisionsKept(row.revisions, Published(spec, row, clean).revisions)
  {
    hide ChapterId, MaxNumber;
    MaxOfNumbered(row.revisions, 1);
  }

  /** Revisions are immutable but for being superseded, and none is ever removed. */
  predicate RevisionsKept(a: seq<Revision>, b: seq<Revision>) {
    && |a| <= |b|
    && forall k :: 0 <= k < |a| ==> b[k].(live := a[k].live) == a[k] && (b[k].live ==> a[k].live)
  }

  // ---------- the ledger ----------

  predicate HasUsage(ledger: seq<Usage>, job: nat, sid: TextDigest) {
    exists k :: 0 <= k < |ledger| && ledger[k].job == job && ledger[k].sid == sid
  }

  /** `record_usage` as one atomic step. */
  function Recorded(ledger: seq<Usage>, u: Usage): seq<Usage> {
    if HasUsage(ledger, u.job, u.sid) then ledger else ledger + [u]
  }

  /** A ledger row of this job is for one chunk whose audio was approved. */
  ghost predicate Earned(spec: JobSpec, u: Usage, approved: map<string, Bytes>) {
    exists chunk :: chunk in approved && u == Usage(spec.id, ChunkId(spec, chunk), |chunk|)
  }

  ghost predicate LedgerOk(spec: JobSpec, ledger: seq<Usage>, approved: map<string, Bytes>) {
    && (forall a, b :: 0 <= a < b < |ledger| && ledger[a].job == spec.id && ledger[b].job == spec.id ==>
          ledger[a].sid != ledger[b].sid)
    && (forall a :: 0 <= a < |ledger| && ledger[a].job == spec.id ==> Earned(spec, ledger[a], approved))
  }

  predicate ApprovedOk(spec: JobSpec, approved: map<string, Bytes>) {
    forall c :: c in approved ==> ValidMedia(spec, approved[c], Some(|c|), 0)
  }

  predicate MoreApproved(a: map<string, Bytes>, b: map<string, Bytes>) {
    forall c :: c in a ==> c in b
  }

  lemma LedgerStaysOk(spec: JobSpec, ledger: seq<Usage>, a: map<string, Bytes>, b: map<string, Bytes>)
    requires LedgerOk(spec, ledger, a) && MoreApproved(a, b)
    ensures LedgerOk(spec, ledger, b)
  {
    hide ChunkId;
    forall k | 0 <= k < |ledger| && ledger[k].job == spec.id ensures Earned(spec, ledger[k], b) {
      assert Earned(spec, ledger[k], a);
    }
  }

  lemma RecordedKeepsLedger(spec: JobSpec, ledger: seq<Usage>, chunk: string, approved: map<string, Bytes>)
    requires LedgerOk(spec, ledger, approved) && chunk in approved
    ensures LedgerOk(spec, Recorded(ledger, Usage(spec.id, ChunkId(spec, chunk), |chunk|)), approved)
    ensures ledger <= Recorded(ledger, Usage(spec.id, ChunkId(spec, chunk), |chunk|))
    ensures HasUsage(Recorded(ledger, Usage(spec.id, ChunkId(spec, chunk), |chunk|)), spec.id, ChunkId(spec, chunk))
  {
    hide ChunkId;
    var u := Usage(spec.id, ChunkId(spec, chunk), |chunk|);
    var after := Recorded(ledger, u);
    if !HasUsage(ledger, u.job, u.sid) {
      assert after[|ledger|] == u;
      assert Earned(spec, u, approved);
    }
  }

  lemma UsageStays(a: seq<Usage>, b: seq<Usage>, job: nat, sid: TextDigest)
    requires a <= b && HasUsage(a, job, sid)
    ensures HasUsage(b, job, sid)
  {
    var k :| 0 <= k < |a| && a[k].job == job && a[k].sid == sid;
    assert b[k] == a[k];
  }

  function BilledCharacters(ledger: seq<Usage>, job: nat): nat {
    if ledger == [] then 0
    else BilledCharacters(ledger[..|ledger|-1], job)
         + (if ledger[|ledger|-1].job == job then ledger[|ledger|-1].characters else 0)
  }

  function TotalLength(chunks: seq<string>): nat {
    if chunks == [] then 0 else |chunks[0]| + TotalLength(chunks[1..])
  }

  lemma {:induction false} TotalLengthWithout(chunks: seq<string>, k: nat)
    requires k < |chunks|
    ensures TotalLength(chunks) == |chunks[k]| + TotalLength(chunks[..k] + chunks[k+1..])
  {
    if k == 0 {
      assert chunks[..0] + chunks[1..] == chunks[1..];
    } else {
      TotalLengthWithout(chunks[1..], k - 1);
      assert (chunks[..k] + chunks[k+1..])[1..] == chunks[1..][..k-1] + chunks[1..][k..];
    }
  }

  /** A job is never billed more than the characters of its distinct chunks: for any list of chunks
      that covers what was billed, each counted once. */
  lemma {:induction false} BilledAtMostOnce(spec: JobSpec, ledger: seq<Usage>, approved: map<string, Bytes>,
      chunks: seq<string>)
    requires LedgerOk(spec, ledger, approved)
    requires forall c :: HasUsage(ledger, spec.id, ChunkId(spec, c)) ==> c in chunks
    ensures BilledCharacters(ledger, spec.id) <= TotalLength(chunks)
    decreases |ledger|
  {
    hide ChunkId;
    if ledger != [] {
      var u, rest := ledger[|ledger|-1], ledger[..|ledger|-1];
      assert forall k :: 0 <= k < |rest| ==> rest[k] == ledger[k];
      if u.job != spec.id {
        forall c | HasUsage(rest, spec.id, ChunkId(spec, c)) ensures c in chunks {
          UsageStays(rest, ledger, spec.id, ChunkId(spec, c));
        }
        BilledAtMostOnce(spec, rest, approved, chunks);
      } else {
        assert Earned(spec, u, approved);
        var chunk :| chunk in approved && u == Usage(spec.id, ChunkId(spec, chunk), |chunk|);
        assert HasUsage(ledger, spec.id, ChunkId(spec, chunk));
        var k :| 0 <= k < |chunks| && chunks[k] == chunk;
        var fewer := chunks[..k] + chunks[k+1..];
        forall c | HasUsage(rest, spec.id, ChunkId(spec, c)) ensures c in fewer {
          UsageStays(rest, ledger, spec.id, ChunkId(spec, c));
          assert c != chunk;
          InRest(chunks, k, c);
        }
        BilledAtMostOnce(spec, rest, approved, fewer);
        TotalLengthWithout(chunks, k);
      }
    }
  }

  lemma InRest(chunks: seq<string>, k: nat, c: string)
    requires k < |chunks| && c in chunks && c != chunks[k]
    ensures c in chunks[..k] + chunks[k+1..]
  {
    var j :| 0 <= j < |chunks| && chunks[j] == c;
    var fewer := chunks[..k] + chunks[k+1..];
    assert if j < k then fewer[j] == c else fewer[j-1] == c;
  }

  // ---------- committed states ----------

  ghost predicate DbOk(spec: JobSpec, db: Db, approved: map<string, Bytes>) {
    (forall i :: 0 <= i < |db.rows| ==> RowOk(spec, i, db.rows[i])) && LedgerOk(spec, db.ledger, approved)
  }

  predicate RowIntact(i: nat, row: Row, storage: map<Key, Bytes>) {
    row.status.Done? && row.key.Some? && row.sha.Some? ==>
      ChapterKey(i) in storage && Digest(storage[ChapterKey(i)]) == row.sha.value
  }

  /** What is stored for a finished chapter is what was recorded. */
  predicate Intact(s: Snapshot) {
    forall i :: 0 <= i < |s.db.rows| ==> RowIntact(i, s.db.rows[i], s.storage)
  }

  predicate Grows(a: Db, b: Db) {
    && |a.rows| <= |b.rows| && a.ledger <= b.ledger && a.stages <= b.stages && a.outputs <= b.outputs
    && forall i :: 0 <= i < |a.rows| ==> RevisionsKept(a.rows[i].revisions, b.rows[i].revisions)
  }

  ghost predicate Safe(spec: JobSpec, s: Snapshot, approved: map<string, Bytes>, rotten: bool) {
    DbOk(spec, s.db, approved) && (!rotten ==> Intact(s))
  }

  /** A history of durable states: each is safe and only adds to the one before. */
  ghost predicate Sound(spec: JobSpec, trace: seq<Snapshot>, approved: map<string, Bytes>, rotten: bool) {
    && ApprovedOk(spec, approved)
    && (forall t :: 0 <= t < |trace| ==> Safe(spec, trace[t], approved, rotten))
    && (forall t :: 0 < t < |trace| ==> Grows(trace[t-1].db, trace[t].db))
  }

  lemma SoundExtends(spec: JobSpec, trace: seq<Snapshot>, approved: map<string, Bytes>, rotten: bool, s: Snapshot)
    requires Sound(spec, trace, approved, rotten) && Safe(spec, s, approved, rotten)
    requires trace != [] ==> Grows(trace[|trace|-1].db, s.db)
    ensures Sound(spec, trace + [s], approved, rotten)
  {
    hide Safe, Grows;
  }

  lemma SoundWithMoreApproved(spec: JobSpec, trace: seq<Snapshot>, a: map<string, Bytes>, b: map<string, Bytes>,
      rotten: bool)
    requires Sound(spec, trace, a, rotten) && MoreApproved(a, b) && ApprovedOk(spec, b)
    ensures Sound(spec, trace, b, rotten)
  {
    hide Grows, Intact, MoreApproved, LedgerOk, RowOk, ApprovedOk;
    forall t | 0 <= t < |trace| ensures Safe(spec, trace[t], b, rotten) {
      LedgerStaysOk(spec, trace[t].db.ledger, a, b);
    }
  }

  lemma SoundPrefix(spec: JobSpec, trace: seq<Snapshot>, approved: map<string, Bytes>, rotten: bool, n: nat)
    requires Sound(spec, trace, approved, rotten) && n <= |trace|
    ensures Sound(spec, trace[..n], approved, rotten)
  {
    hide Safe, Grows, ApprovedOk;
  }

  lemma RevisionsKeptTransitive(a: seq<Revision>, b: seq<Revision>, c: seq<Revision>)
    requires RevisionsKept(a, b) && RevisionsKept(b, c)
    ensures RevisionsKept(a, c)
  {
    forall k | 0 <= k < |a| ensures c[k].(live := a[k].live) == a[k] && (c[k].live ==> a[k].live) {
      assert b[k].(live := a[k].live) == a[k] && c[k].(live := b[k].live) == b[k];
    }
  }

  lemma GrowsTransitive(a: Db, b: Db, c: Db)
    requires Grows(a, b) && Grows(b, c)
    ensures Grows(a, c)
  {
    hide RevisionsKept;
    forall i | 0 <= i < |a.rows| ensures RevisionsKept(a.rows[i].revisions, c.rows[i].revisions) {
      RevisionsKeptTransitive(a.rows[i].revisions, b.rows[i].revisions, c.rows[i].revisions);
    }
  }

  /** Over a whole history no ledger row, revision or stage is ever lost. */
  lemma {:induction false} HistoryOnlyGrows(spec: JobSpec, trace: seq<Snapshot>, approved: map<string, Bytes>,
      rotten: bool, a: nat, b: nat)
    requires Sound(spec, trace, approved, rotten) && a <= b < |trace|
    ensures Grows(trace[a].db, trace[b].db)
    decreases b - a
  {
    hide Safe, ApprovedOk;
    if a < b {
      HistoryOnlyGrows(spec, trace, approved, rotten, a, b - 1);
      GrowsTransitive(trace[a].db, trace[b-1].db, trace[b].db);
    }
  }

  predicate Concerns(ledger: seq<Usage>, job: nat) {
    exists k :: 0 <= k < |ledger| && ledger[k].job == job
  }

  /** A list of chunks in which every billed chunk occurs. */
  ghost predicate Covers(spec: JobSpec, ledger: seq<Usage>, chunks: seq<string>) {
    forall c :: HasUsage(ledger, spec.id, ChunkId(spec, c)) ==> c in chunks
  }

  lemma CoveredBill(spec: JobSpec, ledger: seq<Usage>, approved: map<string, Bytes>, chunks: seq<string>)
    requires LedgerOk(spec, ledger, approved) && Covers(spec, ledger, chunks)
    ensures BilledCharacters(ledger, spec.id) <= TotalLength(chunks)
  {
    hide HasUsage, ChunkId, LedgerOk;
    BilledAtMostOnce(spec, ledger, approved, chunks);
  }

  lemma Rot(spec: JobSpec, trace: seq<Snapshot>, approved: map<string, Bytes>, rotten: bool, other: map<Key, Bytes>)
    requires Sound(spec, trace, approved, rotten) && trace != []
    ensures Sound(spec, trace, approved, true)
    ensures Safe(spec, Snapshot(trace[|trace|-1].db, other), approved, true)
  {
    hide Grows, ApprovedOk, Intact, DbOk;
  }
}
