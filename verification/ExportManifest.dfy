/** The export manifest and the QC gate (backend/jobs/pipeline.py:509-576): one entry per finished
    chapter, read off its active revision. */
module ExportManifest {
  import opened Wrappers
  import opened ChapterRecords
  import opened ChapterTakes

  function ActiveRevision(row: Row): Option<Revision> {
    if row.active.Some? && row.active.value < |row.revisions| then Some(row.revisions[row.active.value]) else None
  }

  function EntryOf(i: nat, row: Row): Entry {
    var rev := ActiveRevision(row);
    Entry(i, row.title, if rev.Some? then Some(rev.value.number) else None, row.sid, row.sha,
          if rev.Some? then Some(TextDigest(rev.value.text)) else None)
  }

  function ManifestOf(rows: seq<Row>): seq<Entry> {
    if rows == [] then []
    else
      var i := |rows| - 1;
      ManifestOf(rows[..i]) + (if rows[i].status.Done? then [EntryOf(i, rows[i])] else [])
  }

  method BuildManifest(rows: seq<Row>) returns (entries: seq<Entry>)
    ensures entries == ManifestOf(rows)
  {
    hide EntryOf;
    entries := [];
    for i := 0 to |rows|
      invariant entries == ManifestOf(rows[..i])
    {
      assert rows[..i+1][..i] == rows[..i];
      if rows[i].status.Done? {
        entries := entries + [EntryOf(i, rows[i])];
      }
    }
    assert rows[..|rows|] == rows;
  }

  predicate Lists(entries: seq<Entry>, i: nat) {
    exists k :: 0 <= k < |entries| && entries[k].index == i
  }

  predicate EntryOk(rows: seq<Row>, e: Entry) {
    e.index < |rows| && rows[e.index].status.Done? && e == EntryOf(e.index, rows[e.index])
  }

  /** Entries stand for finished rows, in index order. */
  lemma {:induction false} EntriesInOrder(rows: seq<Row>, m: seq<Entry>)
    requires m == ManifestOf(rows)
    ensures forall k :: 0 <= k < |m| ==> EntryOk(rows, m[k])
    ensures forall a, b :: 0 <= a < b < |m| ==> m[a].index < m[b].index
  {
    hide EntryOf;
    if rows != [] {
      var n := |rows| - 1;
      var rest := ManifestOf(rows[..n]);
      EntriesInOrder(rows[..n], rest);
      EntryIndex(n, rows[n]);
      forall k | 0 <= k < |m| ensures EntryOk(rows, m[k]) {
        if k < |rest| { assert m[k] == rest[k] && EntryOk(rows[..n], rest[k]); }
      }
      forall a, b | 0 <= a < b < |m| ensures m[a].index < m[b].index {
        assert m[a] == rest[a] && EntryOk(rows[..n], rest[a]);
        if b < |rest| { assert m[b] == rest[b]; }
      }
    }
  }

  lemma EntryIndex(i: nat, row: Row)
    ensures EntryOf(i, row).index == i
  {
  }

  lemma {:induction false} DoneRowsAreListed(rows: seq<Row>, i: nat)
    requires i < |rows|
    ensures Lists(ManifestOf(rows), i) <==> rows[i].status.Done?
  {
    hide EntryOf;
    var n := |rows| - 1;
    var m, rest := ManifestOf(rows), ManifestOf(rows[..n]);
    EntriesInOrder(rows, ManifestOf(rows));
    EntriesInOrder(rows[..n], rest);
    EntryIndex(n, rows[n]);
    if i < n {
      DoneRowsAreListed(rows[..n], i);
      if Lists(m, i) {
        var k :| 0 <= k < |m| && m[k].index == i;
        assert EntryOk(rows, m[k]);
      }
      if Lists(rest, i) {
        var k :| 0 <= k < |rest| && rest[k].index == i;
        assert m[k] == rest[k];
      }
    } else if rows[i].status.Done? {
      assert m[|rest|].index == i;
    }
  }

  /** Every entry repeats its chapter's title and active revision: the newest one, whose text has the
      entry's synthesis id and whose audio has the entry's checksum.  Old rows without a revision have none. */
  lemma ManifestMatchesActiveRevisions(spec: JobSpec, rows: seq<Row>, k: nat)
    requires forall i :: 0 <= i < |rows| ==> RowOk(spec, i, rows[i])
    requires k < |ManifestOf(rows)|
    ensures
      var e := ManifestOf(rows)[k];
      && e.index < |rows| && e.title == rows[e.index].title && e.sha == rows[e.index].sha
      && var revisions := rows[e.index].revisions;
         if revisions == [] then e.number.None? && e.text.None? && e.sid.None?
         else
           var last := revisions[|revisions|-1];
           && last.live && e.number == Some(|revisions|) && e.sha == last.sha && e.sha.Some?
           && e.text == Some(TextDigest(last.text)) && e.sid == Some(ChapterId(spec, last.text))
  {
    hide ChapterId;
    EntriesInOrder(rows, ManifestOf(rows));
    assert EntryOk(rows, ManifestOf(rows)[k]);
    assert RowOk(spec, ManifestOf(rows)[k].index, rows[ManifestOf(rows)[k].index]);
  }

  lemma PublishedEntry(spec: JobSpec, i: nat, row: Row, clean: string)
    ensures
      var e := EntryOf(i, Published(spec, row, clean));
      && e.title == row.title && e.sha == row.sha && e.number == Some(1 + MaxNumber(row.revisions))
      && e.text == Some(TextDigest(clean))
  {
    hide MaxNumber, ChapterId;
  }

  lemma CurrentEntry(spec: JobSpec, i: nat, row: Row, clean: string)
    requires RowOk(spec, i, row) && Current(spec, row, clean)
    ensures EntryOf(i, row).title == row.title && EntryOf(i, row).sha == row.sha
    ensures if row.revisions == [] then EntryOf(i, row).text.None? else EntryOf(i, row).text == Some(TextDigest(clean))
  {
    hide ChapterId;
    if row.revisions != [] {
      TextsHaveTheirOwnIds(spec, row.revisions[|row.revisions|-1].text, clean);
    }
  }

  /** The entry of a chapter of the book: its title and the digest of its text, unless the row is older
      than revisions.  The checksum is that of the audio in the book, unless the audio is a local file. */
  predicate TellsTheBook(spec: JobSpec, c: Chapter, row: Row, t: Take, e: Entry) {
    && Spoken(t) && e.title == c.title
    && (!t.Leftover? ==> e.sha == Some(Digest(t.audio)))
    && e.text == if row.revisions == [] then None else Some(TextDigest(c.clean))
  }

  lemma SyncedTitle(rows: seq<Row>, chapters: seq<Chapter>, i: nat)
    requires i < |chapters|
    ensures i < |Synced(rows, chapters)| && Synced(rows, chapters)[i].title == chapters[i].title
  {
  }

  /** The manifest of a run tells the book of that run. */
  lemma ManifestTellsTheBook(spec: JobSpec, env: Env, rows: seq<Row>, after: seq<Row>, stored: map<Key, Bytes>,
                             kept: map<Key, Bytes>, takes: seq<Take>, i: nat) returns (k: nat)
    requires RowsOk(spec, env, Synced(rows, env.chapters), after, stored, kept, takes)
    requires AllRowsOk(spec, Synced(rows, env.chapters)) && i in FilesOf(takes)
    ensures k < |ManifestOf(after)| && ManifestOf(after)[k].index == i < |takes|
    ensures TellsTheBook(spec, env.chapters[i], after[i], takes[i], ManifestOf(after)[k])
  {
    hide Usable, Dependable, At, Made, ValidMedia, MaxNumber, Current, Published, RowOk, Synced, ManifestOf, EntryOf;
    var before := Synced(rows, env.chapters);
    FilesAreSpoken(takes, i);
    SyncedTitle(rows, env.chapters, i);
    var clean := env.chapters[i].clean;
    assert TakeOk(spec, env, i, clean, before[i], after[i], At(stored, ChapterKey(i)), At(kept, ChapterKey(i)),
        takes[i]);
    assert RowOk(spec, i, before[i]);
    if takes[i].Rendered? {
      var audio := takes[i].audio;
      var row := before[i].(key := Some(ChapterKey(i)), sha := Some(Digest(audio)),
                            qcPassed := env.qc(audio).passed);
      PublishedIsDone(spec, row, clean);
      PublishedEntry(spec, i, row, clean);
      PublishedHasRevisions(spec, row, clean);
    } else {
      CurrentIsDone(spec, before[i], clean);
      CurrentEntry(spec, i, before[i], clean);
    }
    DoneRowsAreListed(after, i);
    k :| 0 <= k < |ManifestOf(after)| && ManifestOf(after)[k].index == i;
    EntriesInOrder(after, ManifestOf(after));
    assert EntryOk(after, ManifestOf(after)[k]);
  }

  lemma PublishedHasRevisions(spec: JobSpec, row: Row, clean: string)
    ensures Published(spec, row, clean).revisions != []
  {
  }

  /** The manifest lists the chapters of the book, and besides them exactly the finished chapters
      whose text has become empty and the finished rows beyond the last chapter. */
  lemma ManifestListsTheBook(spec: JobSpec, env: Env, before: seq<Row>, after: seq<Row>,
                             stored: map<Key, Bytes>, kept: map<Key, Bytes>, takes: seq<Take>, i: nat)
    requires RowsOk(spec, env, before, after, stored, kept, takes)
    requires |takes| == |env.chapters| && NoneFailed(takes) && i < |after|
    ensures Lists(ManifestOf(after), i)
            <==> (i in FilesOf(takes) || (before[i].status.Done? && (i >= |takes| || env.chapters[i].clean == "")))
  {
    hide Current, Usable, Dependable, Made, Published, At;
    DoneRowsAreListed(after, i);
    FilesAreSpoken(takes, i);
    if i < |takes| {
      var t := takes[i];
      assert TakeOk(spec, env, i, env.chapters[i].clean, before[i], after[i],
                    At(stored, ChapterKey(i)), At(kept, ChapterKey(i)), t);
      CurrentIsDone(spec, before[i], env.chapters[i].clean);
      if t.Rendered? {
        PublishedIsDone(spec,
          before[i].(key := Some(ChapterKey(i)), sha := Some(Digest(t.audio)), qcPassed := env.qc(t.audio).passed),
          env.chapters[i].clean);
      }
    }
  }

  lemma PublishedIsDone(spec: JobSpec, row: Row, clean: string)
    ensures Published(spec, row, clean).status.Done?
  {
  }

  predicate AnyFailedQc(rows: seq<Row>) {
    exists i :: 0 <= i < |rows| && rows[i].qcPassed == Some(false)
  }

  lemma FailedQcOf(rows: seq<Row>)
    ensures AnyFailedQc(rows) <==> exists i :: 0 <= i < |rows| && rows[i].qcPassed == Some(false)
  {
  }
}
