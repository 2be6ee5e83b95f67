/**
 What preparing a video comes to: the phases shown while its lines are fetched, and the subtitles and batches stored in the
 end (backend/app/services/subtitle_service.py).
 */
module Preparation {
  import opened Common
  import opened Database
  import opened Progress
  import opened Schedule
  import opened Pipeline
  import opened Service

  // ---------------------------------------------------------------- while the lines are fetched

  /** Speech recognition reports its chunks one by one. */
  ghost predicate ChunkByChunk(reports: seq<(nat, nat)>) {
    forall i :: 0 <= i < |reports| ==> reports[i].0 == i + 1 <= reports[i].1 && reports[i].1 == reports[0].1
  }

  ghost predicate Retrieves(source: Source, raw: seq<RawSubtitle>) {
    source == Transcript(raw) || (source.Asr? && source.result == Some(raw) && ChunkByChunk(source.chunkReports))
  }

  /** First the transcript is tried; then, if there is none, speech recognition starts and reports after each chunk. */
  lemma RetrievalPhases(source: Source)
    ensures var writes := SourceWrites(source);
            && writes != [] && writes[0] == Persisted(YoutubeSubtitles, 0.08)
            && (source.Transcript? ==> |writes| == 1)
            && (source.Asr? ==>
                  && |writes| == 2 + |source.chunkReports| && writes[1] == Persisted(Phase.Asr, 0.14)
                  && forall i :: 0 <= i < |source.chunkReports| ==>
                       var (done, total) := source.chunkReports[i];
                       writes[2 + i].phase == Phase.Asr
                       && (1 <= total ==> writes[2 + i].progress == 0.14 + 0.12 * (done as real / total as real)))
  {
  }

  /** When the chunks are reported one by one, every write is ahead of the one before, and all are before 0.28. */
  lemma RetrievalMovesOn(source: Source)
    requires source.Asr? ==> ChunkByChunk(source.chunkReports)
    ensures var writes := SourceWrites(source);
            && (forall i :: 0 <= i < |writes| ==> 0.08 <= writes[i].progress < 0.28)
            && (forall i, j :: 0 <= i < j < |writes| ==> writes[i].progress < writes[j].progress)
  {
    RetrievalPhases(source);
    var writes := SourceWrites(source);
    hide SourceWrites;
    if source.Asr? {
      forall i, j | 2 <= i <= j < |writes|
        ensures 0.14 < writes[i].progress <= writes[j].progress <= 0.26
        ensures i < j ==> writes[i].progress < writes[j].progress
      {
        ChunkWrites(source, i - 2, j - 2);
      }
    }
  }

  lemma ChunkWrites(source: Source, i: nat, j: nat)
    requires source.Asr? && ChunkByChunk(source.chunkReports) && i <= j < |source.chunkReports|
    ensures var writes := SourceWrites(source);
            && |writes| == 2 + |source.chunkReports|
            && 0.14 < writes[2 + i].progress <= writes[2 + j].progress <= 0.26
            && (i < j ==> writes[2 + i].progress < writes[2 + j].progress)
  {
    hide SourceWrites;
    var total := source.chunkReports[0].1;
    assert source.chunkReports[i].1 == total && source.chunkReports[j].0 == j + 1;
    ChunkShares(i, j, total);
    ChunkWrite(source, i, total);
    ChunkWrite(source, j, total);
  }

  lemma ChunkWrite(source: Source, i: nat, total: nat)
    requires source.Asr? && i < |source.chunkReports| && source.chunkReports[i] == (i + 1, total) && total >= 1
    ensures |SourceWrites(source)| == 2 + |source.chunkReports|
    ensures SourceWrites(source)[2 + i].progress == 0.14 + 0.12 * ((i + 1) as real / total as real)
  {
  }

  lemma ChunkShares(i: nat, j: nat, total: nat)
    requires i <= j < total
    ensures 0.0 < (i + 1) as real / total as real <= (j + 1) as real / total as real <= 1.0
    ensures i < j ==> (i + 1) as real / total as real < (j + 1) as real / total as real
  {
    QuotientOrder(0.0, (i + 1) as real, total as real);
    QuotientOrder((i + 1) as real, (j + 1) as real, total as real);
    QuotientOrder((j + 1) as real, total as real, total as real);
  }

  lemma {:induction false} WritesBelow(db: Db, writes: seq<Persisted>, bound: real)
    requires 0.0 <= db.video.progress <= 1.0 && 0.0 <= bound <= 1.0
    requires forall i :: 0 <= i < |writes| ==> writes[i].progress <= bound
    ensures var after := WithWrites(db, writes).video.progress;
            db.video.progress <= after <= MaxReal(db.video.progress, bound)
    decreases |writes|
  {
    if writes != [] {
      WritesBelow(db.(video := WithPhase(db.video, writes[0].phase, writes[0].progress)), writes[1..], bound);
    }
  }

  // ---------------------------------------------------------------- what is stored

  /** Row i is line at[i] as it was retrieved, raw, under number i and in the batch of the window it starts in. */
  ghost predicate StoredAs(raw: seq<RawSubtitle>, seconds: Positive, at: seq<nat>, rows: seq<SubtitleRow>) {
    && |rows| == |at|
    && forall i :: 0 <= i < |rows| ==>
         && at[i] < |raw|
         && rows[i] == SubtitleRow(i, raw[at[i]].start, raw[at[i]].end, raw[at[i]].text,
                                   (raw[at[i]].start / seconds as real).Floor, LineRaw, None, [])
  }

  /** Exactly the retrieved lines with text are stored, in order. */
  ghost predicate StoresTheLines(raw: seq<RawSubtitle>, seconds: Positive, rows: seq<SubtitleRow>) {
    exists at :: Positions(at, raw, (line: RawSubtitle) => line.text != "") && StoredAs(raw, seconds, at, rows)
  }

  /** Exactly the windows in which a stored line starts are batches, all of them pending. */
  ghost predicate BatchesOfTheLines(batches: map<int, BatchRow>, seconds: Positive, rows: seq<SubtitleRow>) {
    && (forall b :: b in batches <==> exists i :: 0 <= i < |rows| && rows[i].batch == b)
    && (forall b :: b in batches ==>
          batches[b] == BatchRow(b as real * seconds as real, (b + 1) as real * seconds as real, BatchPending))
  }

  lemma LinesAreStored(raw: seq<RawSubtitle>, seconds: Positive)
    ensures StoresTheLines(raw, seconds, Stored(RawLinesWithBatches(raw, seconds)))
  {
    var lines, rows := WithText(raw), Stored(RawLinesWithBatches(raw, seconds));
    WithTextSelects(raw);
    var at :| Positions(at, raw, (line: RawSubtitle) => line.text != "") && Shows(lines, raw, at);
    forall i | 0 <= i < |rows|
      ensures rows[i].batch == (raw[at[i]].start / seconds as real).Floor
    {
      InWindowIffFloor(0, seconds, raw[at[i]].start);
    }
    assert StoredAs(raw, seconds, at, rows);
  }

  lemma StoringStores(config: Config, db: Db, raw: seq<RawSubtitle>)
    requires db.subtitles == [] && db.batches == map[]
    ensures var after := StoreDb(db, raw, config);
            && StoresTheLines(raw, config.batchSeconds, after.subtitles)
            && BatchesOfTheLines(after.batches, config.batchSeconds, after.subtitles)
            && after.video == Ready(db).video
  {
    hide StoresTheLines, BatchesOfTheLines, RawLinesWithBatches, WithMissing, BatchDefinitions, Stored, BatchesOfLines;
    LinesAreStored(raw, config.batchSeconds);
    BatchesAreAdded(RawLinesWithBatches(raw, config.batchSeconds), config.batchSeconds);
  }

  lemma BatchesAreAdded(lines: seq<RawLine>, seconds: Positive)
    ensures BatchesOfTheLines(WithMissing(map[], BatchDefinitions(BatchesOfLines(lines), seconds)), seconds, Stored(lines))
  {
    hide WithMissing, BatchDefinitions;
    CreateMissingAdds(map[], BatchesOfLines(lines), seconds);
    StoredBatches(lines);
    hide BatchesOfLines, Stored;
  }

  lemma StoredBatches(lines: seq<RawLine>)
    ensures forall b :: b in BatchesOfLines(lines) <==> exists i :: 0 <= i < |Stored(lines)| && Stored(lines)[i].batch == b
  {
    forall b ensures b in BatchesOfLines(lines) <==> exists i :: 0 <= i < |Stored(lines)| && Stored(lines)[i].batch == b {
      if i :| 0 <= i < |lines| && lines[i].batch == b {
        assert Stored(lines)[i].batch == b;
      }
    }
  }

  /** The video's row after a preparation: ready, at 0.30 or wherever it was ahead, its status as before. */
  ghost predicate Prepared(before: VideoRow, after: VideoRow) {
    after == VideoRow(before.status, ProcessingBatches, if before.progress >= 0.30 then before.progress else 0.30)
  }

  lemma ReadyIs(db: Db, first: VideoRow)
    requires 0.0 <= first.progress <= db.video.progress <= MaxReal(first.progress, 0.28) && first.progress <= 1.0
    requires db.video.status == first.status
    ensures Prepared(first, Ready(db.(video := WithPhase(db.video, PreparingBatches, 0.28))).video)
  {
  }

  /**
   A first preparation that gets its lines stores exactly those with text, in order and as they were retrieved, and exactly
   their batches, all pending; and the video is ready.
   */
  lemma FirstPreparationStores(config: Config, db: Db, source: Source, raw: seq<RawSubtitle>)
    requires Inv(config, db) && db.subtitles == [] && Retrieves(source, raw)
    ensures var after := Exec(config, db, PrepareSteps(db, source));
            && StoresTheLines(raw, config.batchSeconds, after.subtitles)
            && BatchesOfTheLines(after.batches, config.batchSeconds, after.subtitles)
            && Prepared(db.video, after.video)
  {
    hide Exec, States, SourceWrites, StoreDb, StoresTheLines, BatchesOfTheLines, Prepared, WriteSteps, WithWrites, RowsOk, WithPhase, Ready;
    var writes := SourceWrites(source);
    var written := Exec(config, db, WriteSteps(writes));
    var phased := Apply(config, written, SetPhase(PreparingBatches, 0.28));
    RetrievalMovesOn(source);
    WritesBelow(db, writes, 0.28);
    WritesAreSteps(config, db, writes);
    WritesTouchOnlyTheVideo(db, writes);
    WritesKeepStatus(db, writes);
    BatchesHaveLines(config, db);
    ReadyIs(written, db.video);
    assert PrepareSteps(db, source) == (WriteSteps(writes) + [SetPhase(PreparingBatches, 0.28)]) + [StoreLines(raw)];
    RunOne(config, db, WriteSteps(writes), SetPhase(PreparingBatches, 0.28));
    RunOne(config, db, WriteSteps(writes) + [SetPhase(PreparingBatches, 0.28)], StoreLines(raw));
    StoringStores(config, phased, raw);
  }

  /** Preparing a video again that is not done yet makes it ready, and leaves its subtitles and batches alone. */
  lemma LaterPreparationResumes(config: Config, db: Db, source: Source)
    requires Inv(config, db) && exists i :: 0 <= i < |db.subtitles| && db.subtitles[i].status != LineProcessed
    ensures var after := Exec(config, db, PrepareSteps(db, source));
            after == db.(video := after.video) && Prepared(db.video, after.video)
  {
    ResumeKeeps(config, db);
    ExecOne(config, db, ResumeLines);
    ReadyIs(db, db.video);
  }
}
