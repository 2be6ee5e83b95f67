/** What holds along whole runs of the pipeline: isolation, progress, and repair by retry. */
module Runs {
  import opened Common
  import opened Database
  import opened Progress
  import opened Pipeline
  import BatchWork
  import Schedule

  // ---------------------------------------------------------------- one batch at a time

  /** The other batches and their lines are as they were. */
  ghost predicate OthersUnchanged(before: Db, after: Db, index: int) {
    && after.batches.Keys == before.batches.Keys
    && (forall b :: b in before.batches && b != index ==> after.batches[b] == before.batches[b])
    && |after.subtitles| == |before.subtitles|
    && (forall i :: 0 <= i < |before.subtitles| && before.subtitles[i].batch != index ==>
          after.subtitles[i] == before.subtitles[i])
  }

  /** Processing, successful or not, and retrying touch no other batch and no other batch's subtitles. */
  lemma BatchesAreIsolated(config: Config, db: Db, index: int, p: Providers, struck: bool)
    ensures OthersUnchanged(db, ProcessDb(db, index, p, struck, config), index)
    ensures OthersUnchanged(db, Retried(db, index), index)
    ensures OthersUnchanged(db, FailedDb(db, index), index)
  {
    forall lines: seq<ProcessedLine> ensures OthersUnchanged(db, CompletedDb(Claimed(db, index), index, lines), index) {
      IsolatedCompletion(db, index, lines);
    }
    hide OthersUnchanged, CompletedDb, Claimed, FailedDb, Retried, BatchLines;
  }

  lemma IsolatedCompletion(db: Db, index: int, lines: seq<ProcessedLine>)
    ensures OthersUnchanged(db, CompletedDb(Claimed(db, index), index, lines), index)
  {
    hide BySequence;
  }

  /** Every line of the batch has the status, and a translation if it is processed. */
  ghost predicate BatchLinesAre(db: Db, index: int, status: LineStatus) {
    forall i :: 0 <= i < |db.subtitles| && db.subtitles[i].batch == index ==>
      db.subtitles[i].status == status && (status == LineProcessed ==> db.subtitles[i].translation.Some?)
  }

  lemma SuccessCompletesTheBatch(db: Db, index: int, lines: seq<ProcessedLine>)
    requires index in db.batches
    requires forall i :: 0 <= i < |db.subtitles| && db.subtitles[i].batch == index ==> db.subtitles[i].sequence in BySequence(lines)
    ensures CompletedDb(db, index, lines).batches[index].status == BatchCompleted
    ensures BatchLinesAre(CompletedDb(db, index, lines), index, LineProcessed)
  {
  }

  /** A batch that was not completed ends completed with all its lines processed, or failed with all of them failed. */
  lemma {:induction false} ProcessingSettlesTheBatch(config: Config, db: Db, index: int, p: Providers, struck: bool)
    requires Inv(config, db)
    requires index in db.batches && db.batches[index].status != BatchCompleted
    ensures var after := ProcessDb(db, index, p, struck, config);
            if BatchLines(db, index, p, config).Some? && !struck
            then && index in after.batches && after.batches[index].status == BatchCompleted
                 && BatchLinesAre(after, index, LineProcessed)
                 && after.video == if forall b :: b in db.batches && b != index ==> db.batches[b].status == BatchCompleted
                                   then VideoRow(VideoCompleted, PhaseCompleted, 1.0) else db.video
            else && index in after.batches && after.batches[index].status == BatchFailed
                 && after.video == db.video.(status := VideoFailed) && BatchLinesAre(after, index, LineFailed)
  {
    hide BatchLines, UpdateLine, BySequence, RowsOk;
    var lines := BatchLines(db, index, p, config);
    if lines.Some? && !struck {
      JoinMissesNoLine(config, db, index, p);
      SequencesArePositions(config, db);
      SuccessCompletesTheBatch(Claimed(db, index), index, lines.value);
      LastBatchCompletesTheVideo(db, index, lines.value);
    }
  }

  lemma LastBatchCompletesTheVideo(db: Db, index: int, lines: seq<ProcessedLine>)
    requires index in db.batches && db.video.progress <= 1.0
    ensures CompletedDb(Claimed(db, index), index, lines).video
         == if forall b :: b in db.batches && b != index ==> db.batches[b].status == BatchCompleted
            then VideoRow(VideoCompleted, PhaseCompleted, 1.0) else db.video
  {
    hide UpdateLine, BySequence, UpdateLines, MarkLines;
    var done := CompletedRows(Claimed(db, index), index, lines);
    assert done.batches[index].status == BatchCompleted;
    if AllCompleted(done.batches) {
      forall b | b in db.batches && b != index ensures db.batches[b].status == BatchCompleted {
        assert done.batches[b] == db.batches[b];
      }
    }
  }

  /** A retry makes an existing batch pending and the video processing, a late failure makes both failed, and nothing else. */
  lemma TakingBackIs(config: Config, db: Db, index: int)
    requires Inv(config, db) && index in db.batches
    ensures var after := Retried(db, index);
            && after.batches == db.batches[index := db.batches[index].(status := BatchPending)]
            && after.subtitles == db.subtitles && after.video == db.video.(status := VideoProcessing)
            && ProgressFor(after).status == VideoProcessing
    ensures var after := FailedDb(db, index);
            && after.batches == db.batches[index := db.batches[index].(status := BatchFailed)]
            && |after.subtitles| == |db.subtitles|
            && (forall i :: 0 <= i < |db.subtitles| ==>
                  after.subtitles[i] == if db.subtitles[i].batch == index then db.subtitles[i].(status := LineFailed) else db.subtitles[i])
            && after.video == db.video.(status := VideoFailed)
            && ProgressFor(after).status == VideoFailed
  {
    CompletedCount(Retried(db, index).batches);
    CompletedCount(FailedDb(db, index).batches);
    assert Retried(db, index).batches[index].status != BatchCompleted && FailedDb(db, index).batches[index].status != BatchCompleted;
  }

  lemma SequencesArePositions(config: Config, db: Db)
    requires Inv(config, db)
    ensures forall i :: 0 <= i < |db.subtitles| ==> db.subtitles[i].sequence == i
  {
    forall i | 0 <= i < |db.subtitles| ensures db.subtitles[i].sequence == i {
      assert LineOk(db.subtitles[i], i, db.batches, config.batchSeconds);
    }
  }

  ghost function TextsAt(subtitles: seq<SubtitleRow>, at: seq<nat>): seq<string>
    requires forall k :: 0 <= k < |at| ==> at[k] < |subtitles|
  {
    seq(|at|, k requires 0 <= k < |at| => subtitles[at[k]].text)
  }

  /**
   The row holds what the texts of its batch, sent to the providers in the order of the subtitles, brought for the row's
   own text: the translation or the gloss in its place, and the tokens of the analysis with the dictionary's entries.
   */
  ghost predicate HoldsOwnText(subtitles: seq<SubtitleRow>, index: int, size: Positive, p: Providers, i: nat, row: SubtitleRow) {
    exists at: seq<nat>, j: nat ::
      && Positions(at, subtitles, (other: SubtitleRow) => other.batch == index)
      && j < |at| && at[j] == i
      && HoldsAnswers(TextsAt(subtitles, at), size, p, j, row)
  }

  ghost predicate HoldsAnswers(texts: seq<string>, size: Positive, p: Providers, j: nat, row: SubtitleRow)
    requires j < |texts|
  {
    exists translation, analysis ::
      && BatchWork.OwnTranslation(p, texts, size, j, translation)
      && BatchWork.OwnAnalysis(p.analyzer, texts, size, j, analysis)
      && BatchWork.EnrichedFrom(p, row.text, analysis, row.tokens)
      && row.translation.Some? && BatchWork.GlossedFrom(p, row.text, translation, row.tokens, row.translation.value)
  }

  /** The subtitles a worker processes for one batch. */
  function BatchRows(db: Db, index: int): seq<SubtitleRow> {
    BatchWork.WithText(LinesOf(Claimed(db, index).subtitles, index))
  }

  /** A successful batch leaves every one of its subtitles processed with what its own text brought, and otherwise as it was. */
  lemma SuccessStoresEachLinesOwnText(config: Config, db: Db, index: int, p: Providers, i: nat)
    requires Inv(config, db)
    requires BatchWork.KeepsLength(p.translate) && BatchWork.AnalyzerKeepsLength(p.analyzer)
    requires index in db.batches && db.batches[index].status != BatchCompleted
    requires BatchLines(db, index, p, config).Some?
    requires i < |db.subtitles| && db.subtitles[i].batch == index
    ensures var before, after := db.subtitles, ProcessDb(db, index, p, false, config).subtitles;
            && |after| == |before|
            && after[i] == before[i].(status := LineProcessed, translation := after[i].translation, tokens := after[i].tokens)
            && HoldsOwnText(before, index, config.chunkSize, p, i, after[i])
  {
    var lines := BatchLines(db, index, p, config).value;
    SequencesArePositions(config, db);
    JoinMissesNoLine(config, db, index, p);
    StoredUnderOwnSequence(db, index, lines, i);
    hide ProcessDb, BatchLines, Claimed, CompletedDb, Inv, BatchWork.KeepsLength, BatchWork.AnalyzerKeepsLength,
      BatchWork.OwnTranslation, BatchWork.OwnAnalysis, BatchWork.EnrichedFrom, BatchWork.GlossedFrom;
    var j := OwnLineBySequence(config, db, index, p, i);
    var at := BatchPositions(config, db, index);
    var rows := BatchRows(db, index);
    PlaceInBatch(config, db, index, at, j, i);
    assert HoldsAnswers(TextsAt(db.subtitles, at), config.chunkSize, p, j, ProcessDb(db, index, p, false, config).subtitles[i]) by {
      assert TextsAt(db.subtitles, at) == BatchWork.TextColumn(rows);
    }
  }

  lemma StoredUnderOwnSequence(db: Db, index: int, lines: seq<ProcessedLine>, i: nat)
    requires i < |db.subtitles| && db.subtitles[i].batch == index && db.subtitles[i].sequence == i && i in BySequence(lines)
    ensures var claimed, line := Claimed(db, index), BySequence(lines)[i];
            && |CompletedDb(claimed, index, lines).subtitles| == |db.subtitles|
            && CompletedDb(claimed, index, lines).subtitles[i]
               == claimed.subtitles[i].(translation := Some(line.translation), status := LineProcessed, tokens := line.tokens)
            && claimed.subtitles[i].sequence == i && claimed.subtitles[i].text == db.subtitles[i].text
  {
  }

  /** The processed line found under a subtitle's sequence number is its own. */
  lemma OwnLineBySequence(config: Config, db: Db, index: int, p: Providers, i: nat) returns (j: nat)
    requires Inv(config, db)
    requires BatchWork.KeepsLength(p.translate) && BatchWork.AnalyzerKeepsLength(p.analyzer)
    requires BatchLines(db, index, p, config).Some?
    requires i < |db.subtitles| && i in BySequence(BatchLines(db, index, p, config).value)
    ensures var line, rows := BySequence(BatchLines(db, index, p, config).value)[i], BatchRows(db, index);
            j < |rows| && BatchWork.OwnLine(rows, p, config.chunkSize, j, line) && rows[j].sequence == i
  {
    hide Inv, BySequence, BatchWork.OwnTranslation, BatchWork.OwnAnalysis, BatchWork.EnrichedFrom, BatchWork.GlossedFrom, BatchWork.ProcessedLines,
      BatchWork.KeepsLength, BatchWork.AnalyzerKeepsLength;
    var lines, rows := BatchLines(db, index, p, config).value, BatchRows(db, index);
    BatchWork.LinesKeepTheirOwnText(LinesOf(Claimed(db, index).subtitles, index), p, config.chunkSize);
    BySequenceKeys(lines);
    var line := BySequence(lines)[i];
    j :| 0 <= j < |lines| && lines[j] == line;
    assert BatchWork.OwnLine(rows, p, config.chunkSize, j, lines[j]);
  }

  /** In a consistent state every subtitle has text, so a batch is all of its subtitles, in order. */
  lemma BatchPositions(config: Config, db: Db, index: int) returns (at: seq<nat>)
    requires Inv(config, db)
    ensures Positions(at, db.subtitles, (row: SubtitleRow) => row.batch == index)
    ensures |BatchRows(db, index)| == |at|
    ensures forall k :: 0 <= k < |at| ==> BatchRows(db, index)[k] == Claimed(db, index).subtitles[at[k]]
  {
    var claimed := Claimed(db, index).subtitles;
    LinesOfSelects(claimed, index);
    InLinesOf(claimed, index);
    forall row | row in LinesOf(claimed, index) ensures row.text != "" {
      var k :| 0 <= k < |claimed| && claimed[k] == row;
      assert LineOk(db.subtitles[k], k, db.batches, config.batchSeconds);
    }
    AllWithText(LinesOf(claimed, index));
    at :| Positions(at, claimed, (row: SubtitleRow) => row.batch == index) && Shows(LinesOf(claimed, index), claimed, at);
    SameBatchesClaimed(db, index, at);
  }

  lemma SameBatchesClaimed(db: Db, index: int, at: seq<nat>)
    requires Positions(at, Claimed(db, index).subtitles, (row: SubtitleRow) => row.batch == index)
    ensures Positions(at, db.subtitles, (row: SubtitleRow) => row.batch == index)
  {
    assert forall k :: 0 <= k < |db.subtitles| ==> Claimed(db, index).subtitles[k].batch == db.subtitles[k].batch;
  }

  lemma {:induction false} AllWithText(rows: seq<SubtitleRow>)
    requires forall row :: row in rows ==> row.text != ""
    ensures BatchWork.WithText(rows) == rows
  {
    if rows != [] {
      AllWithText(rows[1..]);
    }
  }

  /** Sequence numbers are positions, so a row of the batch is known by its own. */
  lemma PlaceInBatch(config: Config, db: Db, index: int, at: seq<nat>, j: nat, i: nat)
    requires Inv(config, db) && i < |db.subtitles|
    requires |BatchRows(db, index)| == |at| && forall k :: 0 <= k < |at| ==> at[k] < |db.subtitles|
    requires forall k :: 0 <= k < |at| ==> BatchRows(db, index)[k] == Claimed(db, index).subtitles[at[k]]
    requires j < |at| && BatchRows(db, index)[j].sequence == i
    ensures at[j] == i
    ensures forall k :: 0 <= k < |at| ==> BatchRows(db, index)[k].text == db.subtitles[at[k]].text
  {
    assert LineOk(db.subtitles[at[j]], at[j], db.batches, config.batchSeconds);
  }

  // ---------------------------------------------------------------- progress along a run

  /** A step that does not take back a completed batch, by retrying it or by failing it after its commit. */
  ghost predicate Calm(db: Db, step: Step) {
    match step
    case LateFailure(index) => index !in CompletedBatches(db.batches)
    case Retry(index) => index !in CompletedBatches(db.batches)
    case _ => true
  }

  lemma ProcessKeepsProgress(config: Config, db: Db, index: int, p: Providers, struck: bool)
    ensures var after := ProcessDb(db, index, p, struck, config);
            && after.batches.Keys == db.batches.Keys
            && CompletedBatches(db.batches) <= CompletedBatches(after.batches)
            && db.video.progress <= after.video.progress
  {
  }

  lemma {:induction false} StoreKeepsProgress(config: Config, db: Db, raw: seq<Schedule.RawSubtitle>)
    requires Inv(config, db)
    ensures ProgressFor(db).progress <= ProgressFor(StoreDb(db, raw, config)).progress
  {
    hide ProgressFor;
    StoreKeeps(config, db, raw);
    BatchesHaveLines(config, db);
    if db.subtitles == [] {
      assert db.batches == map[];
      ReportGrows(db, StoreDb(db, raw, config));
    }
  }

  /** Taking back a batch that is not completed leaves the completed ones. */
  lemma {:induction false} TakenBackKeepsProgress(db: Db, after: Db, index: int)
    requires HonestVideo(db) && HonestVideo(after) && index !in CompletedBatches(db.batches)
    requires after.video.progress == db.video.progress
    requires after.batches == WithStatus(db.batches, index, BatchFailed) || after.batches == WithStatus(db.batches, index, BatchPending)
    ensures ProgressFor(db).progress <= ProgressFor(after).progress
  {
    hide ProgressFor;
    assert CompletedBatches(db.batches) <= CompletedBatches(after.batches);
    ReportGrows(db, after);
  }

  lemma StepKeepsProgress(config: Config, db: Db, step: Step)
    requires Inv(config, db) && Calm(db, step)
    ensures ProgressFor(db).progress <= ProgressFor(Apply(config, db, step)).progress
  {
    hide ProgressFor, StoreDb, ProcessDb;
    StepKeeps(config, db, step);
    var after := Apply(config, db, step);
    match step
    case Process(index, providers, struck) =>
      ProcessKeepsProgress(config, db, index, providers, struck);
      ReportGrows(db, after);
    case StoreLines(raw) =>
      StoreKeepsProgress(config, db, raw);
    case ResumeLines =>
      ResumeKeeps(config, db);
      ReportGrows(db, after);
    case LateFailure(index) =>
      TakenBackKeepsProgress(db, after, index);
    case Retry(index) =>
      TakenBackKeepsProgress(db, after, index);
    case _ =>
      ReportGrows(db, after);
  }

  ghost predicate CalmRun(config: Config, db: Db, steps: seq<Step>, from: nat) {
    forall k :: from <= k < |steps| ==> Calm(Exec(config, db, steps[..k]), steps[k])
  }

  lemma {:induction false} ProgressInRange(config: Config, db: Db, steps: seq<Step>)
    requires Inv(config, db)
    ensures 0.0 <= ProgressFor(Exec(config, db, steps)).progress <= 1.0
  {
    ExecKeeps(config, db, steps);
    CompletedExactlyWhenAllBatchesAre(Exec(config, db, steps));
  }

  lemma {:induction false} LastStepKeepsProgress(config: Config, db: Db, steps: seq<Step>)
    requires Inv(config, db) && steps != []
    requires Calm(Exec(config, db, steps[..|steps| - 1]), steps[|steps| - 1])
    ensures ProgressFor(Exec(config, db, steps[..|steps| - 1])).progress <= ProgressFor(Exec(config, db, steps)).progress
  {
    ExecKeeps(config, db, steps[..|steps| - 1]);
    StepKeepsProgress(config, Exec(config, db, steps[..|steps| - 1]), steps[|steps| - 1]);
  }

  lemma CalmPrefix(config: Config, db: Db, steps: seq<Step>, from: nat)
    requires from < |steps| && CalmRun(config, db, steps, from)
    ensures CalmRun(config, db, steps[..|steps| - 1], from)
    ensures Calm(Exec(config, db, steps[..|steps| - 1]), steps[|steps| - 1])
  {
    var prefix := steps[..|steps| - 1];
    forall k | from <= k < |prefix| ensures Calm(Exec(config, db, prefix[..k]), prefix[k]) {
      assert prefix[..k] == steps[..k];
    }
  }

  /**
   Along every run in which no completed batch is taken back, whatever batches fail and wherever it is cut off, the
   reported progress stays between 0 and 1 and never decreases.
   */
  lemma {:induction false} ProgressNeverFalls(config: Config, db: Db, steps: seq<Step>, from: nat)
    requires Inv(config, db) && from <= |steps| && CalmRun(config, db, steps, from)
    ensures 0.0 <= ProgressFor(Exec(config, db, steps[..from])).progress
                <= ProgressFor(Exec(config, db, steps)).progress <= 1.0
    decreases |steps|
  {
    ProgressInRange(config, db, steps[..from]);
    ProgressInRange(config, db, steps);
    if from < |steps| {
      CalmPrefix(config, db, steps, from);
      ProgressNeverFalls(config, db, steps[..|steps| - 1], from);
      assert steps[..|steps| - 1][..from] == steps[..from];
      LastStepKeepsProgress(config, db, steps);
    } else {
      assert steps[..from] == steps;
    }
  }

  /** In every reachable state, completed is reported exactly when there are batches and all of them are completed. */
  lemma CompletedReportIsExact(config: Config, steps: seq<Step>)
    ensures var db := Exec(config, FRESH, steps);
            && (ProgressFor(db).status == VideoCompleted <==> AllCompleted(db.batches))
            && (ProgressFor(db).status == VideoCompleted ==> ProgressFor(db).progress == 1.0)
  {
    FreshOk(config);
    ExecKeeps(config, FRESH, steps);
    CompletedExactlyWhenAllBatchesAre(Exec(config, FRESH, steps));
  }

  // ---------------------------------------------------------------- the reported status

  /** The status that a step gives the video, if it gives it one; that completing the last batch does shows in the batches. */
  ghost function GivenStatus(config: Config, db: Db, step: Step): Option<VideoStatus> {
    match step
    case Import =>
      if db.subtitles == [] || exists i :: 0 <= i < |db.subtitles| && db.subtitles[i].status != LineProcessed
      then Some(VideoProcessing) else None
    case Retry(_) => Some(VideoProcessing)
    case LateFailure(_) => Some(VideoFailed)
    case Process(index, p, struck) =>
      if index in db.batches && db.batches[index].status != BatchCompleted && (struck || BatchLines(db, index, p, config).None?)
      then Some(VideoFailed) else None
    case _ => None
  }

  /** The status given last along a run, pending for a fresh video. */
  ghost function LastGiven(config: Config, steps: seq<Step>): VideoStatus {
    if steps == [] then VideoPending
    else
      var n := |steps| - 1;
      var given := GivenStatus(config, Exec(config, FRESH, steps[..n]), steps[n]);
      if given.Some? then given.value else LastGiven(config, steps[..n])
  }

  /** Some batch is not completed, and then the video has the status given last. */
  ghost predicate ShowsGiven(db: Db, given: VideoStatus) {
    AllCompleted(db.batches) || db.video.status == given
  }

  lemma StepShowsGiven(config: Config, db: Db, step: Step, given: VideoStatus)
    requires Inv(config, db) && ShowsGiven(db, given)
    ensures var now := GivenStatus(config, db, step);
            ShowsGiven(Apply(config, db, step), if now.Some? then now.value else given)
  {
    hide UpdateLines, MarkLines, BatchLines;
    match step
    case Process(index, p, struck) =>
      ProcessShowsGiven(config, db, index, p, struck, given);
    case StoreLines(raw) =>
      BatchesHaveLines(config, db);
      if AllCompleted(db.batches) {
        assert db.batches.Keys != {};
      }
    case ResumeLines =>
      ResumeKeeps(config, db);
    case Import =>
      if AllCompleted(db.batches) {
        CompletedLines(config, db);
      }
    case _ =>
  }

  /** When all batches are completed all lines are processed. */
  lemma CompletedLines(config: Config, db: Db)
    requires Inv(config, db) && AllCompleted(db.batches)
    ensures AllLinesProcessed(db.subtitles)
  {
    BatchesHaveLines(config, db);
    assert db.batches.Keys != {};
    forall i | 0 <= i < |db.subtitles| ensures db.subtitles[i].status == LineProcessed {
      assert LineOk(db.subtitles[i], i, db.batches, config.batchSeconds);
    }
  }

  lemma ProcessShowsGiven(config: Config, db: Db, index: int, p: Providers, struck: bool, given: VideoStatus)
    requires Inv(config, db) && ShowsGiven(db, given)
    ensures var now := GivenStatus(config, db, Process(index, p, struck));
            ShowsGiven(ProcessDb(db, index, p, struck, config), if now.Some? then now.value else given)
  {
    hide BatchLines, UpdateLines, MarkLines, Inv;
    if index in db.batches && db.batches[index].status != BatchCompleted {
      assert !AllCompleted(db.batches);
    }
  }

  /**
   In every reachable state the report says completed if there are batches and all are completed, and otherwise the status
   given last: processing by an import that was not done yet or a retry, failed by a batch that failed.
   */
  lemma {:induction false} ReportedStatusIs(config: Config, steps: seq<Step>)
    ensures var db := Exec(config, FRESH, steps);
            ProgressFor(db).status == if AllCompleted(db.batches) then VideoCompleted else LastGiven(config, steps)
  {
    FreshOk(config);
    ExecKeeps(config, FRESH, steps);
    RunShowsGiven(config, steps);
    CompletedExactlyWhenAllBatchesAre(Exec(config, FRESH, steps));
    hide Exec;
  }

  lemma {:induction false} RunShowsGiven(config: Config, steps: seq<Step>)
    ensures ShowsGiven(Exec(config, FRESH, steps), LastGiven(config, steps))
  {
    if steps != [] {
      hide ShowsGiven, GivenStatus, Apply;
      var n := |steps| - 1;
      FreshOk(config);
      ExecKeeps(config, FRESH, steps[..n]);
      RunShowsGiven(config, steps[..n]);
      StepShowsGiven(config, Exec(config, FRESH, steps[..n]), steps[n], LastGiven(config, steps[..n]));
    }
  }

  /** After a batch has failed every report says failed, until an import, a retry or the completion of all batches. */
  lemma {:induction false} FailureStaysReported(config: Config, steps: seq<Step>, k: nat)
    requires k < |steps| && GivenStatus(config, Exec(config, FRESH, steps[..k]), steps[k]) == Some(VideoFailed)
    requires forall j :: k < j < |steps| ==> !steps[j].Import? && !steps[j].Retry?
    ensures var db := Exec(config, FRESH, steps);
            ProgressFor(db).status == if AllCompleted(db.batches) then VideoCompleted else VideoFailed
  {
    ReportedStatusIs(config, steps);
    LastGivenFailed(config, steps, k);
  }

  lemma LastGivenStep(config: Config, steps: seq<Step>)
    requires steps != [] && !steps[|steps| - 1].Import? && !steps[|steps| - 1].Retry?
    ensures LastGiven(config, steps) == VideoFailed || LastGiven(config, steps) == LastGiven(config, steps[..|steps| - 1])
  {
    hide Exec, BatchLines;
  }

  lemma {:induction false} LastGivenFailed(config: Config, steps: seq<Step>, k: nat)
    requires k < |steps| && GivenStatus(config, Exec(config, FRESH, steps[..k]), steps[k]) == Some(VideoFailed)
    requires forall j :: k < j < |steps| ==> !steps[j].Import? && !steps[j].Retry?
    ensures LastGiven(config, steps) == VideoFailed
  {
    hide Exec, GivenStatus;
    var n := |steps| - 1;
    if k < n {
      LastGivenStep(config, steps);
      assert steps[..n][..k] == steps[..k] && steps[..n][k] == steps[k];
      LastGivenFailed(config, steps[..n], k);
    }
  }

  lemma RatioLess(a: nat, b: nat, total: nat)
    requires a < b <= total
    ensures Ratio(a, total) < Ratio(b, total)
  {
    QuotientOrder(a as real, b as real, total as real);
  }

  /**
   The condition is needed, and this is how much. In every reachable state, retrying a completed batch, or failing it
   after its commit, lowers the reported progress exactly when not all batches are completed and the persisted progress
   is behind the share of the completed ones.
   */
  lemma TakingBackLowersProgressIff(config: Config, steps: seq<Step>, index: int)
    requires index in CompletedBatches(Exec(config, FRESH, steps).batches)
    ensures var db := Exec(config, FRESH, steps);
            var lowers := !AllCompleted(db.batches) && db.video.progress < CompletedShare(db);
            && (ProgressFor(Retried(db, index)).progress < ProgressFor(db).progress <==> lowers)
            && (ProgressFor(FailedDb(db, index)).progress < ProgressFor(db).progress <==> lowers)
  {
    var db := Exec(config, FRESH, steps);
    FreshOk(config);
    ExecKeeps(config, FRESH, steps);
    hide Exec, ProgressFor, HonestVideo, AllCompleted, CompletedShare, CompletedBatches, RowsOk;
    TakenBackLowersProgressIff(db, Retried(db, index), index);
    TakenBackLowersProgressIff(db, FailedDb(db, index), index);
  }

  /** The progress that the completed batches alone stand for. */
  function CompletedShare(db: Db): real {
    0.30 + 0.68 * Ratio(|CompletedBatches(db.batches)|, |db.batches|)
  }

  lemma TakenBackLowersProgressIff(db: Db, after: Db, index: int)
    requires HonestVideo(db) && index in CompletedBatches(db.batches)
    requires after.batches.Keys == db.batches.Keys
    requires CompletedBatches(after.batches) == CompletedBatches(db.batches) - {index}
    requires after.video.status != VideoCompleted && after.video.progress == db.video.progress
    ensures ProgressFor(after).progress < ProgressFor(db).progress
            <==> !AllCompleted(db.batches) && db.video.progress < CompletedShare(db)
  {
    var k, n := |CompletedBatches(db.batches)|, |db.batches|;
    CompletedCount(db.batches);
    assert |CompletedBatches(after.batches)| == k - 1;
    assert |after.batches| == |after.batches.Keys| == |db.batches.Keys| == n;
    RatioLess(k - 1, k, n);
    RatioGrows(k, n, n);
  }

  // A video of two batches, the first of them completed after its last report was persisted.
  const EXAMPLE_CONFIG := Config(120, 20)
  const EXAMPLE_LINES := [Schedule.RawSubtitle(0.0, 2.0, "a"), Schedule.RawSubtitle(130.0, 132.0, "b")]
  const EXAMPLE_STORED := [Import, StoreLines(EXAMPLE_LINES)]
  const EXAMPLE_RUN := EXAMPLE_STORED + [SetPhase(Saving, 0.6332)] + [Process(0, BatchWork.ECHO, false)]

  /** Importing and preparing it leaves two pending batches and progress 0.30. */
  lemma ExampleStored()
    ensures var db := Exec(EXAMPLE_CONFIG, FRESH, EXAMPLE_STORED);
            && db.batches.Keys == {0, 1} && (forall b :: b in db.batches ==> db.batches[b].status == BatchPending)
            && db.video == VideoRow(VideoProcessing, ProcessingBatches, 0.30)
  {
    hide Exec, FRESH, WithMissing, Schedule.BatchDefinitions, BatchesOfLines, Schedule.RawLinesWithBatches, Stored, EXAMPLE_LINES,
      Schedule.Windowed;
    ExampleBatches();
    CreateMissingAdds(map[], BatchesOfLines(Schedule.RawLinesWithBatches(EXAMPLE_LINES, 120)), 120);
    ExampleImported();
    RunOne(EXAMPLE_CONFIG, FRESH, [Import], StoreLines(EXAMPLE_LINES));
    var lines := Schedule.RawLinesWithBatches(EXAMPLE_LINES, 120);
    var added := WithMissing(map[], Schedule.BatchDefinitions(BatchesOfLines(lines), 120));
    assert forall b :: b in added <==> b in BatchesOfLines(lines);
    assert added.Keys == {0, 1};
    assert EXAMPLE_STORED == [Import] + [StoreLines(EXAMPLE_LINES)];
  }

  lemma ExampleImported()
    ensures Exec(EXAMPLE_CONFIG, FRESH, [Import]) == Db(VideoRow(VideoProcessing, SubtitleSource, 0.05), map[], [])
  {
    ExecOne(EXAMPLE_CONFIG, FRESH, Import);
  }

  lemma ExampleBatches()
    ensures BatchesOfLines(Schedule.RawLinesWithBatches(EXAMPLE_LINES, 120)) == {0, 1}
  {
    var lines := Schedule.RawLinesWithBatches(EXAMPLE_LINES, 120);
    assert EXAMPLE_LINES[1..] == [EXAMPLE_LINES[1]] && EXAMPLE_LINES[1..][1..] == [];
    assert Schedule.WithText(EXAMPLE_LINES) == EXAMPLE_LINES;
    FloorQuotientIs(0, 0.0, 120);
    FloorQuotientIs(1, 130.0, 120);
    assert lines[0].batch == 0 && lines[1].batch == 1;
  }

  lemma ExampleRuns()
    ensures var stored := Exec(EXAMPLE_CONFIG, FRESH, EXAMPLE_STORED);
            var written := Apply(EXAMPLE_CONFIG, stored, SetPhase(Saving, 0.6332));
            Exec(EXAMPLE_CONFIG, FRESH, EXAMPLE_RUN) == ProcessDb(written, 0, BatchWork.ECHO, false, EXAMPLE_CONFIG)
  {
    hide Exec, ProcessDb, FRESH, EXAMPLE_STORED;
    RunOne(EXAMPLE_CONFIG, FRESH, EXAMPLE_STORED, SetPhase(Saving, 0.6332));
    RunOne(EXAMPLE_CONFIG, FRESH, EXAMPLE_STORED + [SetPhase(Saving, 0.6332)], Process(0, BatchWork.ECHO, false));
  }

  /** Retrying the completed batch takes the reported progress from 0.64 back to the persisted 0.6332. */
  lemma RetryLowersProgressExample()
    ensures var db := Exec(EXAMPLE_CONFIG, FRESH, EXAMPLE_RUN);
            && CompletedBatches(db.batches) == {0}
            && ProgressFor(db).progress == 0.64
            && ProgressFor(Retried(db, 0)).progress == 0.6332
  {
    hide Exec, ProcessDb, Inv, ProgressFor, CompletedBatches, FRESH, EXAMPLE_STORED, EXAMPLE_RUN;
    ExampleRuns();
    ExampleStored();
    FreshOk(EXAMPLE_CONFIG);
    ExecKeeps(EXAMPLE_CONFIG, FRESH, EXAMPLE_STORED);
    var stored := Exec(EXAMPLE_CONFIG, FRESH, EXAMPLE_STORED);
    ExampleWrites(stored);
    ExampleProcessed(ExampleWritten(stored));
    ExampleReports(Exec(EXAMPLE_CONFIG, FRESH, EXAMPLE_RUN));
  }

  lemma ExampleWrites(stored: Db)
    requires Inv(EXAMPLE_CONFIG, stored) && stored.video == VideoRow(VideoProcessing, ProcessingBatches, 0.30)
    ensures ExampleWritten(stored) == stored.(video := VideoRow(VideoProcessing, Saving, 0.6332))
    ensures Inv(EXAMPLE_CONFIG, ExampleWritten(stored))
  {
    StepKeeps(EXAMPLE_CONFIG, stored, SetPhase(Saving, 0.6332));
  }

  function ExampleWritten(db: Db): Db {
    Apply(EXAMPLE_CONFIG, db, SetPhase(Saving, 0.6332))
  }

  lemma ExampleProcessed(db: Db)
    requires Inv(EXAMPLE_CONFIG, db) && db.batches.Keys == {0, 1}
    requires forall b :: b in db.batches ==> db.batches[b].status == BatchPending
    ensures var after := ProcessDb(db, 0, BatchWork.ECHO, false, EXAMPLE_CONFIG);
            && after.batches.Keys == {0, 1} && after.video == db.video
            && after.batches[0].status == BatchCompleted && after.batches[1].status == BatchPending
  {
    hide BatchWork.ECHO;
    var lines := LinesOf(Claimed(db, 0).subtitles, 0);
    BatchWork.EchoNeverRaises(lines, EXAMPLE_CONFIG.chunkSize);
    assert 1 in db.batches && 0 in db.batches;
    ProcessingSettlesTheBatch(EXAMPLE_CONFIG, db, 0, BatchWork.ECHO, false);
    BatchesAreIsolated(EXAMPLE_CONFIG, db, 0, BatchWork.ECHO, false);
  }

  lemma ExampleReports(db: Db)
    requires db.batches.Keys == {0, 1} && db.batches[0].status == BatchCompleted && db.batches[1].status == BatchPending
    requires db.video == VideoRow(VideoProcessing, Saving, 0.6332)
    ensures CompletedBatches(db.batches) == {0} && CompletedBatches(Retried(db, 0).batches) == {}
    ensures ProgressFor(db).progress == 0.64 && ProgressFor(Retried(db, 0)).progress == 0.6332
  {
    var after := Retried(db, 0);
    assert after.batches.Keys == {0, 1};
    assert |db.batches| == |db.batches.Keys| == 2 && |after.batches| == |after.batches.Keys| == 2;
    assert forall b :: b in CompletedBatches(db.batches) <==> b == 0;
    assert forall b :: b !in CompletedBatches(after.batches);
  }

  // ---------------------------------------------------------------- a retry repairs a failure

  /**
   A batch that failed, was retried and then processed leaves the same batch rows and subtitles as if it had been
   processed in the first place.
   */
  lemma RetryRepairsAFailure(config: Config, db: Db, index: int, failing: Providers, struck: bool, p: Providers)
    requires index in db.batches && db.batches[index].status != BatchCompleted
    requires struck || BatchLines(db, index, failing, config).None?
    ensures var failed := ProcessDb(db, index, failing, struck, config);
            var repaired := ProcessDb(Retried(failed, index), index, p, false, config);
            var direct := ProcessDb(db, index, p, false, config);
            repaired.batches == direct.batches && repaired.subtitles == direct.subtitles
            && repaired.video.progress == direct.video.progress
  {
    var failed := ProcessDb(db, index, failing, struck, config);
    assert failed == FailedDb(db, index);
    SameClaim(db, index);
    assert BatchLines(Retried(failed, index), index, p, config) == BatchLines(db, index, p, config);
  }

  lemma SameClaim(db: Db, index: int)
    ensures Claimed(Retried(FailedDb(db, index), index), index).subtitles == Claimed(db, index).subtitles
    ensures Claimed(Retried(FailedDb(db, index), index), index).batches == Claimed(db, index).batches
  {
  }
}
