/**
 The progressive subtitle pipeline of one video: steps commit one after the other, and a crash leaves a prefix of them.
 */
module Pipeline {
  import opened Common
  import opened Database
  import opened Progress
  import opened Schedule
  import BatchWork

  type Providers = BatchWork.Providers

  /**
   One committed transaction each. A Process step is `struck` when an exception other than the providers' own hits it
   before its commit; a LateFailure is an exception after that commit, while the answer is being built.
   */
  datatype Step =
    | Import
    | SetPhase(phase: Phase, progress: real)
    | StoreLines(raw: seq<RawSubtitle>)
    | ResumeLines
    | Process(index: int, providers: Providers, struck: bool)
    | LateFailure(index: int)
    | Retry(index: int)

  /** The two settings the pipeline depends on. */
  datatype Config = Config(batchSeconds: Positive, chunkSize: Positive)

  // ---------------------------------------------------------------- the steps

  predicate AllLinesProcessed(rows: seq<SubtitleRow>) {
    rows != [] && forall i :: 0 <= i < |rows| ==> rows[i].status == LineProcessed
  }

  function BatchesOfLines(lines: seq<RawLine>): set<int> {
    set i | 0 <= i < |lines| :: lines[i].batch
  }

  function BatchesOfRows(rows: seq<SubtitleRow>): set<int> {
    set i | 0 <= i < |rows| :: rows[i].batch
  }

  function ImportDb(db: Db): Db {
    if AllLinesProcessed(db.subtitles) then db
    else db.(video := WithPhase(db.video.(status := VideoProcessing), SubtitleSource, 0.05))
  }

  function Ready(db: Db): Db {
    db.(video := WithPhase(db.video, ProcessingBatches, MaxReal(db.video.progress, 0.30)))
  }

  function StoreDb(db: Db, raw: seq<RawSubtitle>, config: Config): Db {
    if db.subtitles != [] then db
    else
      var lines := RawLinesWithBatches(raw, config.batchSeconds);
      Ready(db.(subtitles := Stored(lines),
                batches := WithMissing(db.batches, BatchDefinitions(BatchesOfLines(lines), config.batchSeconds))))
  }

  function ResumeDb(db: Db, config: Config): Db {
    if db.subtitles == [] || AllLinesProcessed(db.subtitles) then db
    else
      Ready(db.(video := WithPhase(db.video, PreparingBatches, 0.28),
                batches := WithMissing(db.batches, BatchDefinitions(BatchesOfRows(db.subtitles), config.batchSeconds))))
  }

  /** The claim a worker flushes before it starts: visible to itself only. */
  function Claimed(db: Db, index: int): Db {
    db.(batches := WithStatus(db.batches, index, BatchProcessing),
        subtitles := MarkLines(db.subtitles, index, LineProcessing))
  }

  /** The rows of a completed batch, before the video's own row is looked at. */
  function CompletedRows(db: Db, index: int, lines: seq<ProcessedLine>): Db {
    db.(batches := WithStatus(db.batches, index, BatchCompleted), subtitles := UpdateLines(db.subtitles, index, lines))
  }

  function CompletedDb(db: Db, index: int, lines: seq<ProcessedLine>): Db {
    var done := CompletedRows(db, index, lines);
    if AllCompleted(done.batches)
    then done.(video := WithPhase(done.video.(status := VideoCompleted), PhaseCompleted, 1.0)) else done
  }

  function FailedDb(db: Db, index: int): Db {
    db.(batches := WithStatus(db.batches, index, BatchFailed),
        subtitles := MarkLines(db.subtitles, index, LineFailed),
        video := db.video.(status := VideoFailed))
  }

  /** The lines a claimed batch is processed into, None when processing raises. */
  function BatchLines(db: Db, index: int, p: Providers, config: Config): Option<seq<ProcessedLine>> {
    BatchWork.ProcessedLines(LinesOf(Claimed(db, index).subtitles, index), p, config.chunkSize)
  }

  function ProcessDb(db: Db, index: int, p: Providers, struck: bool, config: Config): Db {
    if index !in db.batches || db.batches[index].status == BatchCompleted then db
    else
      var lines := BatchLines(db, index, p, config);
      if lines.None? || struck then FailedDb(db, index)
      else CompletedDb(Claimed(db, index), index, lines.value)
  }

  function Apply(config: Config, db: Db, step: Step): Db {
    match step
    case Import => ImportDb(db)
    case SetPhase(phase, progress) => db.(video := WithPhase(db.video, phase, progress))
    case StoreLines(raw) => StoreDb(db, raw, config)
    case ResumeLines => ResumeDb(db, config)
    case Process(index, providers, struck) => ProcessDb(db, index, providers, struck, config)
    case LateFailure(index) => FailedDb(db, index)
    case Retry(index) => Retried(db, index)
  }

  /** The state after all the steps. */
  function Exec(config: Config, db: Db, steps: seq<Step>): Db {
    if steps == [] then db
    else Apply(config, Exec(config, db, steps[..|steps| - 1]), steps[|steps| - 1])
  }

  /** The states committed on the way, in order. */
  ghost function States(config: Config, db: Db, steps: seq<Step>): seq<Db> {
    if steps == [] then [] else States(config, db, steps[..|steps| - 1]) + [Exec(config, db, steps)]
  }

  /** A video row as it is first inserted. */
  const FRESH := Db(VideoRow(VideoPending, PhasePending, 0.0), map[], [])

  // ---------------------------------------------------------------- the invariant

  ghost predicate LineOk(row: SubtitleRow, i: nat, batches: map<int, BatchRow>, seconds: Positive) {
    && row.sequence == i
    && row.text != ""
    && row.status != LineProcessing
    && (row.status == LineProcessed ==> row.translation.Some?)
    && row.batch in batches
    && row.batch == BatchIndexOf(row.start, seconds)
    && (batches[row.batch].status == BatchCompleted ==> row.status == LineProcessed)
  }

  ghost predicate BatchOk(b: int, row: BatchRow, subtitles: seq<SubtitleRow>) {
    && row.status != BatchProcessing
    && exists i :: 0 <= i < |subtitles| && subtitles[i].batch == b
  }

  /**
   Batches are pending, completed or failed; every subtitle has exactly one batch row, the one of its time window, and
   every batch row has a subtitle; a completed batch has all its subtitles processed and translated; a completed video
   has batches, all of them completed; and when all batches are completed the video's progress is 1.
   */
  ghost predicate Inv(config: Config, db: Db) {
    RowsOk(config, db) && HonestVideo(db)
  }

  /** The part of the invariant that is about subtitles and batches. */
  ghost predicate RowsOk(config: Config, db: Db) {
    && (forall i :: 0 <= i < |db.subtitles| ==> LineOk(db.subtitles[i], i, db.batches, config.batchSeconds))
    && (forall b :: b in db.batches ==> BatchOk(b, db.batches[b], db.subtitles))
    && Windowed(db.batches, config.batchSeconds)
  }

  lemma FreshOk(config: Config)
    ensures Inv(config, FRESH)
  {
  }

  lemma VideoOnly(config: Config, db: Db, video: VideoRow)
    requires Inv(config, db) && HonestVideo(db.(video := video))
    ensures Inv(config, db.(video := video))
  {
  }

  lemma {:induction false} WithMissingKeys(batches: map<int, BatchRow>, windows: seq<Window>)
    ensures forall b :: b in WithMissing(batches, windows) <==>
              b in batches || exists i :: 0 <= i < |windows| && windows[i].index == b
    ensures forall b :: b in batches ==> WithMissing(batches, windows)[b] == batches[b]
  {
    if windows != [] {
      var n := |windows| - 1;
      WithMissingKeys(batches, windows[..n]);
      assert windows == windows[..n] + [windows[n]];
      assert windows[n].index in WithMissing(batches, windows);
      forall b ensures b in WithMissing(batches, windows) <==>
                         b in batches || exists i :: 0 <= i < |windows| && windows[i].index == b
      {
        if i :| 0 <= i < n && windows[..n][i].index == b {
          assert windows[i].index == b;
        }
      }
    }
  }

  lemma {:induction false} WithMissingNew(batches: map<int, BatchRow>, windows: seq<Window>, seconds: Positive)
    requires Windowed(batches, seconds)
    requires forall i :: 0 <= i < |windows| ==> windows[i] == WindowOf(windows[i].index, seconds)
    ensures Windowed(WithMissing(batches, windows), seconds)
    ensures forall b :: b in WithMissing(batches, windows) && b !in batches ==>
              WithMissing(batches, windows)[b].status == BatchPending
  {
    if windows != [] {
      WithMissingNew(batches, windows[..|windows| - 1], seconds);
    }
  }

  lemma DefinitionOf(indexes: set<int>, seconds: Positive, b: int)
    ensures b in indexes <==> exists i :: 0 <= i < |BatchDefinitions(indexes, seconds)| && BatchDefinitions(indexes, seconds)[i].index == b
  {
    var order, windows := SortedSet(indexes), BatchDefinitions(indexes, seconds);
    if b in indexes {
      assert b in order;
      var i :| 0 <= i < |order| && order[i] == b;
      assert windows[i].index == b;
    }
    if i :| 0 <= i < |windows| && windows[i].index == b {
      assert order[i] in order;
    }
  }

  /** create_missing adds the windows of the given indexes as pending and leaves every existing batch as it is. */
  lemma {:induction false} CreateMissingAdds(batches: map<int, BatchRow>, indexes: set<int>, seconds: Positive)
    requires Windowed(batches, seconds)
    ensures var after := WithMissing(batches, BatchDefinitions(indexes, seconds));
            && (forall b :: b in after <==> b in batches || b in indexes)
            && Windowed(after, seconds)
            && (forall b :: b in batches ==> after[b] == batches[b])
            && (forall b :: b in indexes && b !in batches ==> after[b].status == BatchPending)
  {
    var windows := BatchDefinitions(indexes, seconds);
    WithMissingKeys(batches, windows);
    WithMissingNew(batches, windows, seconds);
    forall b ensures b in WithMissing(batches, windows) <==> b in batches || b in indexes {
      DefinitionOf(indexes, seconds, b);
    }
  }

  lemma {:induction false} WithTextNonEmpty(raw: seq<RawSubtitle>)
    ensures forall i :: 0 <= i < |Schedule.WithText(raw)| ==> Schedule.WithText(raw)[i].text != ""
  {
    if raw != [] {
      WithTextNonEmpty(raw[1..]);
    }
  }

  lemma BatchesHaveLines(config: Config, db: Db)
    requires Inv(config, db)
    ensures db.batches.Keys == {} || db.subtitles != []
  {
    if db.batches.Keys != {} {
      var b := AnyElement(db.batches.Keys);
      assert BatchOk(b, db.batches[b], db.subtitles);
    }
  }

  lemma StoreKeeps(config: Config, db: Db, raw: seq<RawSubtitle>)
    requires Inv(config, db)
    ensures Inv(config, StoreDb(db, raw, config))
  {
    BatchesHaveLines(config, db);
    if db.subtitles == [] {
      assert db.batches == map[];
      StoredRowsOk(config, raw);
      hide WithMissing, BatchDefinitions, BatchesOfLines, Stored, RawLinesWithBatches, Windowed, LineOk, BatchOk;
      StoredIsHonest(db, StoreDb(db, raw, config));
    }
  }

  /** The lines of a first retrieval with the rows of their batches, all of them new and pending. */
  lemma StoredRowsOk(config: Config, raw: seq<RawSubtitle>)
    ensures var lines := RawLinesWithBatches(raw, config.batchSeconds);
            var rows, batches := Stored(lines), WithMissing(map[], BatchDefinitions(BatchesOfLines(lines), config.batchSeconds));
            && (forall i :: 0 <= i < |rows| ==> LineOk(rows[i], i, batches, config.batchSeconds))
            && (forall b :: b in batches ==> BatchOk(b, batches[b], rows) && batches[b].status == BatchPending)
            && Windowed(batches, config.batchSeconds)
  {
    var lines := RawLinesWithBatches(raw, config.batchSeconds);
    CreateMissingAdds(map[], BatchesOfLines(lines), config.batchSeconds);
    hide WithMissing, BatchDefinitions, BatchesOfLines, Stored, RawLinesWithBatches, LineOk, BatchOk, Windowed;
    StoredLinesOk(raw, WithMissing(map[], BatchDefinitions(BatchesOfLines(lines), config.batchSeconds)), config.batchSeconds);
  }

  lemma StoredIsHonest(db: Db, after: Db)
    requires HonestVideo(db) && db.batches == map[] && after.video == Ready(db).video
    requires forall b :: b in after.batches ==> after.batches[b].status == BatchPending
    ensures HonestVideo(after)
  {
    if after.batches != map[] {
      var b := AnyElement(after.batches.Keys);
      assert after.batches[b].status != BatchCompleted;
    }
  }

  /** Freshly stored lines and freshly added batches fit together. */
  lemma StoredLinesOk(raw: seq<RawSubtitle>, batches: map<int, BatchRow>, seconds: Positive)
    requires var indexes := BatchesOfLines(RawLinesWithBatches(raw, seconds));
             forall b :: b in batches <==> b in indexes
    requires forall b :: b in batches ==> batches[b].status == BatchPending
    ensures var rows := Stored(RawLinesWithBatches(raw, seconds));
            && (forall i :: 0 <= i < |rows| ==> LineOk(rows[i], i, batches, seconds))
            && (forall b :: b in batches ==> BatchOk(b, batches[b], rows))
  {
    hide BatchIndexOf;
    var lines := RawLinesWithBatches(raw, seconds);
    var rows := Stored(lines);
    WithTextNonEmpty(raw);
    forall i | 0 <= i < |rows| ensures LineOk(rows[i], i, batches, seconds) {
      assert lines[i].batch in BatchesOfLines(lines);
    }
    forall b | b in batches ensures BatchOk(b, batches[b], rows) {
      var i :| 0 <= i < |lines| && lines[i].batch == b;
      assert rows[i].batch == b;
    }
  }

  lemma LinesHaveBatches(config: Config, db: Db, b: int)
    requires Inv(config, db) && b in BatchesOfRows(db.subtitles)
    ensures b in db.batches
  {
    var i :| 0 <= i < |db.subtitles| && db.subtitles[i].batch == b;
    assert LineOk(db.subtitles[i], i, db.batches, config.batchSeconds);
  }

  lemma {:induction false} NothingMissing(config: Config, db: Db)
    requires Inv(config, db)
    ensures WithMissing(db.batches, BatchDefinitions(BatchesOfRows(db.subtitles), config.batchSeconds)) == db.batches
  {
    hide WithMissing;
    var indexes := BatchesOfRows(db.subtitles);
    var windows := BatchDefinitions(indexes, config.batchSeconds);
    var order := SortedSet(indexes);
    forall i | 0 <= i < |windows| ensures windows[i].index in db.batches {
      assert order[i] in order;
      LinesHaveBatches(config, db, order[i]);
    }
    AllPresent(db.batches, windows);
  }

  lemma {:induction false} AllPresent(batches: map<int, BatchRow>, windows: seq<Window>)
    requires forall i :: 0 <= i < |windows| ==> windows[i].index in batches
    ensures WithMissing(batches, windows) == batches
  {
    if windows != [] {
      AllPresent(batches, windows[..|windows| - 1]);
    }
  }

  lemma {:induction false} ResumeKeeps(config: Config, db: Db)
    requires Inv(config, db)
    ensures Inv(config, ResumeDb(db, config))
    ensures ResumeDb(db, config) == db.(video := ResumeDb(db, config).video)
  {
    NothingMissing(config, db);
    VideoOnly(config, db, ResumeDb(db, config).video);
  }

  lemma FailedKeeps(config: Config, db: Db, index: int)
    requires Inv(config, db)
    ensures Inv(config, FailedDb(db, index))
  {
    var after := FailedDb(db, index);
    forall i | 0 <= i < |after.subtitles|
      ensures LineOk(after.subtitles[i], i, after.batches, config.batchSeconds)
    {
      hide HonestVideo, BatchOk, BatchIndexOf;
      assert LineOk(db.subtitles[i], i, db.batches, config.batchSeconds);
    }
    hide LineOk, BatchOk, Windowed;
    SameBatches(config, db, after);
    FailedIsHonest(db, index);
  }

  lemma FailedIsHonest(db: Db, index: int)
    requires HonestVideo(db)
    ensures HonestVideo(FailedDb(db, index))
  {
    if index in db.batches {
      assert FailedDb(db, index).batches[index].status == BatchFailed;
    }
  }

  /** Lines keep their batches, and batch rows keep their windows. */
  lemma SameBatches(config: Config, db: Db, after: Db)
    requires Inv(config, db)
    requires |after.subtitles| == |db.subtitles|
    requires forall i :: 0 <= i < |db.subtitles| ==> after.subtitles[i].batch == db.subtitles[i].batch
    requires after.batches.Keys == db.batches.Keys
    requires forall b :: b in db.batches ==> after.batches[b].start == db.batches[b].start && after.batches[b].end == db.batches[b].end
    requires forall b :: b in db.batches ==> after.batches[b].status == db.batches[b].status || after.batches[b].status != BatchProcessing
    ensures forall b :: b in after.batches ==> BatchOk(b, after.batches[b], after.subtitles)
    ensures Windowed(after.batches, config.batchSeconds)
  {
    forall b | b in after.batches ensures BatchOk(b, after.batches[b], after.subtitles) {
      assert BatchOk(b, db.batches[b], db.subtitles);
      var i :| 0 <= i < |db.subtitles| && db.subtitles[i].batch == b;
      assert after.subtitles[i].batch == b;
    }
  }

  // ---------------------------------------------------------------- a completed batch has all its lines

  lemma {:induction false} BySequenceKeys(lines: seq<ProcessedLine>)
    ensures forall n :: n in BySequence(lines) <==> exists j :: 0 <= j < |lines| && lines[j].sequence == n
    ensures forall n :: n in BySequence(lines) ==> BySequence(lines)[n] in lines && BySequence(lines)[n].sequence == n
  {
    if lines != [] {
      var n := |lines| - 1;
      BySequenceKeys(lines[..n]);
      assert lines == lines[..n] + [lines[n]];
      forall m ensures m in BySequence(lines) <==> exists j :: 0 <= j < |lines| && lines[j].sequence == m {
        if j :| 0 <= j < n && lines[..n][j].sequence == m {
          assert lines[j].sequence == m;
        }
        if m == lines[n].sequence {
          assert lines[n].sequence == m;
        }
      }
    }
  }

  lemma {:induction false} InLinesOf(rows: seq<SubtitleRow>, index: int)
    ensures forall row :: row in LinesOf(rows, index) <==> row in rows && row.batch == index
  {
    if rows != [] {
      InLinesOf(rows[1..], index);
    }
  }

  lemma {:induction false} InWithText(rows: seq<SubtitleRow>)
    ensures forall row :: row in BatchWork.WithText(rows) <==> row in rows && row.text != ""
  {
    if rows != [] {
      InWithText(rows[1..]);
    }
  }

  lemma LineSequences(subtitles: seq<SubtitleRow>, p: Providers, size: Positive)
    requires BatchWork.ProcessedLines(subtitles, p, size).Some?
    ensures var rows, lines := BatchWork.WithText(subtitles), BatchWork.ProcessedLines(subtitles, p, size).value;
            |lines| == |rows| && forall j :: 0 <= j < |rows| ==> lines[j].sequence == rows[j].sequence
  {
    var rows := BatchWork.WithText(subtitles);
    var texts := BatchWork.TextsOf(rows);
    var translations := BatchWork.Collect(p.translate, texts, size, BatchWork.Starts(|texts|, size, 0)).value;
    var analyses := BatchWork.Analyses(p.analyzer, texts, size).value;
    BatchWork.MakeLinesPerLine(p, rows, translations, analyses);
  }

  /** The join by sequence number misses no line of the batch. */
  lemma JoinMissesNoLine(config: Config, db: Db, index: int, p: Providers)
    requires Inv(config, db) && BatchLines(db, index, p, config).Some?
    ensures forall i :: 0 <= i < |db.subtitles| && db.subtitles[i].batch == index ==>
              i in BySequence(BatchLines(db, index, p, config).value)
  {
    var lines := BatchLines(db, index, p, config).value;
    var claimed := Claimed(db, index).subtitles;
    var mine := LinesOf(claimed, index);
    LineSequences(mine, p, config.chunkSize);
    BySequenceKeys(lines);
    InLinesOf(claimed, index);
    InWithText(mine);
    forall i | 0 <= i < |db.subtitles| && db.subtitles[i].batch == index ensures i in BySequence(lines) {
      assert LineOk(db.subtitles[i], i, db.batches, config.batchSeconds);
      assert claimed[i] in claimed;
      assert claimed[i] in BatchWork.WithText(mine);
      var j :| 0 <= j < |BatchWork.WithText(mine)| && BatchWork.WithText(mine)[j] == claimed[i];
      assert lines[j].sequence == i;
    }
  }

  lemma CompletedRowsKeep(config: Config, db: Db, index: int, lines: seq<ProcessedLine>)
    requires Inv(config, db) && index in db.batches
    requires forall i :: 0 <= i < |db.subtitles| && db.subtitles[i].batch == index ==> i in BySequence(lines)
    ensures RowsOk(config, CompletedRows(Claimed(db, index), index, lines))
  {
    hide LineOk, BatchOk, Windowed, CompletedRows, Claimed, BySequence, HonestVideo;
    CompletedLinesOk(config, db, index, lines);
    UpdatedBatches(db, index, lines);
    SameBatches(config, db, CompletedRows(Claimed(db, index), index, lines));
  }

  lemma CompletedLinesOk(config: Config, db: Db, index: int, lines: seq<ProcessedLine>)
    requires RowsOk(config, db) && index in db.batches
    requires forall i :: 0 <= i < |db.subtitles| && db.subtitles[i].batch == index ==> i in BySequence(lines)
    ensures var after := CompletedRows(Claimed(db, index), index, lines);
            forall i :: 0 <= i < |after.subtitles| ==> LineOk(after.subtitles[i], i, after.batches, config.batchSeconds)
  {
    hide LineOk, UpdateLine, MarkLine, WithStatus, BySequence, BatchOk, Windowed;
    forall i | 0 <= i < |db.subtitles|
      ensures LineOk(UpdateLine(MarkLine(db.subtitles[i], index, LineProcessing), index, BySequence(lines)), i,
                     WithStatus(WithStatus(db.batches, index, BatchProcessing), index, BatchCompleted), config.batchSeconds)
    {
      UpdatedLineOk(db.subtitles[i], i, db.batches, index, BySequence(lines), config.batchSeconds);
    }
  }

  lemma UpdatedBatches(db: Db, index: int, lines: seq<ProcessedLine>)
    ensures var after := CompletedRows(Claimed(db, index), index, lines);
            && |after.subtitles| == |db.subtitles|
            && (forall i :: 0 <= i < |db.subtitles| ==> after.subtitles[i].batch == db.subtitles[i].batch)
            && after.batches == WithStatus(WithStatus(db.batches, index, BatchProcessing), index, BatchCompleted)
  {
  }

  lemma UpdatedLineOk(row: SubtitleRow, i: nat, batches: map<int, BatchRow>, index: int,
                      bySequence: map<nat, ProcessedLine>, seconds: Positive)
    requires index in batches && LineOk(row, i, batches, seconds)
    requires row.batch == index ==> i in bySequence
    ensures LineOk(UpdateLine(MarkLine(row, index, LineProcessing), index, bySequence), i,
                   WithStatus(WithStatus(batches, index, BatchProcessing), index, BatchCompleted), seconds)
  {
  }

  lemma CompletedKeeps(config: Config, db: Db, index: int, p: Providers)
    requires Inv(config, db) && BatchLines(db, index, p, config).Some?
    requires index in db.batches
    ensures Inv(config, CompletedDb(Claimed(db, index), index, BatchLines(db, index, p, config).value))
  {
    var lines := BatchLines(db, index, p, config).value;
    JoinMissesNoLine(config, db, index, p);
    CompletedRowsKeep(config, db, index, lines);
    hide LineOk, BatchOk, BySequence, UpdateLine, BatchLines;
    CompletedIsHonest(db, index, lines);
  }

  /** Completing the last batch completes the video; completing another one leaves a video that is not completed. */
  lemma CompletedIsHonest(db: Db, index: int, lines: seq<ProcessedLine>)
    requires HonestVideo(db) && index in db.batches
    ensures HonestVideo(CompletedDb(Claimed(db, index), index, lines))
  {
    hide BySequence, UpdateLine;
    var done := CompletedRows(Claimed(db, index), index, lines);
    if AllCompleted(db.batches) {
      assert forall b :: b in done.batches ==> done.batches[b].status == BatchCompleted;
    }
  }

  lemma ProcessKeeps(config: Config, db: Db, index: int, p: Providers, struck: bool)
    requires Inv(config, db)
    ensures Inv(config, ProcessDb(db, index, p, struck, config))
  {
    if index in db.batches && db.batches[index].status != BatchCompleted {
      if BatchLines(db, index, p, config).None? || struck {
        FailedKeeps(config, db, index);
      } else {
        CompletedKeeps(config, db, index, p);
      }
    }
  }

  lemma RetryKeeps(config: Config, db: Db, index: int)
    requires Inv(config, db)
    ensures Inv(config, Retried(db, index))
  {
    var after := Retried(db, index);
    forall i | 0 <= i < |after.subtitles|
      ensures LineOk(after.subtitles[i], i, after.batches, config.batchSeconds)
    {
      assert LineOk(db.subtitles[i], i, db.batches, config.batchSeconds);
    }
    SameBatches(config, db, after);
  }

  lemma StepKeeps(config: Config, db: Db, step: Step)
    requires Inv(config, db)
    ensures Inv(config, Apply(config, db, step))
  {
    match step
    case Import => VideoOnly(config, db, ImportDb(db).video);
    case SetPhase(phase, progress) => VideoOnly(config, db, WithPhase(db.video, phase, progress));
    case StoreLines(raw) => StoreKeeps(config, db, raw);
    case ResumeLines => ResumeKeeps(config, db);
    case Process(index, providers, struck) => ProcessKeeps(config, db, index, providers, struck);
    case LateFailure(index) => FailedKeeps(config, db, index);
    case Retry(index) => RetryKeeps(config, db, index);
  }

  lemma {:induction false} ExecKeeps(config: Config, db: Db, steps: seq<Step>)
    requires Inv(config, db)
    ensures Inv(config, Exec(config, db, steps))
  {
    if steps != [] {
      ExecKeeps(config, db, steps[..|steps| - 1]);
      StepKeeps(config, Exec(config, db, steps[..|steps| - 1]), steps[|steps| - 1]);
    }
  }

  /** Every committed state of every run, and so whatever a crash leaves behind, satisfies the invariant. */
  lemma {:induction false} EveryCommittedStateIsConsistent(config: Config, steps: seq<Step>)
    ensures forall d :: d in States(config, FRESH, steps) ==> Inv(config, d)
  {
    if steps != [] {
      EveryCommittedStateIsConsistent(config, steps[..|steps| - 1]);
      FreshOk(config);
      ExecKeeps(config, FRESH, steps);
    }
  }

  lemma {:induction false} ExecAppend(config: Config, db: Db, a: seq<Step>, b: seq<Step>)
    ensures Exec(config, db, a + b) == Exec(config, Exec(config, db, a), b)
    ensures States(config, db, a + b) == States(config, db, a) + States(config, Exec(config, db, a), b)
    decreases |b|
  {
    if b == [] {
      assert a + b == a;
    } else {
      var n := |b| - 1;
      ExecAppend(config, db, a, b[..n]);
      assert (a + b)[..|a + b| - 1] == a + b[..n];
      assert (a + b)[|a + b| - 1] == b[n];
    }
  }

  lemma ExecOne(config: Config, db: Db, step: Step)
    ensures Exec(config, db, [step]) == Apply(config, db, step)
    ensures States(config, db, [step]) == [Apply(config, db, step)]
  {
    assert [step][..0] == [];
  }

  lemma RunOne(config: Config, db: Db, steps: seq<Step>, step: Step)
    ensures Exec(config, db, steps + [step]) == Apply(config, Exec(config, db, steps), step)
    ensures States(config, db, steps + [step]) == States(config, db, steps) + [Apply(config, Exec(config, db, steps), step)]
  {
    ExecAppend(config, db, steps, [step]);
    ExecOne(config, Exec(config, db, steps), step);
  }
}
