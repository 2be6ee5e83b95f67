/**
 The rows kept for one video and the session through which the service reads and writes them: the three repositories
 over one database transaction (backend/app/repositories).
 */
module Database {
  import opened Common

  datatype VideoStatus = VideoPending | VideoProcessing | VideoCompleted | VideoFailed

  datatype Phase =
    | PhasePending | SubtitleSource | YoutubeSubtitles | Asr | PreparingBatches | ProcessingBatches
    | Translating | Segmenting | Saving | PhaseCompleted | PhaseFailed

  datatype BatchStatus = BatchPending | BatchProcessing | BatchCompleted | BatchFailed

  datatype LineStatus = LineRaw | LineProcessing | LineProcessed | LineFailed

  datatype TokenRow = TokenRow(text: string, pinyin: Option<string>, meaning: Option<string>, start: nat, end: nat)

  datatype VideoRow = VideoRow(status: VideoStatus, phase: Phase, progress: real)

  datatype BatchRow = BatchRow(start: real, end: real, status: BatchStatus)

  datatype SubtitleRow = SubtitleRow(sequence: nat, start: real, end: real, text: string, batch: int,
                                     status: LineStatus, translation: Option<string>, tokens: seq<TokenRow>)

  /** The video's row, its batch rows by index (the pair is unique), and its subtitles by sequence number. */
  datatype Db = Db(video: VideoRow, batches: map<int, BatchRow>, subtitles: seq<SubtitleRow>)

  /** A line with its batch, before it is stored. */
  datatype RawLine = RawLine(start: real, end: real, text: string, batch: int)

  /** A window of playback time, before it is stored. */
  datatype Window = Window(index: int, start: real, end: real)

  /** What processing makes of one subtitle. */
  datatype ProcessedLine = ProcessedLine(sequence: nat, start: real, end: real, text: string, translation: string,
                                         tokens: seq<TokenRow>)

  // ---------------------------------------------------------------- what the repository operations do to the rows

  function Clamp(progress: real): real {
    MaxReal(0.0, MinReal(1.0, progress))
  }

  /** Progress only grows; the phase follows only when the progress does not fall behind. */
  function WithPhase(video: VideoRow, phase: Phase, progress: real): VideoRow {
    video.(phase := if Clamp(progress) >= video.progress then phase else video.phase,
           progress := MaxReal(video.progress, Clamp(progress)))
  }

  function WithStatus(batches: map<int, BatchRow>, index: int, status: BatchStatus): map<int, BatchRow> {
    if index in batches then batches[index := batches[index].(status := status)] else batches
  }

  function WithMissing(batches: map<int, BatchRow>, windows: seq<Window>): map<int, BatchRow> {
    if windows == [] then batches
    else
      var w := windows[|windows| - 1];
      var before := WithMissing(batches, windows[..|windows| - 1]);
      if w.index in batches then before else before[w.index := BatchRow(w.start, w.end, BatchPending)]
  }

  function StoredLine(line: RawLine, sequence: nat): SubtitleRow {
    SubtitleRow(sequence, line.start, line.end, line.text, line.batch, LineRaw, None, [])
  }

  function Stored(lines: seq<RawLine>): seq<SubtitleRow> {
    seq(|lines|, i requires 0 <= i < |lines| => StoredLine(lines[i], i))
  }

  function MarkLine(row: SubtitleRow, index: int, status: LineStatus): SubtitleRow {
    if row.batch == index then row.(status := status) else row
  }

  function MarkLines(rows: seq<SubtitleRow>, index: int, status: LineStatus): seq<SubtitleRow> {
    seq(|rows|, i requires 0 <= i < |rows| => MarkLine(rows[i], index, status))
  }

  /** The last processed line of every sequence number. */
  function BySequence(lines: seq<ProcessedLine>): map<nat, ProcessedLine> {
    if lines == [] then map[]
    else
      var last := lines[|lines| - 1];
      BySequence(lines[..|lines| - 1])[last.sequence := last]
  }

  function UpdateLine(row: SubtitleRow, index: int, bySequence: map<nat, ProcessedLine>): SubtitleRow {
    if row.batch == index && row.sequence in bySequence then
      var line := bySequence[row.sequence];
      row.(translation := Some(line.translation), status := LineProcessed, tokens := line.tokens)
    else row
  }

  function UpdateLines(rows: seq<SubtitleRow>, index: int, lines: seq<ProcessedLine>): seq<SubtitleRow> {
    seq(|rows|, i requires 0 <= i < |rows| => UpdateLine(rows[i], index, BySequence(lines)))
  }

  function LinesOf(rows: seq<SubtitleRow>, index: int): seq<SubtitleRow> {
    if rows == [] then []
    else (if rows[0].batch == index then [rows[0]] else []) + LinesOf(rows[1..], index)
  }

  /** The batch's subtitles, all of them, in order. */
  lemma {:induction false} LinesOfSelects(rows: seq<SubtitleRow>, index: int)
    ensures Selects(LinesOf(rows, index), rows, (row: SubtitleRow) => row.batch == index)
  {
    hide Selects;
    if rows == [] {
      SelectsNone((row: SubtitleRow) => row.batch == index);
    } else {
      LinesOfSelects(rows[1..], index);
      SelectsCons(LinesOf(rows[1..], index), rows, (row: SubtitleRow) => row.batch == index);
      assert [] + LinesOf(rows[1..], index) == LinesOf(rows[1..], index);
    }
  }

  /** What a retry of a batch commits. */
  function Retried(db: Db, index: int): Db {
    db.(video := db.video.(status := VideoProcessing), batches := WithStatus(db.batches, index, BatchPending))
  }

  // ---------------------------------------------------------------- the session

  /**
   A database session. `rows` is what it sees: the committed rows with its own flushed writes on top. `log` lists every
   state it has committed, in order, so that a crash at any point leaves the last state of the log behind.
   */
  class Session {
    var committed: Db
    var rows: Db
    ghost var log: seq<Db>

    constructor (db: Db)
      ensures committed == rows == db && log == []
    {
      committed, rows, log := db, db, [];
    }

    method Commit()
      modifies this
      ensures committed == rows == old(rows)
      ensures log == old(log) + [rows]
    {
      committed := rows;
      log := log + [rows];
    }

    method Rollback()
      modifies this`rows
      ensures rows == committed
    {
      rows := committed;
    }

    method SetProcessingStatus(status: VideoStatus)
      modifies this`rows
      ensures rows == old(rows).(video := old(rows).video.(status := status))
    {
      rows := rows.(video := rows.video.(status := status));
    }

    method SetProcessingPhase(phase: Phase, progress: real)
      modifies this`rows
      ensures rows == old(rows).(video := WithPhase(old(rows).video, phase, progress))
      ensures var before, next := old(rows).video, if progress < 0.0 then 0.0 else if progress > 1.0 then 1.0 else progress;
              rows.video == if next >= before.progress then VideoRow(before.status, phase, next) else before
    {
      var next := MaxReal(0.0, MinReal(1.0, progress));
      var video := rows.video;
      if next >= video.progress {
        video := video.(phase := phase);
      }
      video := video.(progress := MaxReal(video.progress, next));
      rows := rows.(video := video);
    }

    /**
     The progress writer's own short transaction. It changes nothing but the video's phase and progress, which this
     session has not touched, so the new values show in `rows` as well.
     */
    method WriteProgress(phase: Phase, progress: real)
      requires rows.video == committed.video
      modifies this
      ensures committed == old(committed).(video := WithPhase(old(committed).video, phase, progress))
      ensures rows == old(rows).(video := committed.video)
      ensures log == old(log) + [committed]
    {
      committed := committed.(video := WithPhase(committed.video, phase, progress));
      rows := rows.(video := committed.video);
      log := log + [committed];
    }

    /**
     Another session's retry of a batch. It commits the video's status and the batch's, none of which this session has
     written, so they show in `rows` as well.
     */
    method OtherSessionRetries(index: int)
      requires rows.video == committed.video
      requires index in rows.batches <==> index in committed.batches
      requires index in rows.batches ==> rows.batches[index] == committed.batches[index]
      modifies this
      ensures committed == Retried(old(committed), index) && rows == Retried(old(rows), index)
      ensures log == old(log) + [committed]
    {
      committed := Retried(committed, index);
      rows := Retried(rows, index);
      log := log + [committed];
    }

    method MarkStatus(index: int, status: BatchStatus)
      modifies this`rows
      ensures rows == old(rows).(batches := WithStatus(old(rows).batches, index, status))
    {
      if index in rows.batches {
        rows := rows.(batches := rows.batches[index := rows.batches[index].(status := status)]);
      }
    }

    method CreateMissing(windows: seq<Window>)
      modifies this`rows
      ensures rows == old(rows).(batches := WithMissing(old(rows).batches, windows))
    {
      var existing := rows.batches.Keys;
      for i := 0 to |windows|
        invariant rows == old(rows).(batches := WithMissing(old(rows).batches, windows[..i]))
      {
        assert windows[..i + 1][..i] == windows[..i];
        if windows[i].index !in existing {
          var row := BatchRow(windows[i].start, windows[i].end, BatchPending);
          rows := rows.(batches := rows.batches[windows[i].index := row]);
        }
      }
      assert windows[..|windows|] == windows;
    }

    method ReplaceRawForVideo(lines: seq<RawLine>)
      modifies this`rows
      ensures rows == old(rows).(subtitles := Stored(lines))
    {
      rows := rows.(subtitles := []);
      for i := 0 to |lines|
        invariant rows == old(rows).(subtitles := Stored(lines)[..i])
      {
        rows := rows.(subtitles := rows.subtitles + [StoredLine(lines[i], i)]);
      }
      assert Stored(lines)[..|lines|] == Stored(lines);
    }

    /** Claiming or failing a batch: one status for all its subtitles. */
    method MarkBatchLines(index: int, status: LineStatus)
      modifies this`rows
      ensures rows == old(rows).(subtitles := MarkLines(old(rows).subtitles, index, status))
    {
      ghost var was := rows;
      for i := 0 to |rows.subtitles|
        invariant rows.(subtitles := was.subtitles) == was && |rows.subtitles| == |was.subtitles|
        invariant forall k :: 0 <= k < i ==> rows.subtitles[k] == MarkLine(was.subtitles[k], index, status)
        invariant forall k :: i <= k < |was.subtitles| ==> rows.subtitles[k] == was.subtitles[k]
      {
        if rows.subtitles[i].batch == index {
          rows := rows.(subtitles := rows.subtitles[i := rows.subtitles[i].(status := status)]);
        }
      }
      assert rows.subtitles == MarkLines(was.subtitles, index, status);
    }

    method UpdateProcessedBatch(index: int, lines: seq<ProcessedLine>)
      modifies this`rows
      ensures rows == old(rows).(subtitles := UpdateLines(old(rows).subtitles, index, lines))
    {
      ghost var was := rows;
      var bySequence := BySequence(lines);
      for i := 0 to |rows.subtitles|
        invariant rows.(subtitles := was.subtitles) == was && |rows.subtitles| == |was.subtitles|
        invariant forall k :: 0 <= k < i ==> rows.subtitles[k] == UpdateLine(was.subtitles[k], index, bySequence)
        invariant forall k :: i <= k < |was.subtitles| ==> rows.subtitles[k] == was.subtitles[k]
      {
        var row := rows.subtitles[i];
        if row.batch == index && row.sequence in bySequence {
          var line := bySequence[row.sequence];
          rows := rows.(subtitles := rows.subtitles[i :=
            row.(translation := Some(line.translation), status := LineProcessed, tokens := line.tokens)]);
        }
      }
      assert rows.subtitles == UpdateLines(was.subtitles, index, lines);
    }
  }
}
