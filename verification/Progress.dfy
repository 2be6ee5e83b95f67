/**
 Progress of a video: what the server reports from its rows, and the throttled writer that persists progress inside a
 batch (backend/app/services/subtitle_service.py, backend/app/services/subtitle_queue.py). Numbers are exact reals.
 */
module Progress {
  import opened Common
  import opened Database

  datatype Snapshot = Snapshot(status: VideoStatus, phase: Phase, processedBatches: nat, totalBatches: nat,
                               processedSubtitles: nat, totalSubtitles: nat, progress: real)

  // ---------------------------------------------------------------- the polled view

  function CompletedBatches(batches: map<int, BatchRow>): set<int> {
    set b | b in batches && batches[b].status == BatchCompleted
  }

  predicate AllCompleted(batches: map<int, BatchRow>) {
    batches != map[] && forall b :: b in batches ==> batches[b].status == BatchCompleted
  }

  function ProcessedCount(rows: seq<SubtitleRow>): nat {
    if rows == [] then 0 else (if rows[0].status == LineProcessed then 1 else 0) + ProcessedCount(rows[1..])
  }

  function Ratio(done: nat, total: nat): real {
    if total == 0 then 0.0 else done as real / total as real
  }

  function ProgressFor(db: Db): Snapshot {
    var processed, total := |CompletedBatches(db.batches)|, |db.batches|;
    var status := if total > 0 && processed == total then VideoCompleted else db.video.status;
    var overall := if total > 0 then MaxReal(db.video.progress, 0.30 + 0.68 * Ratio(processed, total)) else db.video.progress;
    Snapshot(status, if status == VideoCompleted then PhaseCompleted else db.video.phase,
             processed, total, ProcessedCount(db.subtitles), |db.subtitles|,
             if status == VideoCompleted then 1.0 else overall)
  }

  lemma SubsetSize<T>(a: set<T>, b: set<T>)
    requires a <= b
    ensures |a| <= |b|
    ensures |a| == |b| <==> a == b
  {
    assert |b - a| == |b| - |a|;
    assert b == a + (b - a);
  }

  lemma CompletedCount(batches: map<int, BatchRow>)
    ensures |CompletedBatches(batches)| <= |batches|
    ensures |batches| > 0 && |CompletedBatches(batches)| == |batches| <==> AllCompleted(batches)
  {
    SubsetSize(CompletedBatches(batches), batches.Keys);
    assert |batches| == |batches.Keys|;
    if AllCompleted(batches) {
      assert forall b :: b in batches.Keys ==> b in CompletedBatches(batches);
    } else if |batches| > 0 {
      var b :| b in batches && batches[b].status != BatchCompleted;
      assert b in batches.Keys && b !in CompletedBatches(batches);
    }
  }

  /** The video row does not claim more than its batches. */
  ghost predicate HonestVideo(db: Db) {
    && 0.0 <= db.video.progress <= 1.0
    && (db.video.status == VideoCompleted ==> AllCompleted(db.batches))
    && (AllCompleted(db.batches) ==> db.video.progress == 1.0)
  }

  lemma RatioGrows(a: nat, b: nat, total: nat)
    requires a <= b <= total
    ensures 0.0 <= Ratio(a, total) <= Ratio(b, total) <= 1.0
  {
  }

  /** Completed is reported exactly when there are batches and all are completed; the progress is then 1. */
  lemma CompletedExactlyWhenAllBatchesAre(db: Db)
    requires HonestVideo(db)
    ensures 0.0 <= ProgressFor(db).progress <= 1.0
    ensures ProgressFor(db).status == VideoCompleted <==> AllCompleted(db.batches)
    ensures ProgressFor(db).status == VideoCompleted ==> ProgressFor(db).progress == 1.0
  {
    CompletedCount(db.batches);
    RatioGrows(0, |CompletedBatches(db.batches)|, |db.batches|);
  }

  lemma {:induction false} CountedPositions(rows: seq<SubtitleRow>) returns (at: seq<nat>)
    ensures Positions(at, rows, (row: SubtitleRow) => row.status == LineProcessed) && |at| == ProcessedCount(rows)
  {
    if rows == [] {
      at := [];
    } else {
      hide Positions;
      var later := CountedPositions(rows[1..]);
      var shifted := seq(|later|, i requires 0 <= i < |later| => later[i] + 1);
      LaterPositions(later, shifted, rows, (row: SubtitleRow) => row.status == LineProcessed);
      at := if rows[0].status == LineProcessed then [0] + shifted else shifted;
    }
  }

  /**
   What a report says of any rows at all: completed when there are batches and all are, and otherwise the video's own
   status and phase; how many batches are completed and how many subtitles are processed, and of how many; and as progress
   1 for a completed video, and otherwise the share of the completed batches unless the video's own progress is ahead.
   */
  lemma ReportShowsTheRows(db: Db)
    ensures var report, completed := ProgressFor(db), set b | b in db.batches && db.batches[b].status == BatchCompleted;
            var done := db.batches != map[] && forall b :: b in db.batches ==> db.batches[b].status == BatchCompleted;
            && report.status == (if done then VideoCompleted else db.video.status)
            && report.phase == (if report.status == VideoCompleted then PhaseCompleted else db.video.phase)
            && report.processedBatches == |completed| && report.totalBatches == |db.batches|
            && (exists at :: Positions(at, db.subtitles, (row: SubtitleRow) => row.status == LineProcessed)
                             && report.processedSubtitles == |at|)
            && report.totalSubtitles == |db.subtitles|
            && (report.status == VideoCompleted ==> report.progress == 1.0)
            && (report.status != VideoCompleted && db.batches == map[] ==> report.progress == db.video.progress)
            && (report.status != VideoCompleted && db.batches != map[] ==>
                  var share := 0.30 + 0.68 * (|completed| as real / |db.batches| as real);
                  report.progress == if db.video.progress >= share then db.video.progress else share)
  {
    CompletedCount(db.batches);
    var at := CountedPositions(db.subtitles);
    assert db.batches != map[] <==> |db.batches| > 0;
  }

  /** More progress in the rows is more progress in the report. */
  lemma {:induction false} ReportGrows(before: Db, after: Db)
    requires HonestVideo(before) && HonestVideo(after)
    requires before.video.progress <= after.video.progress
    requires before.batches == map[] || before.batches.Keys == after.batches.Keys
    requires CompletedBatches(before.batches) <= CompletedBatches(after.batches)
    ensures ProgressFor(before).progress <= ProgressFor(after).progress
  {
    CompletedExactlyWhenAllBatchesAre(after);
    CompletedCount(before.batches);
    CompletedCount(after.batches);
    if before.batches != map[] {
      assert |before.batches| == |before.batches.Keys| == |after.batches.Keys| == |after.batches|;
      SubsetSize(CompletedBatches(before.batches), CompletedBatches(after.batches));
      RatioGrows(|CompletedBatches(before.batches)|, |CompletedBatches(after.batches)|, |after.batches|);
    }
  }

  // ---------------------------------------------------------------- the throttled writer

  /** What was last persisted by the writer of one batch. */
  datatype Persisted = Persisted(phase: Phase, progress: real)

  function PhaseOf(batchProgress: real): Phase {
    if batchProgress < 0.40 then Translating else if batchProgress < 0.80 then Segmenting else Saving
  }

  function Overall(initial: Snapshot, batchProgress: real): real
    requires initial.totalBatches > 0
  {
    MinReal(0.30 + 0.68 * ((initial.processedBatches as real + batchProgress) / initial.totalBatches as real), 0.98)
  }

  /** The report that viewers are sent while a batch is being processed. */
  function Interim(initial: Snapshot, batchProgress: real): Snapshot
    requires initial.totalBatches > 0
  {
    initial.(status := VideoProcessing, phase := PhaseOf(batchProgress), progress := Overall(initial, batchProgress))
  }

  /** What viewers are sent for a list of reports: one for each, written or not. */
  function Interims(initial: Snapshot, reports: seq<real>): seq<Snapshot> {
    if initial.totalBatches == 0 then []
    else seq(|reports|, i requires 0 <= i < |reports| => Interim(initial, reports[i]))
  }

  predicate NeedsWrite(last: Persisted, initial: Snapshot, batchProgress: real)
    requires initial.totalBatches > 0
  {
    PhaseOf(batchProgress) != last.phase || Overall(initial, batchProgress) - last.progress >= 0.03
  }

  function AfterReport(last: Persisted, initial: Snapshot, batchProgress: real): Persisted {
    if initial.totalBatches > 0 && NeedsWrite(last, initial, batchProgress)
    then Persisted(PhaseOf(batchProgress), Overall(initial, batchProgress)) else last
  }

  /** What the writer persists for a list of reports. */
  function Writes(last: Persisted, initial: Snapshot, reports: seq<real>): seq<Persisted>
    decreases |reports|
  {
    if reports == [] || initial.totalBatches == 0 then []
    else
      var next := AfterReport(last, initial, reports[0]);
      (if NeedsWrite(last, initial, reports[0]) then [next] else []) + Writes(next, initial, reports[1..])
  }

  /** The publisher's memory after the reports. */
  function AfterReports(last: Persisted, initial: Snapshot, reports: seq<real>): Persisted
    decreases |reports|
  {
    if reports == [] then last else AfterReports(AfterReport(last, initial, reports[0]), initial, reports[1..])
  }

  function WithWrites(db: Db, writes: seq<Persisted>): Db
    decreases |writes|
  {
    if writes == [] then db
    else WithWrites(db.(video := WithPhase(db.video, writes[0].phase, writes[0].progress)), writes[1..])
  }

  /** The states committed by a list of writes, in order. */
  ghost function WriteStates(db: Db, writes: seq<Persisted>): seq<Db>
    decreases |writes|
  {
    if writes == [] then []
    else
      var next := db.(video := WithPhase(db.video, writes[0].phase, writes[0].progress));
      [next] + WriteStates(next, writes[1..])
  }

  class BatchProgressPublisher {
    const initial: Snapshot
    var last: Persisted

    constructor (initial: Snapshot)
      ensures this.initial == initial && last == Persisted(initial.phase, initial.progress)
    {
      this.initial := initial;
      last := Persisted(initial.phase, initial.progress);
    }

    method Publish(session: Session, batchProgress: real) returns (published: seq<Snapshot>)
      requires session.rows.video == session.committed.video
      modifies this, session
      ensures published == Interims(initial, [batchProgress])
      ensures last == AfterReport(old(last), initial, batchProgress)
      ensures var writes := Writes(old(last), initial, [batchProgress]);
              && session.committed == WithWrites(old(session.committed), writes)
              && session.rows == old(session.rows).(video := session.committed.video)
              && session.log == old(session.log) + WriteStates(old(session.committed), writes)
    {
      assert [batchProgress][1..] == [];
      if initial.totalBatches <= 0 {
        return [];
      }
      var overall := Overall(initial, batchProgress);
      var phase := PhaseOf(batchProgress);
      if phase != last.phase || overall - last.progress >= 0.03 {
        session.WriteProgress(phase, overall);
        last := Persisted(phase, overall);
      }
      published := [initial.(status := VideoProcessing, phase := phase, progress := overall)];
    }

    method PublishAll(session: Session, reports: seq<real>) returns (published: seq<Snapshot>)
      requires session.rows.video == session.committed.video
      modifies this, session
      ensures published == Interims(initial, reports)
      ensures if initial.totalBatches == 0 then published == []
              else |published| == |reports| && forall i :: 0 <= i < |reports| ==> SentFor(initial, reports[i], published[i])
      ensures var writes := Writes(old(last), initial, reports);
              && session.committed == WithWrites(old(session.committed), writes)
              && session.rows == old(session.rows).(video := session.committed.video)
              && session.log == old(session.log) + WriteStates(old(session.committed), writes)
    {
      hide Writes, WithWrites, WriteStates, AfterReports, AfterReport, Interim;
      ghost var first, db, log := last, session.committed, session.log;
      NothingWritten(first, initial, db);
      published := [];
      for i := 0 to |reports|
        invariant published == Interims(initial, reports[..i])
        invariant session.rows.video == session.committed.video && last == AfterReports(first, initial, reports[..i])
        invariant session.committed == WithWrites(db, Writes(first, initial, reports[..i]))
        invariant session.rows == old(session.rows).(video := session.committed.video)
        invariant session.log == log + WriteStates(db, Writes(first, initial, reports[..i]))
      {
        OneMoreReport(first, initial, reports[..i], reports[i], db);
        assert reports[..i + 1] == reports[..i] + [reports[i]];
        var more := Publish(session, reports[i]);
        published := published + more;
      }
      assert reports[..|reports|] == reports;
      AllSent(initial, reports);
    }
  }

  /** The snapshot that viewers are sent for a report: the phase it is in, its share of the progress, and nothing else new. */
  ghost predicate SentFor(initial: Snapshot, batchProgress: real, sent: Snapshot) {
    && sent == initial.(status := VideoProcessing, phase := sent.phase, progress := sent.progress)
    && sent.phase == (if batchProgress < 0.4 then Translating else if batchProgress < 0.8 then Segmenting else Saving)
    && initial.totalBatches > 0
    && var share := 0.30 + 0.68 * ((initial.processedBatches as real + batchProgress) / initial.totalBatches as real);
       sent.progress == if share <= 0.98 then share else 0.98
  }

  lemma SentIs(initial: Snapshot, b: real)
    requires initial.totalBatches > 0
    ensures var share := 0.30 + 0.68 * ((initial.processedBatches as real + b) / initial.totalBatches as real);
            && Overall(initial, b) == (if share <= 0.98 then share else 0.98)
            && PhaseOf(b) == if b < 0.4 then Translating else if b < 0.8 then Segmenting else Saving
  {
  }

  lemma AllSent(initial: Snapshot, reports: seq<real>)
    ensures var sent := Interims(initial, reports);
            if initial.totalBatches == 0 then sent == []
            else |sent| == |reports| && forall i :: 0 <= i < |reports| ==> SentFor(initial, reports[i], sent[i])
  {
    if initial.totalBatches > 0 {
      forall i | 0 <= i < |reports| ensures SentFor(initial, reports[i], Interims(initial, reports)[i]) {
        assert Interims(initial, reports)[i] == Interim(initial, reports[i]);
      }
    }
  }

  lemma NothingWritten(last: Persisted, initial: Snapshot, db: Db)
    ensures AfterReports(last, initial, []) == last
    ensures WithWrites(db, Writes(last, initial, [])) == db && WriteStates(db, Writes(last, initial, [])) == []
  {
  }

  lemma {:induction false} WritesAppend(last: Persisted, initial: Snapshot, reports: seq<real>, more: seq<real>)
    ensures AfterReports(last, initial, reports + more) == AfterReports(AfterReports(last, initial, reports), initial, more)
    ensures Writes(last, initial, reports + more)
         == Writes(last, initial, reports) + Writes(AfterReports(last, initial, reports), initial, more)
    decreases |reports|
  {
    if reports == [] {
      assert reports + more == more;
      assert [] + Writes(last, initial, more) == Writes(last, initial, more);
    } else {
      hide AfterReport, NeedsWrite;
      var next := AfterReport(last, initial, reports[0]);
      assert (reports + more)[0] == reports[0] && (reports + more)[1..] == reports[1..] + more;
      WritesAppend(next, initial, reports[1..], more);
    }
  }

  /** What one more report adds. */
  lemma OneMoreReport(last: Persisted, initial: Snapshot, reports: seq<real>, report: real, db: Db)
    ensures var now := AfterReports(last, initial, reports);
            var more := Writes(now, initial, [report]);
            var written := WithWrites(db, Writes(last, initial, reports));
            && AfterReports(last, initial, reports + [report]) == AfterReport(now, initial, report)
            && WithWrites(db, Writes(last, initial, reports + [report])) == WithWrites(written, more)
            && WriteStates(db, Writes(last, initial, reports + [report]))
               == WriteStates(db, Writes(last, initial, reports)) + WriteStates(written, more)
  {
    WritesAppend(last, initial, reports, [report]);
    WithWritesAppend(db, Writes(last, initial, reports), Writes(AfterReports(last, initial, reports), initial, [report]));
    hide WithWrites, WriteStates, Writes;
    assert [report][1..] == [];
  }

  lemma {:induction false} WithWritesAppend(db: Db, a: seq<Persisted>, b: seq<Persisted>)
    ensures WithWrites(db, a + b) == WithWrites(WithWrites(db, a), b)
    ensures WriteStates(db, a + b) == WriteStates(db, a) + WriteStates(WithWrites(db, a), b)
    decreases |a|
  {
    if a == [] {
      assert a + b == b;
    } else {
      WithWritesAppend(db.(video := WithPhase(db.video, a[0].phase, a[0].progress)), a[1..], b);
      assert (a + b)[1..] == a[1..] + b;
    }
  }

  // ---------------------------------------------------------------- how often the writer writes

  ghost predicate Rising(reports: seq<real>, low: real) {
    && (forall i :: 0 <= i < |reports| ==> low <= reports[i] <= 0.98)
    && (forall i, j :: 0 <= i <= j < |reports| ==> reports[i] <= reports[j])
  }

  ghost predicate Running(initial: Snapshot) {
    initial.processedBatches < initial.totalBatches
  }

  function Rank(phase: Phase): int {
    match phase case Segmenting => 1 case Saving => 2 case _ => 0
  }

  lemma OverallGrows(initial: Snapshot, a: real, b: real)
    requires Running(initial) && a <= b
    ensures Overall(initial, a) <= Overall(initial, b)
  {
    QuotientOrder(initial.processedBatches as real + a, initial.processedBatches as real + b, initial.totalBatches as real);
  }

  /** Once the phase is the reported one, writes are paid for by a later phase or by 0.03 more progress. */
  lemma {:induction false} WritesPaid(last: Persisted, initial: Snapshot, reports: seq<real>, seen: real, low: real)
    requires Running(initial) && seen <= 0.98 && Rising(reports, seen)
    requires last.phase == PhaseOf(seen) && low <= last.progress && low <= Overall(initial, seen)
    ensures 0.03 * (|Writes(last, initial, reports)| - (2 - Rank(PhaseOf(seen)))) as real <= Overall(initial, 0.98) - low
    decreases |reports|
  {
    OverallGrows(initial, seen, 0.98);
    hide Writes, Overall, Rising, NeedsWrite, AfterReport;
    if reports == [] {
    } else {
      var b := reports[0];
      var next := AfterReport(last, initial, b);
      OverallGrows(initial, seen, b);
      if NeedsWrite(last, initial, b) {
        WritesPaid(next, initial, reports[1..], b, Overall(initial, b));
        WritePays(last, initial, b, seen, low);
      } else {
        WritesPaid(next, initial, reports[1..], b, low);
      }
    }
  }

  /** A write moves the phase on or pays 0.03 of progress. */
  lemma WritePays(last: Persisted, initial: Snapshot, batchProgress: real, seen: real, low: real)
    requires Running(initial) && NeedsWrite(last, initial, batchProgress) && seen <= batchProgress
    requires last.phase == PhaseOf(seen) && low <= last.progress && low <= Overall(initial, batchProgress)
    ensures 0.03 * (1 + Rank(PhaseOf(seen)) - Rank(PhaseOf(batchProgress))) as real <= Overall(initial, batchProgress) - low
  {
    hide Overall;
  }

  /** The share of one batch in the overall progress. */
  function BatchShare(total: nat): real
    requires total >= 1
  {
    0.68 / total as real
  }

  lemma ShareOfBatch(initial: Snapshot, b: real)
    requires Running(initial) && 0.0 <= b <= 1.0
    ensures 0.30 + 0.68 * Ratio(initial.processedBatches, initial.totalBatches) <= Overall(initial, b)
    ensures Overall(initial, b) - (0.30 + 0.68 * Ratio(initial.processedBatches, initial.totalBatches)) <= BatchShare(initial.totalBatches)
  {
    var k, n := initial.processedBatches as real, initial.totalBatches as real;
    QuotientOrder(k, k + b, initial.totalBatches as real);
    QuotientOrder(k + b, k + 1.0, initial.totalBatches as real);
    QuotientOrder(k + 1.0, n, initial.totalBatches as real);
    OneMore(k, n);
  }

  lemma OneMore(k: real, n: real)
    requires n > 0.0
    ensures (k + 1.0) / n == k / n + 1.0 / n
    ensures 0.68 * (1.0 / n) == 0.68 / n
    ensures n / n == 1.0
  {
  }

  // ---------------------------------------------------------------- what is persisted follows the reports

  predicate BatchPhase(phase: Phase) {
    phase == Translating || phase == Segmenting || phase == Saving
  }

  /** From translating to segmenting to saving, and never back; nor does the progress fall. */
  ghost predicate MovesOn(writes: seq<Persisted>) {
    && (forall i :: 0 <= i < |writes| ==> BatchPhase(writes[i].phase) && 0.0 <= writes[i].progress <= 1.0)
    && (forall i, j :: 0 <= i < j < |writes| ==>
          Rank(writes[i].phase) <= Rank(writes[j].phase) && writes[i].progress <= writes[j].progress)
  }

  ghost predicate NotBefore(writes: seq<Persisted>, initial: Snapshot, low: real)
    requires initial.totalBatches > 0
  {
    forall i :: 0 <= i < |writes| ==> Rank(PhaseOf(low)) <= Rank(writes[i].phase) && Overall(initial, low) <= writes[i].progress
  }

  lemma OverallInRange(initial: Snapshot, b: real)
    requires Running(initial) && b >= 0.0
    ensures 0.0 <= Overall(initial, b) <= 1.0
  {
    QuotientOrder(0.0, initial.processedBatches as real + b, initial.totalBatches as real);
  }

  lemma MovesOnFrom(first: Persisted, rest: seq<Persisted>, initial: Snapshot, b: real)
    requires Running(initial) && b >= 0.0 && first == Persisted(PhaseOf(b), Overall(initial, b))
    requires MovesOn(rest) && NotBefore(rest, initial, b)
    ensures MovesOn([first] + rest) && NotBefore([first] + rest, initial, b)
  {
    OverallInRange(initial, b);
  }

  lemma EarlierStill(writes: seq<Persisted>, initial: Snapshot, low: real, b: real)
    requires Running(initial) && low <= b && NotBefore(writes, initial, b)
    ensures NotBefore(writes, initial, low)
  {
    OverallGrows(initial, low, b);
  }

  /** What is written for rising reports only moves on, starting no earlier than the reports do. */
  lemma {:induction false} WritesMoveOn(last: Persisted, initial: Snapshot, reports: seq<real>, low: real)
    requires Running(initial) && Rising(reports, low) && low >= 0.0
    ensures MovesOn(Writes(last, initial, reports)) && NotBefore(Writes(last, initial, reports), initial, low)
    decreases |reports|
  {
    if reports != [] {
      hide MovesOn, NotBefore, Overall;
      var b, next := reports[0], AfterReport(last, initial, reports[0]);
      var rest := Writes(next, initial, reports[1..]);
      WritesMoveOn(next, initial, reports[1..], b);
      if NeedsWrite(last, initial, b) {
        MovesOnFrom(next, rest, initial, b);
      } else {
        assert [] + rest == rest;
      }
      EarlierStill(Writes(last, initial, reports), initial, low, b);
    } else {
      assert Writes(last, initial, reports) == [];
    }
  }

  /** It is the last write, if there is one; and the last report is in its phase and less than 0.03 above it. */
  lemma {:induction false} MemoryIsTheLastWrite(last: Persisted, initial: Snapshot, reports: seq<real>)
    requires initial.totalBatches > 0
    ensures var writes, memory := Writes(last, initial, reports), AfterReports(last, initial, reports);
            && memory == (if writes == [] then last else writes[|writes| - 1])
            && (reports != [] ==>
                  memory.phase == PhaseOf(reports[|reports| - 1]) && Overall(initial, reports[|reports| - 1]) - memory.progress < 0.03)
    decreases |reports|
  {
    if reports != [] {
      hide Overall, PhaseOf;
      var next := AfterReport(last, initial, reports[0]);
      MemoryIsTheLastWrite(next, initial, reports[1..]);
      assert Writes(last, initial, reports)
          == (if NeedsWrite(last, initial, reports[0]) then [next] else []) + Writes(next, initial, reports[1..]);
    }
  }

  /** A video row after writes that move on: the furthest progress, and the last phase unless the row was ahead of it. */
  lemma {:induction false} RowFollowsWrites(db: Db, writes: seq<Persisted>)
    requires MovesOn(writes) && 0.0 <= db.video.progress <= 1.0
    ensures var video := WithWrites(db, writes).video;
            if writes == [] then video == db.video
            else
              var last := writes[|writes| - 1];
              && video.progress == MaxReal(db.video.progress, last.progress)
              && video.phase == if last.progress >= db.video.progress then last.phase else db.video.phase
  {
    if writes != [] {
      var n := |writes| - 1;
      RowFollowsWrites(db, writes[..n]);
      LastWrite(db, writes);
      hide WithWrites;
      if n > 0 {
        assert writes[..n][n - 1] == writes[n - 1] && writes[n - 1].progress <= writes[n].progress;
      }
    }
  }

  lemma LastWrite(db: Db, writes: seq<Persisted>)
    requires writes != []
    ensures var n := |writes| - 1;
            var before := WithWrites(db, writes[..n]);
            WithWrites(db, writes) == before.(video := WithPhase(before.video, writes[n].phase, writes[n].progress))
  {
    var n := |writes| - 1;
    assert writes == writes[..n] + [writes[n]] && [writes[n]][1..] == [];
    WithWritesAppend(db, writes[..n], [writes[n]]);
    var before := WithWrites(db, writes[..n]);
    hide WithPhase;
    assert WithWrites(before, [writes[n]]) == before.(video := WithPhase(before.video, writes[n].phase, writes[n].progress));
  }

  /** What the writer of a batch persists, starting from what is reported of the rows. */
  function BatchWrites(db: Db, reports: seq<real>): seq<Persisted> {
    var initial := ProgressFor(db);
    Writes(Persisted(initial.phase, initial.progress), initial, reports)
  }

  /**
   After any prefix of the reports of a batch, what is polled is less than 0.03 behind the last report, and so is the
   committed progress once something was written. The committed phase is the last report's exactly if the row was in
   that phase already, or what was last written is not behind the progress the row had.
   */
  lemma CommittedKeepsUp(db: Db, reports: seq<real>)
    requires HonestVideo(db) && Running(ProgressFor(db)) && reports != [] && Rising(reports, 0.0)
    ensures var initial, writes, b := ProgressFor(db), BatchWrites(db, reports), reports[|reports| - 1];
            var share := 0.30 + 0.68 * ((initial.processedBatches as real + b) / initial.totalBatches as real);
            var overall := if share <= 0.98 then share else 0.98;
            var phase := if b < 0.4 then Translating else if b < 0.8 then Segmenting else Saving;
            var after := WithWrites(db, writes);
            && overall - ProgressFor(after).progress < 0.03
            && (writes != [] ==> overall - after.video.progress < 0.03)
            && (writes == [] ==> after == db && db.video.phase == phase)
            && (after.video.phase == phase <==>
                  db.video.phase == phase || (writes != [] && writes[|writes| - 1].progress >= db.video.progress))
  {
    hide MovesOn, NotBefore, Writes, WithWrites, Overall, AfterReports, PhaseOf, ProgressFor, HonestVideo;
    var initial, writes := ProgressFor(db), BatchWrites(db, reports);
    var last := Persisted(initial.phase, initial.progress);
    SentIs(initial, reports[|reports| - 1]);
    RunningIsNotCompleted(db);
    WithinRange(db);
    WritesTouchOnlyTheVideo(db, writes);
    WritesMoveOn(last, initial, reports, 0.0);
    MemoryIsTheLastWrite(last, initial, reports);
    RowFollowsWrites(db, writes);
    PolledNotBehind(db, writes);
  }

  lemma WithinRange(db: Db)
    requires HonestVideo(db)
    ensures 0.0 <= db.video.progress <= 1.0
  {
  }

  lemma RunningIsNotCompleted(db: Db)
    requires HonestVideo(db) && Running(ProgressFor(db))
    ensures ProgressFor(db).status != VideoCompleted && ProgressFor(db).phase == db.video.phase
  {
    CompletedCount(db.batches);
  }

  /** Writes leave the batches alone, so what is polled is at least what it was and at least what is committed. */
  lemma PolledNotBehind(db: Db, writes: seq<Persisted>)
    requires HonestVideo(db) && Running(ProgressFor(db)) && MovesOn(writes)
    ensures var after := WithWrites(db, writes);
            ProgressFor(db).progress <= ProgressFor(after).progress && after.video.progress <= ProgressFor(after).progress
  {
    RowFollowsWrites(db, writes);
    WritesTouchOnlyTheVideo(db, writes);
    WritesKeepStatus(db, writes);
    RunningIsNotCompleted(db);
    hide MovesOn, WithWrites;
  }

  lemma {:induction false} WritesTouchOnlyTheVideo(db: Db, writes: seq<Persisted>)
    ensures WithWrites(db, writes) == db.(video := WithWrites(db, writes).video)
    decreases |writes|
  {
    if writes != [] {
      WritesTouchOnlyTheVideo(db.(video := WithPhase(db.video, writes[0].phase, writes[0].progress)), writes[1..]);
    }
  }

  lemma {:induction false} WritesKeepStatus(db: Db, writes: seq<Persisted>)
    ensures WithWrites(db, writes).video.status == db.video.status
    decreases |writes|
  {
    if writes != [] {
      WritesKeepStatus(db.(video := WithPhase(db.video, writes[0].phase, writes[0].progress)), writes[1..]);
    }
  }

  // ---------------------------------------------------------------- the bounds

  function WriteBound(total: nat): int
    requires total >= 1
  {
    3 + (0.68 / (0.03 * total as real)).Floor
  }

  lemma FloorBound(m: int, total: nat)
    requires total >= 1 && 0.03 * m as real <= BatchShare(total)
    ensures m <= (0.68 / (0.03 * total as real)).Floor
  {
    var n := total as real;
    var s := BatchShare(total);
    assert s * n == 0.68;
    var x := 0.68 / (0.03 * n);
    assert x * (0.03 * n) == 0.68;
    assert x * 0.03 * n == s * n;
    TimesOrder(x * 0.03, s, n);
    assert m as real <= x;
  }

  /**
   Whatever the reports of one batch of an N-batch video, as long as they never fall: at most 3 + floor(0.68 / (0.03 N))
   of them are written.
   */
  lemma {:induction false} WritesPerBatch(initial: Snapshot, last: Persisted, reports: seq<real>)
    requires Running(initial) && Rising(reports, 0.0)
    requires last.progress >= 0.30 + 0.68 * Ratio(initial.processedBatches, initial.totalBatches)
    ensures |Writes(last, initial, reports)| <= WriteBound(initial.totalBatches)
  {
    var n := |Writes(last, initial, reports)|;
    var base := 0.30 + 0.68 * Ratio(initial.processedBatches, initial.totalBatches);
    ShareOfBatch(initial, 0.98);
    if reports != [] {
      var b := reports[0];
      ShareOfBatch(initial, b);
      WritesPaid(AfterReport(last, initial, b), initial, reports[1..], b, base);
    }
    assert 0.03 * (n - 3) as real <= BatchShare(initial.totalBatches);
    FloorBound(n - 3, initial.totalBatches);
  }

  lemma TimesFloor(total: nat)
    requires total >= 1
    ensures (0.68 / (0.03 * total as real)).Floor >= 0
    ensures total * (0.68 / (0.03 * total as real)).Floor <= 22
  {
    var n := total as real;
    var x := 0.68 / (0.03 * n);
    assert x >= 0.0;
    assert x * (0.03 * n) == 0.68;
    var f := x.Floor;
    TimesOrder(f as real, x, n);
    assert 0.03 * (n * f as real) <= 0.68;
    assert (total * f) as real == n * f as real;
  }

  /** Over the batches of a retry-free run, each processed once: at most 3N + 22 writes. */
  lemma {:induction false} WritesPerRun(perBatch: seq<nat>, total: nat)
    requires total >= 1 && |perBatch| <= total
    requires forall i :: 0 <= i < |perBatch| ==> perBatch[i] <= WriteBound(total)
    ensures Sum(perBatch) <= |perBatch| * WriteBound(total)
    ensures Sum(perBatch) <= 3 * total + 22
  {
    SumBound(perBatch, WriteBound(total));
    TimesFloor(total);
    hide Sum;
    BoundTimes(|perBatch|, total, (0.68 / (0.03 * total as real)).Floor);
  }

  lemma BoundTimes(m: nat, total: nat, f: int)
    requires m <= total && f >= 0 && total * f <= 22
    ensures m * (3 + f) <= 3 * total + 22
  {
    assert m * (3 + f) <= total * (3 + f) == 3 * total + total * f;
  }

  function Sum(xs: seq<nat>): nat {
    if xs == [] then 0 else xs[0] + Sum(xs[1..])
  }

  lemma {:induction false} SumBound(xs: seq<nat>, bound: int)
    requires forall i :: 0 <= i < |xs| ==> xs[i] <= bound
    ensures Sum(xs) <= |xs| * bound
  {
    if xs != [] {
      SumBound(xs[1..], bound);
      assert |xs| * bound == bound + (|xs| - 1) * bound;
    }
  }
}
