/**
 The service's operations on a session (backend/app/services/subtitle_service.py), and the retries that reach it
 (backend/app/services/subtitle_queue.py).

 Every operation says which steps of the pipeline its commits amount to: its session ends in the state after those
 steps, and its log grows by the states in between.
 */
module Service {
  import opened Common
  import opened Database
  import opened Progress
  import opened Schedule
  import opened Pipeline
  import opened Queue
  import opened Runs
  import BatchWork

  // ---------------------------------------------------------------- runs of steps in a session's log

  /** From a committed state and a log, the session has run these steps. */
  twostate predicate HasRun(session: Session, config: Config, steps: seq<Step>)
    reads session
  {
    && session.rows == session.committed
    && session.committed == Exec(config, old(session.committed), steps)
    && session.log == old(session.log) + States(config, old(session.committed), steps)
  }

  ghost function WriteSteps(writes: seq<Persisted>): seq<Step> {
    seq(|writes|, i requires 0 <= i < |writes| => SetPhase(writes[i].phase, writes[i].progress))
  }

  lemma {:induction false} WritesAreSteps(config: Config, db: Db, writes: seq<Persisted>)
    ensures WithWrites(db, writes) == Exec(config, db, WriteSteps(writes))
    ensures WriteStates(db, writes) == States(config, db, WriteSteps(writes))
    decreases |writes|
  {
    if writes != [] {
      var step := SetPhase(writes[0].phase, writes[0].progress);
      WritesAreSteps(config, Apply(config, db, step), writes[1..]);
      ExecOne(config, db, step);
      ExecAppend(config, db, [step], WriteSteps(writes[1..]));
      assert WriteSteps(writes) == [step] + WriteSteps(writes[1..]);
    }
  }

  /** Neither a retry nor a failure after a commit. */
  ghost predicate Forward(step: Step) {
    !step.Retry? && !step.LateFailure?
  }

  ghost predicate AllForward(steps: seq<Step>) {
    forall step :: step in steps ==> Forward(step)
  }

  /** A forward run never takes back a completed batch, so its reported progress never falls. */
  lemma {:induction false} ForwardRunNeverFalls(config: Config, db: Db, steps: seq<Step>, i: nat, j: nat)
    requires Inv(config, db) && AllForward(steps) && i <= j <= |steps|
    ensures ProgressFor(Exec(config, db, steps[..i])).progress <= ProgressFor(Exec(config, db, steps[..j])).progress
  {
    var run := steps[..j];
    assert forall k :: 0 <= k < |run| ==> Forward(run[k]);
    ProgressNeverFalls(config, db, run, i);
    assert run[..i] == steps[..i];
  }

  // ---------------------------------------------------------------- preparing a video

  /** Where the lines come from: the transcript, or ASR with its chunk reports, which may raise in the end. */
  datatype Source =
    | Transcript(raw: seq<RawSubtitle>)
    | Asr(chunkReports: seq<(nat, nat)>, result: Option<seq<RawSubtitle>>)

  function AsrProgress(report: (nat, nat)): real {
    0.14 + 0.12 * (report.0 as real / (if report.1 >= 1 then report.1 else 1) as real)
  }

  /** The phases committed while the lines are retrieved. */
  function SourceWrites(source: Source): seq<Persisted> {
    [Persisted(YoutubeSubtitles, 0.08)] +
    match source
    case Transcript(_) => []
    case Asr(reports, _) =>
      [Persisted(Phase.Asr, 0.14)] +
      seq(|reports|, i requires 0 <= i < |reports| => Persisted(Phase.Asr, AsrProgress(reports[i])))
  }

  function Retrieved(source: Source): Option<seq<RawSubtitle>> {
    match source case Transcript(raw) => Some(raw) case Asr(_, result) => result
  }

  /** The steps that retrieving and storing the lines commits. */
  ghost function FetchSteps(source: Source): seq<Step> {
    WriteSteps(SourceWrites(source)) +
    match Retrieved(source)
    case None => []
    case Some(raw) => [SetPhase(PreparingBatches, 0.28), StoreLines(raw)]
  }

  /** The steps that preparing the content commits. */
  ghost function PrepareSteps(db: Db, source: Source): seq<Step> {
    if AllLinesProcessed(db.subtitles) then []
    else if db.subtitles != [] then [ResumeLines]
    else FetchSteps(source)
  }

  method WriteAll(session: Session, writes: seq<Persisted>)
    requires session.rows == session.committed
    modifies session
    ensures session.rows == session.committed == WithWrites(old(session.committed), writes)
    ensures session.log == old(session.log) + WriteStates(old(session.committed), writes)
  {
    ghost var db, log := session.committed, session.log;
    for i := 0 to |writes|
      invariant session.rows == session.committed == WithWrites(db, writes[..i])
      invariant session.log == log + WriteStates(db, writes[..i])
    {
      WithWritesAppend(db, writes[..i], [writes[i]]);
      assert writes[..i + 1] == writes[..i] + [writes[i]];
      assert [writes[i]][1..] == [];
      session.WriteProgress(writes[i].phase, writes[i].progress);
    }
    assert writes[..|writes|] == writes;
  }

  /** _retrieve_or_transcribe: the phases are committed one by one; None stands for raising. */
  method RetrieveOrTranscribe(session: Session, config: Config, source: Source) returns (raw: Option<seq<RawSubtitle>>)
    requires session.rows == session.committed
    modifies session
    ensures raw == Retrieved(source)
    ensures HasRun(session, config, WriteSteps(SourceWrites(source)))
    ensures session.committed == old(session.committed).(video := session.committed.video)
    ensures session.committed.video.status == old(session.committed).video.status
  {
    ghost var db := session.committed;
    WriteAll(session, SourceWrites(source));
    WritesAreSteps(config, db, SourceWrites(source));
    WritesTouchOnlyTheVideo(db, SourceWrites(source));
    WritesKeepStatus(db, SourceWrites(source));
    raw := Retrieved(source);
  }

  /** The lines and their batches, stored in two commits. */
  method StoreRetrieved(session: Session, config: Config, raw: seq<RawSubtitle>)
    requires session.rows == session.committed && session.committed.subtitles == []
    modifies session
    ensures HasRun(session, config, [SetPhase(PreparingBatches, 0.28), StoreLines(raw)])
  {
    ghost var db := session.committed;
    session.SetProcessingPhase(PreparingBatches, 0.28);
    session.Commit();
    ExecOne(config, db, SetPhase(PreparingBatches, 0.28));
    RunOne(config, db, [SetPhase(PreparingBatches, 0.28)], StoreLines(raw));
    var lines := RawLinesWithBatches(raw, config.batchSeconds);
    session.ReplaceRawForVideo(lines);
    session.CreateMissing(BatchDefinitions(BatchesOfLines(lines), config.batchSeconds));
    session.SetProcessingPhase(ProcessingBatches, MaxReal(session.rows.video.progress, 0.30));
    session.Commit();
    assert session.committed == StoreDb(Exec(config, db, [SetPhase(PreparingBatches, 0.28)]), raw, config);
    assert [SetPhase(PreparingBatches, 0.28)] + [StoreLines(raw)] == [SetPhase(PreparingBatches, 0.28), StoreLines(raw)];
  }

  /** Lines stored earlier get the batches they lack. */
  method ResumeStored(session: Session, config: Config)
    requires session.rows == session.committed
    requires session.rows.subtitles != [] && !AllLinesProcessed(session.rows.subtitles)
    modifies session
    ensures HasRun(session, config, [ResumeLines])
  {
    ExecOne(config, session.committed, ResumeLines);
    session.SetProcessingPhase(PreparingBatches, 0.28);
    session.CreateMissing(BatchDefinitions(BatchesOfRows(session.rows.subtitles), config.batchSeconds));
    session.SetProcessingPhase(ProcessingBatches, MaxReal(session.rows.video.progress, 0.30));
    session.Commit();
  }

  /** The failure handler: the unbound name raises before the commit, and closing the session discards its writes. */
  method FailPreparation(session: Session)
    modifies session`rows
    ensures session.rows == session.committed
  {
    session.Rollback();
    session.SetProcessingStatus(VideoFailed);
    session.SetProcessingPhase(PhaseFailed, session.rows.video.progress);
    session.Rollback();
  }

  /** A video without lines yet: retrieve them and store them, or give up. */
  method FetchAndStore(session: Session, config: Config, source: Source) returns (ok: bool)
    requires session.rows == session.committed && session.committed.subtitles == []
    modifies session
    ensures HasRun(session, config, FetchSteps(source))
    ensures ok <==> Retrieved(source).Some?
    ensures !ok ==> session.committed == old(session.committed).(video := session.committed.video)
                    && session.committed.video.status == old(session.committed).video.status
  {
    hide Exec, States, WithWrites;
    ghost var db := session.committed;
    var raw := RetrieveOrTranscribe(session, config, source);
    if raw.None? {
      FailPreparation(session);
      assert FetchSteps(source) == WriteSteps(SourceWrites(source));
      return false;
    }
    ghost var more := [SetPhase(PreparingBatches, 0.28), StoreLines(raw.value)];
    ExecAppend(config, db, WriteSteps(SourceWrites(source)), more);
    StoreRetrieved(session, config, raw.value);
    return true;
  }

  /**
   prepare_video_content. A failing retrieval commits the phases it went through and nothing else: its handler trips
   over an unbound name before its own commit, so the "failed" status is rolled back with the session.
   */
  method PrepareVideoContent(session: Session, config: Config, source: Source) returns (ok: bool)
    requires session.rows == session.committed
    modifies session
    ensures HasRun(session, config, PrepareSteps(old(session.committed), source))
    ensures ok <==> old(session.committed).subtitles != [] || source.Transcript? || source.result.Some?
    ensures !ok ==> session.committed == old(session.committed).(video := session.committed.video)
                    && session.committed.video.status == old(session.committed).video.status
  {
    if AllLinesProcessed(session.rows.subtitles) {
      return true;
    }
    if session.rows.subtitles != [] {
      ResumeStored(session, config);
      return true;
    }
    ok := FetchAndStore(session, config, source);
  }

  // ---------------------------------------------------------------- processing a batch

  /** An exception of neither provider: nowhere, before the commit after so many reports, or after the commit. */
  datatype Fault = NoFault | BeforeCommit(reported: nat) | AfterCommit

  /**
   The steps that processing a batch commits: the progress writes, then the batch itself. Retries of other batches that
   land meanwhile commit in between; retries of this batch are left out, as they meet its locked row.
   */
  ghost function ProcessSteps(db: Db, index: int, p: Providers, fault: Fault, config: Config, writes: seq<Persisted>,
                              during: seq<int>): seq<Step>
  {
    if index !in db.batches || db.batches[index].status == BatchCompleted then []
    else WorkSteps(index, writes, during) + SettleSteps(db, index, p, fault, config)
  }

  /** The steps committed while a batch is being worked on. */
  ghost function WorkSteps(index: int, writes: seq<Persisted>, during: seq<int>): seq<Step> {
    WriteSteps(writes) + RetrySteps(Others(during, index))
  }

  ghost function RetrySteps(batches: seq<int>): seq<Step> {
    seq(|batches|, i requires 0 <= i < |batches| => Retry(batches[i]))
  }

  function AllRetried(db: Db, batches: seq<int>): Db {
    if batches == [] then db else Retried(AllRetried(db, batches[..|batches| - 1]), batches[|batches| - 1])
  }

  lemma {:induction false} RetriesAreSteps(config: Config, db: Db, batches: seq<int>)
    ensures Exec(config, db, RetrySteps(batches)) == AllRetried(db, batches)
  {
    if batches != [] {
      var n := |batches| - 1;
      RetriesAreSteps(config, db, batches[..n]);
      assert RetrySteps(batches) == RetrySteps(batches[..n]) + [Retry(batches[n])];
      RunOne(config, db, RetrySteps(batches[..n]), Retry(batches[n]));
    }
  }

  /** Retries of other batches leave this one and all subtitles alone. */
  lemma {:induction false} RetriesSpare(db: Db, batches: seq<int>, index: int)
    requires NotAmong(index, batches)
    ensures var after := AllRetried(db, batches);
            && after.subtitles == db.subtitles && after.batches.Keys == db.batches.Keys
            && (index in db.batches ==> after.batches[index] == db.batches[index])
  {
    if batches != [] {
      RetriesSpare(db, batches[..|batches| - 1], index);
    }
  }

  /** The steps that settle a claimed batch. */
  ghost function SettleSteps(db: Db, index: int, p: Providers, fault: Fault, config: Config): seq<Step> {
    [Process(index, p, fault.BeforeCommit?)] + LateSteps(db, index, p, fault, config)
  }

  /** The second commit of a batch that completes and then meets an exception. */
  ghost function LateSteps(db: Db, index: int, p: Providers, fault: Fault, config: Config): seq<Step> {
    if fault.AfterCommit? && BatchLines(db, index, p, config).Some? then [LateFailure(index)] else []
  }

  /** All the reports of a batch: when it is claimed, at every step of its work, and before it is stored. */
  ghost function AllReports(db: Db, index: int, p: Providers, config: Config): seq<real> {
    [0.02] + BatchWork.BatchReports(p.analyzer, |BatchRows(db, index)|, config.chunkSize) + [0.98]
  }

  /** They are made in order, and all of them unless the work raises or a fault strikes before the commit. */
  ghost predicate ReportsMade(db: Db, index: int, p: Providers, fault: Fault, config: Config, reports: seq<real>) {
    && reports <= AllReports(db, index, p, config)
    && (BatchLines(db, index, p, config).Some? && !fault.BeforeCommit? ==> reports == AllReports(db, index, p, config))
  }

  /** The reports a batch makes before it commits or fails. */
  method BatchReports(inner: seq<real>, done: bool, fault: Fault, ghost all: seq<real>) returns (reports: seq<real>)
    requires BatchWork.Steady(inner, 0.05, 0.96) && BatchWork.ReportsOf(inner, all, done)
    ensures Rising(reports, 0.0)
    ensures reports <= [0.02] + all + [0.98] && (done && !fault.BeforeCommit? ==> reports == [0.02] + all + [0.98])
  {
    reports := [BatchWork.Report(0.02)] + inner;
    assert ([0.02] + all + [0.98])[..|reports|] == [0.02] + all[..|inner|];
    if done {
      reports := reports + [BatchWork.Report(0.98)];
    }
    if fault.BeforeCommit? && fault.reported <= |reports| {
      reports := reports[..fault.reported];
    }
  }

  /** Completes the video when all of its batches are completed. */
  method MaybeCompleteVideo(session: Session)
    modifies session`rows
    ensures session.rows ==
            if AllCompleted(old(session.rows).batches)
            then old(session.rows).(video := WithPhase(old(session.rows).video.(status := VideoCompleted), PhaseCompleted, 1.0))
            else old(session.rows)
  {
    if AllCompleted(session.rows.batches) {
      session.SetProcessingStatus(VideoCompleted);
      session.SetProcessingPhase(PhaseCompleted, 1.0);
    }
  }

  method FailBatch(session: Session, index: int)
    modifies session
    ensures session.rows == session.committed == FailedDb(old(session.committed), index)
    ensures session.log == old(session.log) + [session.committed]
  {
    session.Rollback();
    session.MarkStatus(index, BatchFailed);
    session.MarkBatchLines(index, LineFailed);
    session.SetProcessingStatus(VideoFailed);
    session.Commit();
  }

  method ClaimBatch(session: Session, index: int)
    modifies session`rows
    ensures session.rows == Claimed(old(session.rows), index)
  {
    session.MarkStatus(index, BatchProcessing);
    session.MarkBatchLines(index, LineProcessing);
  }

  /** The claim and the processing, with the progress writes made meanwhile; the claimed rows stay uncommitted. */
  method WorkOnBatch(session: Session, config: Config, index: int, p: Providers, fault: Fault,
                     publisher: BatchProgressPublisher)
    returns (lines: Option<seq<ProcessedLine>>, reports: seq<real>)
    requires session.rows == session.committed
    modifies session, publisher
    ensures lines == BatchLines(old(session.committed), index, p, config)
    ensures Rising(reports, 0.0) && ReportsMade(old(session.committed), index, p, fault, config, reports)
    ensures session.rows == Claimed(session.committed, index)
    ensures session.committed == old(session.committed).(video := session.committed.video)
    ensures var steps := WriteSteps(Writes(old(publisher.last), publisher.initial, reports));
            && session.committed == Exec(config, old(session.committed), steps)
            && session.log == old(session.log) + States(config, old(session.committed), steps)
  {
    ghost var db := session.committed;
    ClaimBatch(session, index);
    var inner;
    lines, inner := BatchWork.ProcessSubtitleBatch(LinesOf(session.rows.subtitles, index), p, config.chunkSize);
    reports := BatchReports(inner, lines.Some?, fault,
                            BatchWork.BatchReports(p.analyzer, |BatchRows(db, index)|, config.chunkSize));
    WritesTouchOnlyTheVideo(db, Writes(publisher.last, publisher.initial, reports));
    WritesAreSteps(config, db, Writes(publisher.last, publisher.initial, reports));
    var published := publisher.PublishAll(session, reports);
  }

  lemma FailedIsFailed(db: Db, index: int)
    ensures index in FailedDb(db, index).batches <==> index in db.batches
    ensures index in db.batches ==> FailedDb(db, index).batches[index].status == BatchFailed
  {
  }

  lemma CompletedIsCompleted(db: Db, index: int, lines: seq<ProcessedLine>)
    requires index in db.batches
    ensures index in CompletedDb(Claimed(db, index), index, lines).batches
    ensures CompletedDb(Claimed(db, index), index, lines).batches[index].status == BatchCompleted
  {
  }

  /** One commit completes or fails the batch; a fault after it fails it in a second one. */
  method SettleBatch(session: Session, config: Config, index: int, p: Providers, fault: Fault,
                     lines: Option<seq<ProcessedLine>>) returns (ok: bool)
    requires session.rows == Claimed(session.committed, index)
    requires index in session.committed.batches && session.committed.batches[index].status != BatchCompleted
    requires lines == BatchLines(session.committed, index, p, config)
    modifies session
    ensures HasRun(session, config, SettleSteps(old(session.committed), index, p, fault, config))
    ensures ok <==> index in session.committed.batches && session.committed.batches[index].status == BatchCompleted
  {
    ghost var db := session.committed;
    ExecOne(config, db, Process(index, p, fault.BeforeCommit?));
    FailedIsFailed(db, index);
    if lines.Some? {
      CompletedIsCompleted(db, index, lines.value);
      FailedIsFailed(CompletedDb(Claimed(db, index), index, lines.value), index);
    }
    hide Exec, States, BatchLines, Claimed, CompletedDb, FailedDb;
    if lines.None? || fault.BeforeCommit? {
      FailBatch(session, index);
      return false;
    }
    CompleteBatch(session, index, lines.value);
    if fault.AfterCommit? {
      RunOne(config, db, [Process(index, p, false)], LateFailure(index));
      FailBatch(session, index);
      return false;
    }
    return true;
  }

  method CompleteBatch(session: Session, index: int, lines: seq<ProcessedLine>)
    requires session.rows == Claimed(session.committed, index)
    modifies session
    ensures session.rows == session.committed == CompletedDb(Claimed(old(session.committed), index), index, lines)
    ensures session.log == old(session.log) + [session.committed]
  {
    session.UpdateProcessedBatch(index, lines);
    session.MarkStatus(index, BatchCompleted);
    MaybeCompleteVideo(session);
    session.Commit();
  }

  /** A batch that is there and not completed: claim it, work on it, settle it. */
  method ProcessOpenBatch(session: Session, config: Config, index: int, p: Providers, fault: Fault,
                          publisher: BatchProgressPublisher, during: seq<int>) returns (ok: bool, ghost reports: seq<real>)
    requires session.rows == session.committed
    requires index in session.committed.batches && session.committed.batches[index].status != BatchCompleted
    modifies session, publisher
    ensures Rising(reports, 0.0) && ReportsMade(old(session.committed), index, p, fault, config, reports)
    ensures HasRun(session, config,
                   ProcessSteps(old(session.committed), index, p, fault, config,
                                Writes(old(publisher.last), publisher.initial, reports), during))
    ensures ok <==> index in session.committed.batches && session.committed.batches[index].status == BatchCompleted
  {
    hide Exec, States, Claimed, AllRetried, Others, WriteSteps, RetrySteps, SettleSteps, ReportsMade;
    ghost var db := session.committed;
    var lines, reported := WorkOnBatch(session, config, index, p, fault, publisher);
    reports := reported;
    ghost var writes := Writes(old(publisher.last), publisher.initial, reports);
    WorkedOn(config, db, index, writes, during);
    LandRetries(session, config, index, during);
    SettleAfter(config, db, session.committed, index, p, fault, WorkSteps(index, writes, during));
    ok := SettleBatch(session, config, index, p, fault, lines);
  }

  /** Retries of other batches commit while this one is claimed. */
  method LandRetries(session: Session, config: Config, index: int, during: seq<int>)
    requires session.rows == Claimed(session.committed, index)
    modifies session
    ensures session.rows == Claimed(session.committed, index)
    ensures var steps := RetrySteps(Others(during, index));
            && session.committed == Exec(config, old(session.committed), steps)
            && session.log == old(session.log) + States(config, old(session.committed), steps)
  {
    NoRetries(config, session.committed);
    hide Exec, States, Claimed, Others, RetrySteps;
    ghost var db, log := session.committed, session.log;
    for i := 0 to |during|
      invariant session.rows == Claimed(session.committed, index)
      invariant session.committed == Exec(config, db, RetrySteps(Others(during[..i], index)))
      invariant session.log == log + States(config, db, RetrySteps(Others(during[..i], index)))
    {
      assert during[..i + 1][..i] == during[..i];
      OneMoreRetry(config, db, during[..i + 1], index);
      if during[i] != index {
        LandRetry(session, index, during[i]);
      }
    }
    assert during[..|during|] == during;
  }

  method LandRetry(session: Session, index: int, other: int)
    requires session.rows == Claimed(session.committed, index) && other != index
    modifies session
    ensures session.committed == Retried(old(session.committed), other) && session.rows == Claimed(session.committed, index)
    ensures session.log == old(session.log) + [session.committed]
  {
    ClaimSparesOthers(session.committed, index, other);
    hide Claimed;
    session.OtherSessionRetries(other);
  }

  lemma OneMoreRetry(config: Config, db: Db, during: seq<int>, index: int)
    requires during != []
    ensures var before, after := RetrySteps(Others(during[..|during| - 1], index)), RetrySteps(Others(during, index));
            var last := during[|during| - 1];
            if last == index then after == before
            else
              && Exec(config, db, after) == Retried(Exec(config, db, before), last)
              && States(config, db, after) == States(config, db, before) + [Retried(Exec(config, db, before), last)]
  {
    var before := Others(during[..|during| - 1], index);
    var last := during[|during| - 1];
    if last == index {
      assert before + [] == before;
    } else {
      assert RetrySteps(before + [last]) == RetrySteps(before) + [Retry(last)];
      RunOne(config, db, RetrySteps(before), Retry(last));
    }
  }

  lemma NoRetries(config: Config, db: Db)
    ensures Exec(config, db, RetrySteps([])) == db && States(config, db, RetrySteps([])) == []
  {
  }

  lemma ClaimSparesOthers(db: Db, index: int, other: int)
    requires other != index
    ensures Retried(Claimed(db, index), other) == Claimed(Retried(db, other), index)
    ensures Claimed(db, index).video == db.video
    ensures other in Claimed(db, index).batches <==> other in db.batches
    ensures other in db.batches ==> Claimed(db, index).batches[other] == db.batches[other]
  {
  }

  /** Settling after what was committed meanwhile is settling from there. */
  lemma SettleAfter(config: Config, db: Db, written: Db, index: int, p: Providers, fault: Fault, before: seq<Step>)
    requires written == Exec(config, db, before) && written.subtitles == db.subtitles
    ensures BatchLines(written, index, p, config) == BatchLines(db, index, p, config)
    ensures SettleSteps(written, index, p, fault, config) == SettleSteps(db, index, p, fault, config)
    ensures var settle := SettleSteps(db, index, p, fault, config);
            && Exec(config, db, before + settle) == Exec(config, written, settle)
            && States(config, db, before + settle) == States(config, db, before) + States(config, written, settle)
  {
    ExecAppend(config, db, before, SettleSteps(db, index, p, fault, config));
  }

  /** What is known of the state in which a batch is settled. */
  lemma WorkedOn(config: Config, db: Db, index: int, writes: seq<Persisted>, during: seq<int>)
    ensures var written := Exec(config, db, WriteSteps(writes));
            var worked := Exec(config, db, WorkSteps(index, writes, during));
            && written == db.(video := written.video)
            && worked == AllRetried(written, Others(during, index))
            && worked == Exec(config, written, RetrySteps(Others(during, index)))
            && States(config, db, WorkSteps(index, writes, during))
               == States(config, db, WriteSteps(writes)) + States(config, written, RetrySteps(Others(during, index)))
            && worked.subtitles == db.subtitles && worked.batches.Keys == db.batches.Keys
            && (index in db.batches ==> worked.batches[index] == db.batches[index])
  {
    hide Exec, States;
    var written, others := Exec(config, db, WriteSteps(writes)), Others(during, index);
    WritesAreSteps(config, db, writes);
    WritesTouchOnlyTheVideo(db, writes);
    ExecAppend(config, db, WriteSteps(writes), RetrySteps(others));
    RetriesAreSteps(config, written, others);
    OthersAreOthers(during, index);
    RetriesSpare(written, others, index);
  }

  /**
   process_batch. The lines are computed from the claimed rows alone, so the progress writes made meanwhile are replayed
   after the computation, and the retries of other batches that land meanwhile after these. Claimed rows are never
   committed.
   */
  method ProcessBatch(session: Session, config: Config, index: int, p: Providers, fault: Fault,
                      publisher: BatchProgressPublisher, during: seq<int>)
    returns (response: Option<seq<SubtitleRow>>, ghost reports: seq<real>)
    requires session.rows == session.committed
    modifies session, publisher
    ensures Rising(reports, 0.0)
    ensures var db := old(session.committed);
            if index in db.batches && db.batches[index].status != BatchCompleted
            then ReportsMade(db, index, p, fault, config, reports) else reports == []
    ensures HasRun(session, config,
                   ProcessSteps(old(session.committed), index, p, fault, config,
                                Writes(old(publisher.last), publisher.initial, reports), during))
    ensures response.Some? <==> index in session.committed.batches && session.committed.batches[index].status == BatchCompleted
    ensures response.Some? ==> response.value == LinesOf(session.committed.subtitles, index)
  {
    reports := [];
    if index !in session.rows.batches {
      return None, [];
    }
    if session.rows.batches[index].status == BatchCompleted {
      return Some(LinesOf(session.rows.subtitles, index)), [];
    }
    var ok;
    ok, reports := ProcessOpenBatch(session, config, index, p, fault, publisher, during);
    response := if ok then Some(LinesOf(session.committed.subtitles, index)) else None;
  }

  /** The database half of retry_batch; the hint is the queue's. */
  method RetryBatch(session: Session, config: Config, index: int)
    requires session.rows == session.committed
    modifies session
    ensures HasRun(session, config, [Retry(index)])
  {
    ExecOne(config, session.committed, Retry(index));
    session.SetProcessingStatus(VideoProcessing);
    session.MarkStatus(index, BatchPending);
    session.Commit();
  }

  /** The commit that prepare_video makes before any slow work. Nothing is committed for a fully processed video. */
  method ImportVideo(session: Session, config: Config)
    requires session.rows == session.committed
    modifies session
    ensures HasRun(session, config, if AllLinesProcessed(old(session.committed).subtitles) then [] else [Import])
  {
    ExecOne(config, session.committed, Import);
    if !AllLinesProcessed(session.rows.subtitles) {
      session.SetProcessingStatus(VideoProcessing);
      session.SetProcessingPhase(SubtitleSource, 0.05);
      session.Commit();
    }
  }
}
