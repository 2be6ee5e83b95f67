/**
 The queue worker of one video: prepare, then pick and process batches until none is pending (subtitle_queue.py). Which
 requests arrive, which providers a batch meets and which faults strike are arbitrary functions of the picks so far.
 */
module Worker {
  import opened Common
  import opened Database
  import opened Progress
  import opened Schedule
  import opened Pipeline
  import opened Queue
  import opened Runs
  import opened Service
  import opened Traces
  import BatchWork

  // ---------------------------------------------------------------- what waits, seen from the rows

  /** Batch rows keep their windows, so a playback time keeps its batch. */
  ghost predicate SameWindows(windows: map<int, BatchRow>, batches: map<int, BatchRow>) {
    forall b :: b in windows || b in batches ==>
      b in windows && b in batches && windows[b].start == batches[b].start && windows[b].end == batches[b].end
  }

  lemma SameContaining(windows: map<int, BatchRow>, batches: map<int, BatchRow>, playbackTime: real)
    requires SameWindows(windows, batches)
    ensures Containing(windows, playbackTime) == Containing(batches, playbackTime)
  {
    forall b ensures b in Containing(windows, playbackTime) <==> b in Containing(batches, playbackTime) {
      assert b in windows.Keys <==> b in batches.Keys;
    }
  }

  /** The committed pending batches and the hints in the queue's memory. */
  function WaitingIn(session: Session, state: VideoQueueState): Waiting
    reads session, state
  {
    Waiting(Pending(session.committed.batches), state.hints)
  }

  lemma {:induction false} AllRetriedPending(windows: map<int, BatchRow>, db: Db, batches: seq<int>, hints: seq<int>)
    requires SameWindows(windows, db.batches)
    ensures SameWindows(windows, AllRetried(db, batches).batches)
    ensures Pending(AllRetried(db, batches).batches)
         == AllRequeued(windows, Waiting(Pending(db.batches), hints), batches).pending
  {
    if batches != [] {
      hide SameWindows, Retried, Pending;
      AllRetriedPending(windows, db, batches[..|batches| - 1], hints);
    }
  }

  /** Taking a batch out and making others pending can change places. */
  lemma {:induction false} RequeuedAround(windows: map<int, BatchRow>, pending: set<int>, index: int, others: seq<int>,
                                          hints: seq<int>, hintsLeft: seq<int>)
    requires NotAmong(index, others)
    ensures AllRequeued(windows, Waiting(pending, hints), others).pending - {index}
         == AllRequeued(windows, Waiting(pending - {index}, hintsLeft), others).pending
  {
    if others != [] {
      RequeuedAround(windows, pending, index, others[..|others| - 1], hints, hintsLeft);
    }
  }

  lemma WritesKeepBatches(config: Config, db: Db, writes: seq<Persisted>)
    ensures Exec(config, db, WriteSteps(writes)) == db.(video := Exec(config, db, WriteSteps(writes)).video)
  {
    WritesAreSteps(config, db, writes);
    WritesTouchOnlyTheVideo(db, writes);
  }

  lemma SettledPending(config: Config, db: Db, index: int, p: Providers, fault: Fault)
    requires index in Pending(db.batches)
    ensures var after := Exec(config, db, SettleSteps(db, index, p, fault, config));
            SameWindows(db.batches, after.batches) && Pending(after.batches) == Pending(db.batches) - {index}
  {
    var process := Process(index, p, fault.BeforeCommit?);
    var processed := ProcessDb(db, index, p, fault.BeforeCommit?, config);
    ExecOne(config, db, process);
    RunOne(config, db, [process], LateFailure(index));
    ProcessedOut(config, db, index, p, fault.BeforeCommit?);
    hide Exec, ProcessDb, FailedDb, SameWindows, Pending;
    FailedOut(processed, index);
    Through(db.batches, processed.batches, FailedDb(processed, index).batches);
    assert SettleSteps(db, index, p, fault, config) == [process]
        || SettleSteps(db, index, p, fault, config) == [process] + [LateFailure(index)];
  }

  lemma FailedOut(db: Db, index: int)
    ensures SameWindows(db.batches, FailedDb(db, index).batches)
    ensures Pending(FailedDb(db, index).batches) == Pending(db.batches) - {index}
  {
  }

  lemma ProcessedOut(config: Config, db: Db, index: int, p: Providers, struck: bool)
    requires index in Pending(db.batches)
    ensures var after := ProcessDb(db, index, p, struck, config);
            SameWindows(db.batches, after.batches) && Pending(after.batches) == Pending(db.batches) - {index}
  {
    assert db.batches[index].status != BatchCompleted;
    FailedOut(db, index);
  }

  lemma Through(windows: map<int, BatchRow>, between: map<int, BatchRow>, batches: map<int, BatchRow>)
    requires SameWindows(windows, between) && SameWindows(between, batches)
    ensures SameWindows(windows, batches)
  {
  }

  /** What processing a pending batch does to what waits: it is out, and the retries that landed meanwhile are in. */
  lemma ProcessedPending(config: Config, windows: map<int, BatchRow>, db: Db, index: int, p: Providers, fault: Fault,
                         writes: seq<Persisted>, during: seq<int>, hints: seq<int>)
    requires index in Pending(db.batches) && SameWindows(windows, db.batches)
    ensures var after := Exec(config, db, ProcessSteps(db, index, p, fault, config, writes, during));
            && SameWindows(windows, after.batches)
            && Pending(after.batches)
               == AllRequeued(windows, Waiting(Pending(db.batches) - {index}, hints), Others(during, index)).pending
  {
    var work, others := WorkSteps(index, writes, during), Others(during, index);
    var written, worked := Exec(config, db, WriteSteps(writes)), Exec(config, db, work);
    WorkedOn(config, db, index, writes, during);
    SettleAfter(config, db, worked, index, p, fault, work);
    hide Exec, States, AllRequeued, AllRetried, SameWindows, WorkSteps, SettleSteps;
    AllRetriedPending(windows, written, others, hints);
    SettledPending(config, worked, index, p, fault);
    OthersAreOthers(during, index);
    RequeuedAround(windows, Pending(db.batches), index, others, hints, hints);
    Through(windows, worked.batches, Exec(config, db, ProcessSteps(db, index, p, fault, config, writes, during)).batches);
  }

  /** A pending batch keeps the video from being complete, so its writes are bounded. */
  lemma WritesBounded(db: Db, index: int, reports: seq<real>)
    requires index in Pending(db.batches) && Rising(reports, 0.0)
    ensures |db.batches| >= 1
    ensures var initial := ProgressFor(db);
            |Writes(Persisted(initial.phase, initial.progress), initial, reports)| <= WriteBound(|db.batches|)
  {
    assert index in db.batches.Keys && |db.batches| == |db.batches.Keys|;
    assert |db.batches.Keys| >= 1 by {
      SubsetSize({index}, db.batches.Keys);
    }
    CompletedCount(db.batches);
    assert !AllCompleted(db.batches);
    var initial := ProgressFor(db);
    RatioGrows(initial.processedBatches, initial.processedBatches, initial.totalBatches);
    WritesPerBatch(initial, Persisted(initial.phase, initial.progress), reports);
  }

  /** Every batch still has its chance: none has failed. */
  ghost predicate Unfailed(batches: map<int, BatchRow>) {
    forall b :: b in batches ==> batches[b].status == BatchPending || batches[b].status == BatchCompleted
  }

  /** Nothing goes wrong: no fault, and providers that never make a batch raise. */
  ghost predicate Flawless(config: Config, p: Providers, fault: Fault) {
    fault == NoFault && forall subtitles :: BatchWork.ProcessedLines(subtitles, p, config.chunkSize).Some?
  }

  lemma SettledWell(config: Config, db: Db, index: int, p: Providers)
    requires Flawless(config, p, NoFault) && Unfailed(db.batches)
    ensures Unfailed(Exec(config, db, SettleSteps(db, index, p, NoFault, config)).batches)
  {
    ExecOne(config, db, Process(index, p, false));
    assert SettleSteps(db, index, p, NoFault, config) == [Process(index, p, false)];
    assert BatchWork.ProcessedLines(LinesOf(Claimed(db, index).subtitles, index), p, config.chunkSize).Some?;
  }

  lemma {:induction false} AllRetriedWell(db: Db, batches: seq<int>)
    requires Unfailed(db.batches)
    ensures Unfailed(AllRetried(db, batches).batches)
  {
    if batches != [] {
      hide Unfailed, Retried;
      AllRetriedWell(db, batches[..|batches| - 1]);
    }
  }

  /** A flawless batch fails nothing. */
  lemma ProcessedWell(config: Config, db: Db, index: int, p: Providers, writes: seq<Persisted>, during: seq<int>)
    requires index in Pending(db.batches) && Flawless(config, p, NoFault) && Unfailed(db.batches)
    ensures Unfailed(Exec(config, db, ProcessSteps(db, index, p, NoFault, config, writes, during)).batches)
  {
    var work := WorkSteps(index, writes, during);
    var written, worked := Exec(config, db, WriteSteps(writes)), Exec(config, db, work);
    WorkedOn(config, db, index, writes, during);
    SettleAfter(config, db, worked, index, p, NoFault, work);
    hide Exec, States, Flawless, AllRetried, WorkSteps, SettleSteps, Unfailed;
    AllRetriedWell(written, Others(during, index));
    SettledWell(config, worked, index, p);
  }

  // ---------------------------------------------------------------- requests between two picks

  method HandleArrival(session: Session, config: Config, state: VideoQueueState, arrival: Arrival, ghost windows: map<int, BatchRow>)
    requires session.rows == session.committed && SameWindows(windows, session.committed.batches)
    modifies session, state
    ensures HasRun(session, config, RetrySteps(RetryOf(arrival)))
    ensures SameWindows(windows, session.committed.batches)
    ensures WaitingIn(session, state) == Arrived(windows, old(WaitingIn(session, state)), arrival)
    ensures Unfailed(old(session.committed).batches) ==> Unfailed(session.committed.batches)
  {
    match arrival
    case Seek(playbackTime) =>
      SameContaining(windows, session.committed.batches, playbackTime);
      state.PrioritizeBatch(session.committed.batches, playbackTime);
    case RetryRequest(index) =>
      ExecOne(config, session.committed, Retry(index));
      RetryBatch(session, config, index);
      state.PrioritizeRetry(index);
      assert RetrySteps([index]) == [Retry(index)];
  }

  function RetryOf(arrival: Arrival): seq<int> {
    if arrival.RetryRequest? then [arrival.index] else []
  }

  method HandleArrivals(session: Session, config: Config, state: VideoQueueState, arrivals: seq<Arrival>,
                        ghost windows: map<int, BatchRow>)
    requires session.rows == session.committed && SameWindows(windows, session.committed.batches)
    modifies session, state
    ensures HasRun(session, config, RetrySteps(RetriesOf(arrivals)))
    ensures SameWindows(windows, session.committed.batches)
    ensures WaitingIn(session, state) == AllArrived(windows, old(WaitingIn(session, state)), arrivals)
    ensures Unfailed(old(session.committed).batches) ==> Unfailed(session.committed.batches)
  {
    hide Exec, States, SameWindows, Unfailed, Pending, Arrived, RetrySteps, Apply;
    ghost var db, log := session.committed, session.log;
    NoRetries(config, db);
    for i := 0 to |arrivals|
      invariant session.rows == session.committed == Exec(config, db, RetrySteps(RetriesOf(arrivals[..i])))
      invariant session.log == log + States(config, db, RetrySteps(RetriesOf(arrivals[..i])))
      invariant SameWindows(windows, session.committed.batches)
      invariant WaitingIn(session, state) == AllArrived(windows, old(WaitingIn(session, state)), arrivals[..i])
      invariant Unfailed(db.batches) ==> Unfailed(session.committed.batches)
    {
      assert arrivals[..i + 1][..i] == arrivals[..i];
      RetryStepsBoth(RetriesOf(arrivals[..i]), RetryOf(arrivals[i]));
      ExecAppend(config, db, RetrySteps(RetriesOf(arrivals[..i])), RetrySteps(RetryOf(arrivals[i])));
      HandleArrival(session, config, state, arrivals[i], windows);
    }
    assert arrivals[..|arrivals|] == arrivals;
  }

  lemma RetryStepsBoth(a: seq<int>, b: seq<int>)
    ensures RetrySteps(a + b) == RetrySteps(a) + RetrySteps(b)
  {
  }

  // ---------------------------------------------------------------- one turn of the loop

  ghost function ProcessOf(pick: Option<int>, p: Providers, fault: Fault): seq<Step> {
    if pick.None? then [] else [Process(pick.value, p, fault.BeforeCommit?)]
  }

  /** What a turn commits: the retries, the progress written, and the pick processed, failed late at most. */
  ghost predicate TurnTrace(trace: Trace, retries: seq<int>, pick: Option<int>, p: Providers, fault: Fault, writes: seq<Persisted>) {
    && trace == Trace(ProcessOf(pick, p, fault), retries, writes, trace.rest)
    && (pick.None? ==> writes == [])
    && (trace.rest == [] || (pick.Some? && fault.AfterCommit? && trace.rest == [LateFailure(pick.value)]))
  }

  ghost predicate FewWrites(pick: Option<int>, writes: seq<Persisted>, windows: map<int, BatchRow>) {
    pick.Some? ==> |windows| >= 1 && |writes| <= WriteBound(|windows|)
  }

  /** Pick the next pending batch and process it; None when nothing is pending. */
  method PickAndProcess(session: Session, config: Config, state: VideoQueueState, p: Providers, fault: Fault,
                        during: seq<Arrival>, ghost windows: map<int, BatchRow>)
    returns (pick: Option<int>, ghost steps: seq<Step>, ghost writes: seq<Persisted>)
    requires session.rows == session.committed && SameWindows(windows, session.committed.batches)
    modifies session, state
    ensures HasRun(session, config, steps)
    ensures SameWindows(windows, session.committed.batches)
    ensures pick == NextPick(old(WaitingIn(session, state)))
    ensures WaitingIn(session, state) == AfterPicking(windows, old(WaitingIn(session, state)), pick, during)
    ensures TurnTrace(TraceOf(steps), OthersOf(during, pick), pick, p, fault, writes)
    ensures FewWrites(pick, writes, windows)
    ensures Flawless(config, p, fault) && Unfailed(old(session.committed).batches) ==> Unfailed(session.committed.batches)
  {
    ghost var db, waiting := session.committed, WaitingIn(session, state);
    steps, writes := [], [];
    pick := state.NextBatch(Pending(session.committed.batches));
    if pick.None? {
      NoRetries(config, db);
      return;
    }
    PickIsPending(waiting);
    ghost var reports;
    steps, writes, reports := ProcessPicked(session, config, pick.value, p, fault, RetriesOf(during));
    FewBatchWrites(windows, db, pick.value, reports);
    AfterProcess(config, windows, waiting, db, pick.value, p, fault, writes, during);
    HintArrivals(session, state, Meanwhile(during, pick.value), windows, AfterPick(waiting));
  }

  function OthersOf(during: seq<Arrival>, pick: Option<int>): seq<int> {
    if pick.None? then [] else Others(RetriesOf(during), pick.value)
  }

  function AfterPicking(windows: map<int, BatchRow>, waiting: Waiting, pick: Option<int>, during: seq<Arrival>): Waiting {
    if pick.None? then waiting else AllArrived(windows, AfterPick(waiting), Meanwhile(during, pick.value))
  }

  /** A new service session with a new progress writer processes the picked batch. */
  method ProcessPicked(session: Session, config: Config, index: int, p: Providers, fault: Fault, during: seq<int>)
    returns (ghost steps: seq<Step>, ghost writes: seq<Persisted>, ghost reports: seq<real>)
    requires session.rows == session.committed && index in Pending(session.committed.batches)
    modifies session
    ensures steps == ProcessSteps(old(session.committed), index, p, fault, config, writes, during)
    ensures HasRun(session, config, steps)
    ensures TurnTrace(TraceOf(steps), Others(during, index), Some(index), p, fault, writes)
    ensures writes == BatchWrites(old(session.committed), reports) && Rising(reports, 0.0)
    ensures ReportsMade(old(session.committed), index, p, fault, config, reports)
  {
    ghost var db := session.committed;
    var initial := ProgressFor(session.committed);
    var publisher := new BatchProgressPublisher(initial);
    var response;
    response, reports := ProcessBatch(session, config, index, p, fault, publisher, during);
    writes := BatchWrites(db, reports);
    steps := ProcessSteps(db, index, p, fault, config, writes, during);
    TraceOfBatch(db, index, p, fault, config, writes, during);
  }

  lemma FewBatchWrites(windows: map<int, BatchRow>, db: Db, index: int, reports: seq<real>)
    requires SameWindows(windows, db.batches) && index in Pending(db.batches) && Rising(reports, 0.0)
    ensures FewWrites(Some(index), BatchWrites(db, reports), windows)
  {
    WritesBounded(db, index, reports);
    SameIndexes(windows, db.batches);
    assert |windows| == |windows.Keys| == |db.batches.Keys| == |db.batches|;
  }

  /** What is known of the rows after the picked batch. */
  lemma AfterProcess(config: Config, windows: map<int, BatchRow>, waiting: Waiting, db: Db, index: int, p: Providers,
                     fault: Fault, writes: seq<Persisted>, during: seq<Arrival>)
    requires SameWindows(windows, db.batches)
    requires waiting.pending == Pending(db.batches) && NextPick(waiting) == Some(index)
    ensures var after := Exec(config, db, ProcessSteps(db, index, p, fault, config, writes, RetriesOf(during)));
            && SameWindows(windows, after.batches)
            && Pending(after.batches) == AfterPicking(windows, waiting, Some(index), during).pending
            && (Flawless(config, p, fault) && Unfailed(db.batches) ==> Unfailed(after.batches))
  {
    hide Exec, States, ProcessSteps, Unfailed, SameWindows;
    PickIsPending(waiting);
    ProcessedPending(config, windows, db, index, p, fault, writes, RetriesOf(during), AfterPick(waiting).hints);
    MeanwhileRetries(during, index);
    ArrivedPending(windows, AfterPick(waiting), Meanwhile(during, index));
    if Flawless(config, p, fault) && Unfailed(db.batches) {
      ProcessedWell(config, db, index, p, writes, RetriesOf(during));
    }
  }

  /** The hints that requests leave while a batch is being processed; their retries have been committed by then. */
  method HintArrivals(session: Session, state: VideoQueueState, arrivals: seq<Arrival>, ghost windows: map<int, BatchRow>,
                      ghost waiting: Waiting)
    requires state.hints == waiting.hints && SameWindows(windows, session.committed.batches)
    modifies state
    ensures state.hints == AllArrived(windows, waiting, arrivals).hints
  {
    hide SameWindows;
    for i := 0 to |arrivals|
      invariant state.hints == AllArrived(windows, waiting, arrivals[..i]).hints
    {
      assert arrivals[..i + 1][..i] == arrivals[..i];
      match arrivals[i]
      case Seek(playbackTime) =>
        SameContaining(windows, session.committed.batches, playbackTime);
        state.PrioritizeBatch(session.committed.batches, playbackTime);
      case RetryRequest(index) =>
        state.PrioritizeRetry(index);
    }
    assert arrivals[..|arrivals|] == arrivals;
  }

  /** From a state and a log, these steps have led to this state and this log. */
  ghost predicate Ran(config: Config, prepared: Db, log: seq<Db>, db: Db, logNow: seq<Db>, steps: seq<Step>) {
    db == Exec(config, prepared, steps) && logNow == log + States(config, prepared, steps)
  }

  lemma RanTurn(config: Config, prepared: Db, log: seq<Db>, before: Db, logThen: seq<Db>, steps: seq<Step>,
                after: Db, logNow: seq<Db>, more: seq<Step>)
    requires Ran(config, prepared, log, before, logThen, steps)
    requires after == Exec(config, before, more) && logNow == logThen + States(config, before, more)
    ensures Ran(config, prepared, log, after, logNow, steps + more)
  {
    hide Exec, States;
    ExecAppend(config, prepared, steps, more);
  }

  /** One turn: the requests that arrived, then the next batch. */
  method Turn(session: Session, config: Config, state: VideoQueueState, interval: Interval, p: Providers, fault: Fault,
              ghost windows: map<int, BatchRow>)
    returns (pick: Option<int>, ghost steps: seq<Step>, ghost writes: seq<Persisted>)
    requires session.rows == session.committed && SameWindows(windows, session.committed.batches)
    modifies session, state
    ensures HasRun(session, config, steps)
    ensures SameWindows(windows, session.committed.batches)
    ensures pick == NextPick(ReadyToPick(windows, old(WaitingIn(session, state)), interval))
    ensures WaitingIn(session, state) == AfterTurn(windows, old(WaitingIn(session, state)), interval)
    ensures TurnTrace(TraceOf(steps), TurnRetries(interval, pick), pick, p, fault, writes)
    ensures FewWrites(pick, writes, windows)
    ensures Flawless(config, p, fault) && Unfailed(old(session.committed).batches) ==> Unfailed(session.committed.batches)
  {
    ghost var db, retries, waiting := session.committed, RetriesOf(interval.before), WaitingIn(session, state);
    hide Exec, States, SameWindows, Unfailed, Flawless, Pending, NextPick, AllRequeued, AllArrived, RetriesOf, FewWrites,
      RetrySteps, TraceOf, TurnTrace, AfterPicking, AfterTurn, ReadyToPick, TurnRetries, OthersOf, WaitingIn;
    ghost var log := session.log;
    HandleArrivals(session, config, state, interval.before, windows);
    ghost var ready, logReady := session.committed, session.log;
    pick, steps, writes := PickAndProcess(session, config, state, p, fault, interval.during, windows);
    TurnIs(windows, waiting, interval, pick);
    TurnTraceWith(retries, steps, OthersOf(interval.during, pick), pick, p, fault, writes);
    RanTurn(config, db, log, ready, logReady, RetrySteps(retries), session.committed, session.log, steps);
    steps := RetrySteps(retries) + steps;
  }

  lemma TurnIs(windows: map<int, BatchRow>, waiting: Waiting, interval: Interval, pick: Option<int>)
    ensures var ready := AllArrived(windows, waiting, interval.before);
            && ReadyToPick(windows, waiting, interval) == ready
            && (pick == NextPick(ready) ==> AfterTurn(windows, waiting, interval) == AfterPicking(windows, ready, pick, interval.during))
            && TurnRetries(interval, pick) == RetriesOf(interval.before) + OthersOf(interval.during, pick)
  {
  }

  lemma TurnTraceWith(retries: seq<int>, steps: seq<Step>, others: seq<int>, pick: Option<int>, p: Providers, fault: Fault,
                      writes: seq<Persisted>)
    requires TurnTrace(TraceOf(steps), others, pick, p, fault, writes)
    ensures TurnTrace(TraceOf(RetrySteps(retries) + steps), retries + others, pick, p, fault, writes)
  {
    hide TraceOf, RetrySteps;
    TraceOfRetries(retries);
    TraceOfBoth(RetrySteps(retries), steps);
  }

  // ---------------------------------------------------------------- the whole worker

  ghost predicate NoLateFaults(faults: nat -> Fault) {
    forall i: nat :: !faults(i).AfterCommit?
  }

  ghost predicate AllFlawless(config: Config, providers: nat -> Providers, faults: nat -> Fault) {
    forall i: nat :: Flawless(config, providers(i), faults(i))
  }

  /** The batches picked, each processed with the providers and the fault of its turn. */
  ghost function ProcessesOf(picked: seq<int>, providers: nat -> Providers, faults: nat -> Fault): seq<Step> {
    seq(|picked|, i requires 0 <= i < |picked| => Process(picked[i], providers(i), faults(i).BeforeCommit?))
  }

  /** Everything committed in the turns with these picks, the progress written in each of them being known. */
  ghost predicate Accounts(trace: Trace, retries: seq<int>, providers: nat -> Providers, faults: nat -> Fault,
                           picked: seq<int>, written: seq<seq<Persisted>>)
  {
    && trace.processes == ProcessesOf(picked, providers, faults)
    && trace.retries == retries
    && |written| == |picked| && trace.writes == Flatten(written)
    && (NoLateFaults(faults) ==> trace.rest == [])
  }

  lemma AccountsPick(trace: Trace, retries: seq<int>, providers: nat -> Providers, faults: nat -> Fault, picked: seq<int>,
                     written: seq<seq<Persisted>>, turn: Trace, more: seq<int>, pick: int, writes: seq<Persisted>)
    requires Accounts(trace, retries, providers, faults, picked, written)
    requires TurnTrace(turn, more, Some(pick), providers(|picked|), faults(|picked|), writes)
    ensures Accounts(Traces.Joined(trace, turn), retries + more, providers, faults, picked + [pick], written + [writes])
  {
    FlattenSnoc(written, writes);
    assert ProcessesOf(picked + [pick], providers, faults)
        == ProcessesOf(picked, providers, faults) + [Process(pick, providers(|picked|), faults(|picked|).BeforeCommit?)];
  }

  lemma AccountsIdle(trace: Trace, arrivals: nat -> Interval, providers: nat -> Providers, faults: nat -> Fault,
                     picked: seq<int>, written: seq<seq<Persisted>>, turn: Trace, writes: seq<Persisted>)
    requires Accounts(trace, Retries(arrivals, picked), providers, faults, picked, written)
    requires TurnTrace(turn, TurnRetries(arrivals(|picked|), None), None, providers(|picked|), faults(|picked|), writes)
    ensures Accounts(Traces.Joined(trace, turn), AllRetries(arrivals, picked), providers, faults, picked, written)
  {
    hide Retries, TurnRetries, Flatten;
    assert trace.writes + [] == trace.writes && trace.processes + [] == trace.processes && trace.rest + [] == trace.rest;
  }

  ghost predicate AllFewWrites(written: seq<seq<Persisted>>, windows: map<int, BatchRow>) {
    written != [] ==> |windows| >= 1 && forall i :: 0 <= i < |written| ==> |written[i]| <= WriteBound(|windows|)
  }

  lemma MoreFewWrites(written: seq<seq<Persisted>>, pick: int, writes: seq<Persisted>, windows: map<int, BatchRow>)
    requires AllFewWrites(written, windows) && FewWrites(Some(pick), writes, windows)
    ensures AllFewWrites(written + [writes], windows)
  {
  }

  lemma SameIndexes(windows: map<int, BatchRow>, batches: map<int, BatchRow>)
    requires SameWindows(windows, batches)
    ensures batches.Keys == windows.Keys
  {
    assert forall b :: b in batches.Keys <==> b in windows.Keys;
  }

  /** These are all the picks of a worker. */
  ghost predicate Worked(windows: map<int, BatchRow>, waiting: Waiting, arrivals: nat -> Interval, picked: seq<int>) {
    ArePicks(windows, waiting, arrivals, picked) && PickAt(windows, waiting, arrivals, |picked|).None?
  }

  /** One more turn of the queue, as the worker takes it. */
  lemma TurnOfQueue(windows: map<int, BatchRow>, waiting: Waiting, arrivals: nat -> Interval, picked: seq<int>, pick: Option<int>)
    requires ArePicks(windows, waiting, arrivals, picked)
    requires pick == NextPick(ReadyToPick(windows, After(windows, waiting, arrivals, |picked|), arrivals(|picked|)))
    ensures pick.Some? ==> ArePicks(windows, waiting, arrivals, picked + [pick.value])
    ensures pick.Some? ==> Retries(arrivals, picked + [pick.value]) == Retries(arrivals, picked) + TurnRetries(arrivals(|picked|), pick)
    ensures pick.None? ==> Worked(windows, waiting, arrivals, picked)
    ensures var now, after := After(windows, waiting, arrivals, |picked|), After(windows, waiting, arrivals, |picked| + 1);
            && after == AfterTurn(windows, now, arrivals(|picked|))
            && |after.pending| + (if pick.Some? then 1 else 0)
               <= |now.pending| + RetriesBefore(arrivals, |picked| + 1) - RetriesBefore(arrivals, |picked|)
            && (pick.None? ==> after.pending == {})
  {
    var n := |picked|;
    NextTurn(windows, waiting, arrivals, n);
    hide After, AfterTurn, ReadyToPick, NextPick, PickAt;
    if pick.Some? {
      assert (picked + [pick.value])[..n] == picked;
      forall i | 0 <= i < n + 1 ensures PickAt(windows, waiting, arrivals, i) == Some((picked + [pick.value])[i]) {
        assert i < n ==> PickAt(windows, waiting, arrivals, i) == Some(picked[i]);
      }
    }
  }

  lemma NextTurn(windows: map<int, BatchRow>, waiting: Waiting, arrivals: nat -> Interval, n: nat)
    ensures var now, after := After(windows, waiting, arrivals, n), After(windows, waiting, arrivals, n + 1);
            var pick := PickAt(windows, waiting, arrivals, n);
            && pick == NextPick(ReadyToPick(windows, now, arrivals(n)))
            && after == AfterTurn(windows, now, arrivals(n))
            && |after.pending| + (if pick.Some? then 1 else 0)
               <= |now.pending| + RetriesBefore(arrivals, n + 1) - RetriesBefore(arrivals, n)
            && (pick.None? ==> after.pending == {})
  {
    hide AfterTurn, ReadyToPick, NextPick;
    NextTurnCounts(windows, waiting, arrivals, n);
  }

  /** Turn after turn until nothing is pending. */
  method WorkUntilIdle(session: Session, config: Config, state: VideoQueueState, providers: nat -> Providers,
                       faults: nat -> Fault, arrivals: nat -> Interval, ghost retries: nat)
    returns (picked: seq<int>, ghost steps: seq<Step>, ghost written: seq<seq<Persisted>>)
    requires session.rows == session.committed
    requires forall n: nat :: RetriesBefore(arrivals, n) <= retries
    modifies session, state
    ensures HasRun(session, config, steps)
    ensures Worked(old(session.committed).batches, old(WaitingIn(session, state)), arrivals, picked)
    ensures Accounts(TraceOf(steps), AllRetries(arrivals, picked), providers, faults, picked, written)
    ensures AllFewWrites(written, old(session.committed).batches)
    ensures session.committed.batches.Keys == old(session.committed).batches.Keys && Pending(session.committed.batches) == {}
    ensures AllFlawless(config, providers, faults) && Unfailed(old(session.committed).batches) ==> Unfailed(session.committed.batches)
  {
    ghost var db, log, waiting := session.committed, session.log, WaitingIn(session, state);
    hide Exec, States, SameWindows, Pending, After, AfterTurn, ReadyToPick, NextPick, PickAt, ArePicks, Accounts, TraceOf,
      Retries, TurnRetries, RetriesBefore, AllFewWrites, FewWrites, Unfailed, Flawless, TurnTrace, Ran, AllRetries, Worked;
    picked, steps, written := [], [], [];
    while true
      invariant session.rows == session.committed && Ran(config, db, log, session.committed, session.log, steps)
      invariant SameWindows(db.batches, session.committed.batches)
      invariant WaitingIn(session, state) == After(db.batches, waiting, arrivals, |picked|)
      invariant ArePicks(db.batches, waiting, arrivals, picked)
      invariant Accounts(TraceOf(steps), Retries(arrivals, picked), providers, faults, picked, written)
      invariant AllFewWrites(written, db.batches)
      invariant AllFlawless(config, providers, faults) && Unfailed(db.batches) ==> Unfailed(session.committed.batches)
      decreases |Pending(session.committed.batches)| + (retries - RetriesBefore(arrivals, |picked|))
    {
      ghost var i, before, logThen := |picked|, session.committed, session.log;
      assert RetriesBefore(arrivals, i) <= retries && RetriesBefore(arrivals, i + 1) <= retries;
      ghost var more, writes;
      var pick;
      pick, more, writes := Turn(session, config, state, arrivals(|picked|), providers(|picked|), faults(|picked|), db.batches);
      TurnOfQueue(db.batches, waiting, arrivals, picked, pick);
      RanTurn(config, db, log, before, logThen, steps, session.committed, session.log, more);
      TraceOfBoth(steps, more);
      if pick.None? {
        AccountsIdle(TraceOf(steps), arrivals, providers, faults, picked, written, TraceOf(more), writes);
        steps := steps + more;
        break;
      }
      AccountsPick(TraceOf(steps), Retries(arrivals, picked), providers, faults, picked, written, TraceOf(more),
                   TurnRetries(arrivals(i), pick), pick.value, writes);
      MoreFewWrites(written, pick.value, writes, db.batches);
      steps, picked, written := steps + more, picked + [pick.value], written + [writes];
    }
    SameIndexes(db.batches, session.committed.batches);
  }

  /** Announce completion only when the progress report says so. */
  method Announces(session: Session, config: Config, ghost db: Db, ghost steps: seq<Step>) returns (announced: bool)
    requires Inv(config, db) && session.committed == Exec(config, db, steps)
    ensures announced <==> AllCompleted(session.committed.batches)
  {
    ExecKeeps(config, db, steps);
    CompletedExactlyWhenAllBatchesAre(session.committed);
    announced := ProgressFor(session.committed).status == VideoCompleted;
  }

  /** There are batches, and none has failed. */
  ghost predicate Promising(batches: map<int, BatchRow>) {
    batches.Keys != {} && Unfailed(batches)
  }

  /**
   The worker. It always ends. Which batches it picks, and when, is what the queue makes of the prepared batches, the
   hints and what arrives, until nothing is pending. Its commits are those of the preparation and then, turn by turn, the
   retries that arrived, the progress written and the picked batch, processed with the turn's providers and fault. It
   announces completion if and only if all batches are completed, and certainly when there were batches, none had failed,
   and nothing goes wrong.
   */
  method Work(session: Session, config: Config, state: VideoQueueState, source: Source, providers: nat -> Providers,
              faults: nat -> Fault, arrivals: nat -> Interval, ghost retries: nat)
    returns (started: bool, picked: seq<int>, announced: bool,
             ghost prepared: Db, ghost work: seq<Step>, ghost written: seq<seq<Persisted>>)
    requires session.rows == session.committed && Inv(config, session.committed)
    requires forall n: nat :: RetriesBefore(arrivals, n) <= retries
    modifies session, state
    ensures HasRun(session, config, PrepareSteps(old(session.committed), source) + work)
    ensures prepared == Exec(config, old(session.committed), PrepareSteps(old(session.committed), source))
    ensures started <==> old(session.committed).subtitles != [] || source.Transcript? || source.result.Some?
    ensures !started ==> picked == [] && work == [] && !announced
    ensures started ==>
              && Worked(prepared.batches, Waiting(Pending(prepared.batches), old(state.hints)), arrivals, picked)
              && Accounts(TraceOf(work), AllRetries(arrivals, picked), providers, faults, picked, written)
              && AllFewWrites(written, prepared.batches)
              && Pending(session.committed.batches) == {} && (announced <==> AllCompleted(session.committed.batches))
    ensures started && AllFlawless(config, providers, faults) && Promising(prepared.batches) ==> announced
  {
    ghost var db, log := session.committed, session.log;
    hide Exec, States, PrepareSteps, Worked, ArePicks, PickAt, Accounts, TraceOf, AllFewWrites, Unfailed, Flawless, Retrieved,
      Pending, AllRetries;
    started := PrepareVideoContent(session, config, source);
    prepared, work, written := session.committed, [], [];
    if !started {
      assert PrepareSteps(db, source) + [] == PrepareSteps(db, source);
      return false, [], false, prepared, [], [];
    }
    ghost var logPrepared := session.log;
    picked, work, written := WorkUntilIdle(session, config, state, providers, faults, arrivals, retries);
    RanTurn(config, db, log, prepared, logPrepared, PrepareSteps(db, source), session.committed, session.log, work);
    NothingLeftToFail(session.committed.batches);
    announced := Announces(session, config, db, PrepareSteps(db, source) + work);
  }

  // ---------------------------------------------------------------- what that means

  /** With retries: at most one turn per batch pending at the start plus one per retry committed. */
  lemma WorkIsBounded(prepared: Db, hints: seq<int>, arrivals: nat -> Interval, picked: seq<int>, work: seq<Step>,
                      providers: nat -> Providers, faults: nat -> Fault, written: seq<seq<Persisted>>)
    requires Worked(prepared.batches, Waiting(Pending(prepared.batches), hints), arrivals, picked)
    requires Accounts(TraceOf(work), AllRetries(arrivals, picked), providers, faults, picked, written)
    ensures |TraceOf(work).processes| == |picked| <= |Pending(prepared.batches)| + |TraceOf(work).retries|
  {
    hide TraceOf, After, PickAt;
    PicksArePaidFor(prepared.batches, Waiting(Pending(prepared.batches), hints), arrivals, picked);
  }

  /** The lengths of the parts. */
  function Lengths<T>(parts: seq<seq<T>>): seq<nat> {
    seq(|parts|, i requires 0 <= i < |parts| => |parts[i]|)
  }

  lemma {:induction false} FlattenedSum<T>(parts: seq<seq<T>>)
    ensures |Flatten(parts)| == Sum(Lengths(parts))
  {
    if parts != [] {
      FlattenedSum(parts[1..]);
      assert Lengths(parts)[1..] == Lengths(parts[1..]);
    }
  }

  /**
   When no retry is committed: the batches processed are exactly those that were pending, each once, and the progress
   commits are at most 3N + 22 for N batches.
   */
  lemma RetryFreeWorkIsExact(prepared: Db, hints: seq<int>, arrivals: nat -> Interval, picked: seq<int>, work: seq<Step>,
                             providers: nat -> Providers, faults: nat -> Fault, written: seq<seq<Persisted>>)
    requires Worked(prepared.batches, Waiting(Pending(prepared.batches), hints), arrivals, picked)
    requires Accounts(TraceOf(work), AllRetries(arrivals, picked), providers, faults, picked, written)
    requires AllFewWrites(written, prepared.batches) && TraceOf(work).retries == []
    ensures Distinct(picked) && Elements(picked) == Pending(prepared.batches) && |picked| == |Pending(prepared.batches)|
    ensures TraceOf(work).processes == ProcessesOf(picked, providers, faults)
    ensures |TraceOf(work).writes| <= 3 * |prepared.batches| + 22
    ensures NoLateFaults(faults) ==> AllForward(work)
  {
    hide TraceOf, PickAt, ArePicks, AllRetries;
    RetryFreePicks(prepared.batches, Waiting(Pending(prepared.batches), hints), arrivals, picked);
    assert Pending(prepared.batches) <= prepared.batches.Keys;
    SubsetSize(Pending(prepared.batches), prepared.batches.Keys);
    assert |prepared.batches| == |prepared.batches.Keys|;
    FlattenedSum(written);
    if written != [] {
      WritesPerRun(Lengths(written), |prepared.batches|);
    }
    if NoLateFaults(faults) {
      ForwardTrace(work);
    }
  }

  /** When nothing arrives, the batches come in the order foretold at the start. */
  lemma QuietWorkFollowsTheOrder(prepared: Db, hints: seq<int>, arrivals: nat -> Interval, picked: seq<int>)
    requires Worked(prepared.batches, Waiting(Pending(prepared.batches), hints), arrivals, picked) && AllQuiet(arrivals)
    ensures picked == Picks(Pending(prepared.batches), hints)
  {
    var waiting := Waiting(Pending(prepared.batches), hints);
    hide After, PickAt, ArePicks;
    QuietPicks(prepared.batches, waiting, arrivals, picked);
    NothingLeft(prepared.batches, waiting, arrivals, picked);
  }

  lemma NothingLeft(windows: map<int, BatchRow>, waiting: Waiting, arrivals: nat -> Interval, picked: seq<int>)
    requires AllQuiet(arrivals) && PickAt(windows, waiting, arrivals, |picked|).None?
    ensures var now := After(windows, waiting, arrivals, |picked|);
            picked + Picks(now.pending, now.hints) == picked
  {
    hide After;
    assert arrivals(|picked|) == Interval([], []);
    assert AllArrived(windows, After(windows, waiting, arrivals, |picked|), []) == After(windows, waiting, arrivals, |picked|);
  }

  /** Preparing a video for the first time, with some text to show, gives batches that are all pending. */
  lemma FirstPreparationIsPromising(config: Config, db: Db, source: Source)
    requires Inv(config, db) && db.subtitles == []
    requires Retrieved(source).Some? && Schedule.WithText(Retrieved(source).value) != []
    ensures Promising(Exec(config, db, PrepareSteps(db, source)).batches)
  {
    var raw := Retrieved(source).value;
    var writes := WriteSteps(SourceWrites(source));
    var written := Exec(config, db, writes);
    var phased := Apply(config, written, SetPhase(PreparingBatches, 0.28));
    hide Exec, States;
    assert PrepareSteps(db, source) == (writes + [SetPhase(PreparingBatches, 0.28)]) + [StoreLines(raw)];
    WritesKeepBatches(config, db, SourceWrites(source));
    RunOne(config, db, writes, SetPhase(PreparingBatches, 0.28));
    RunOne(config, db, writes + [SetPhase(PreparingBatches, 0.28)], StoreLines(raw));
    BatchesHaveLines(config, db);
    StoredBatchesArePromising(config, phased, raw);
  }

  lemma StoredBatchesArePromising(config: Config, db: Db, raw: seq<RawSubtitle>)
    requires db.subtitles == [] && db.batches.Keys == {} && Schedule.WithText(raw) != []
    ensures Promising(StoreDb(db, raw, config).batches)
  {
    var lines := RawLinesWithBatches(raw, config.batchSeconds);
    var indexes := BatchesOfLines(lines);
    CreateMissingAdds(db.batches, indexes, config.batchSeconds);
    assert lines[0].batch in indexes;
    assert lines[0].batch in StoreDb(db, raw, config).batches;
  }

  lemma NothingLeftToFail(batches: map<int, BatchRow>)
    ensures Pending(batches) == {} && Unfailed(batches) && batches.Keys != {} ==> AllCompleted(batches)
  {
    if Pending(batches) == {} && Unfailed(batches) && batches.Keys != {} {
      assert batches != map[];
      forall b | b in batches ensures batches[b].status == BatchCompleted {
        assert b !in Pending(batches);
      }
    }
  }

  /** A worker without retries and late failures never lowers the progress it reports, from its first commit on. */
  lemma RetryFreeWorkNeverFalls(config: Config, db: Db, source: Source, work: seq<Step>, i: nat, j: nat)
    requires Inv(config, db) && AllForward(work)
    requires i <= j <= |PrepareSteps(db, source) + work|
    ensures var steps := PrepareSteps(db, source) + work;
            ProgressFor(Exec(config, db, steps[..i])).progress <= ProgressFor(Exec(config, db, steps[..j])).progress
  {
    ForwardRunNeverFalls(config, db, PrepareSteps(db, source) + work, i, j);
  }
}
