/**
 What a list of steps processes, retries and writes, in order: how operations say what they committed.

 - The trace of two lists of steps is the two traces joined.
 - Writes, retries and the steps of one batch have the traces one expects.
 - A trace without retries and late failures means that all steps go forward.
 */
module Traces {
  import opened Common
  import opened Database
  import opened Progress
  import opened Pipeline
  import opened Queue
  import opened Service

  /** The batches processed with the providers they met, the batches retried, the progress written, and all else. */
  datatype Trace = Trace(processes: seq<Step>, retries: seq<int>, writes: seq<Persisted>, rest: seq<Step>)

  const NOTHING := Trace([], [], [], [])

  function Joined(a: Trace, b: Trace): Trace {
    Trace(a.processes + b.processes, a.retries + b.retries, a.writes + b.writes, a.rest + b.rest)
  }

  function TraceOfStep(step: Step): Trace {
    match step
    case Process(_, _, _) => Trace([step], [], [], [])
    case Retry(index) => Trace([], [index], [], [])
    case SetPhase(phase, progress) => Trace([], [], [Persisted(phase, progress)], [])
    case _ => Trace([], [], [], [step])
  }

  function TraceOf(steps: seq<Step>): Trace {
    if steps == [] then NOTHING
    else Joined(TraceOf(steps[..|steps| - 1]), TraceOfStep(steps[|steps| - 1]))
  }

  lemma {:induction false} TraceOfBoth(a: seq<Step>, b: seq<Step>)
    ensures TraceOf(a + b) == Joined(TraceOf(a), TraceOf(b))
    decreases |b|
  {
    hide TraceOfStep;
    if b == [] {
      assert a + b == a;
      assert TraceOf(b) == NOTHING;
    } else {
      var n := |b| - 1;
      TraceOfBoth(a, b[..n]);
      assert (a + b)[..|a + b| - 1] == a + b[..n];
      JoinedThree(TraceOf(a), TraceOf(b[..n]), TraceOfStep(b[n]));
    }
  }

  lemma JoinedThree(a: Trace, b: Trace, c: Trace)
    ensures Joined(Joined(a, b), c) == Joined(a, Joined(b, c))
  {
  }

  lemma TraceOfOne(step: Step)
    ensures TraceOf([step]) == TraceOfStep(step)
  {
    assert [step][..0] == [];
  }

  lemma TraceOfNone()
    ensures TraceOf([]) == NOTHING
  {
  }

  lemma TraceOfSnoc(steps: seq<Step>, step: Step)
    ensures TraceOf(steps + [step]) == Joined(TraceOf(steps), TraceOfStep(step))
  {
    assert (steps + [step])[..|steps|] == steps;
  }

  lemma {:induction false} TraceOfWrites(writes: seq<Persisted>)
    ensures TraceOf(WriteSteps(writes)) == Trace([], [], writes, [])
  {
    hide TraceOf;
    if writes == [] {
      assert WriteSteps(writes) == [];
      TraceOfNone();
    } else {
      var n := |writes| - 1;
      TraceOfWrites(writes[..n]);
      TraceOfSnoc(WriteSteps(writes[..n]), SetPhase(writes[n].phase, writes[n].progress));
      assert WriteSteps(writes) == WriteSteps(writes[..n]) + [SetPhase(writes[n].phase, writes[n].progress)];
      assert writes == writes[..n] + [writes[n]];
    }
  }

  lemma {:induction false} TraceOfRetries(batches: seq<int>)
    ensures TraceOf(RetrySteps(batches)) == Trace([], batches, [], [])
  {
    hide TraceOf;
    if batches == [] {
      assert RetrySteps(batches) == [];
      TraceOfNone();
    } else {
      var n := |batches| - 1;
      TraceOfRetries(batches[..n]);
      TraceOfSnoc(RetrySteps(batches[..n]), Retry(batches[n]));
      assert RetrySteps(batches) == RetrySteps(batches[..n]) + [Retry(batches[n])];
      assert batches == batches[..n] + [batches[n]];
    }
  }

  /** Processing a batch: the process, the retries that land meanwhile, the writes, and a late failure if there is one. */
  lemma TraceOfBatch(db: Db, index: int, p: Providers, fault: Fault, config: Config, writes: seq<Persisted>, during: seq<int>)
    requires index in Pending(db.batches)
    ensures TraceOf(ProcessSteps(db, index, p, fault, config, writes, during))
         == Trace([Process(index, p, fault.BeforeCommit?)], Others(during, index), writes,
                  if fault.AfterCommit? && BatchLines(db, index, p, config).Some? then [LateFailure(index)] else [])
  {
    hide TraceOf, LateSteps, SettleSteps, BatchLines, WriteSteps, RetrySteps, Others;
    var work, process := WorkSteps(index, writes, during), Process(index, p, fault.BeforeCommit?);
    var late := LateSteps(db, index, p, fault, config);
    TraceOfWrites(writes);
    TraceOfRetries(Others(during, index));
    TraceOfBoth(WriteSteps(writes), RetrySteps(Others(during, index)));
    TraceOfLate(db, index, p, fault, config);
    TraceOfOne(process);
    TraceOfBoth([process], late);
    TraceOfBoth(work, [process] + late);
    SettleIs(db, index, p, fault, config);
  }

  lemma SettleIs(db: Db, index: int, p: Providers, fault: Fault, config: Config)
    ensures SettleSteps(db, index, p, fault, config)
         == [Process(index, p, fault.BeforeCommit?)] + LateSteps(db, index, p, fault, config)
  {
  }

  lemma TraceOfLate(db: Db, index: int, p: Providers, fault: Fault, config: Config)
    ensures LateSteps(db, index, p, fault, config)
         == if fault.AfterCommit? && BatchLines(db, index, p, config).Some? then [LateFailure(index)] else []
    ensures TraceOf(LateSteps(db, index, p, fault, config)) == Trace([], [], [], LateSteps(db, index, p, fault, config))
  {
    TraceOfOne(LateFailure(index));
  }

  /** Steps without retries and late failures only go forward. */
  lemma {:induction false} ForwardTrace(steps: seq<Step>)
    requires TraceOf(steps).retries == [] && TraceOf(steps).rest == []
    ensures AllForward(steps)
  {
    hide TraceOf;
    if steps != [] {
      var n := |steps| - 1;
      assert steps == steps[..n] + [steps[n]];
      TraceOfSnoc(steps[..n], steps[n]);
      ForwardTrace(steps[..n]);
    }
  }
}
