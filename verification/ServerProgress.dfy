/**
 The import dialog's view of a video's progress: snapshots from the server are merged as they arrive, in any order and
 with any duplicates (frontend/src/lib/importProcessing.ts).
 */
module ServerProgress {
  import opened Common
  import opened Database
  import Progress

  type Snapshot = Progress.Snapshot

  datatype View = View(videoId: string, report: Snapshot)

  function MaxNat(a: nat, b: nat): nat {
    if a >= b then a else b
  }

  predicate Terminal(report: Snapshot) {
    report.status == VideoCompleted || report.status == VideoFailed
  }

  /** The incoming report, with no counter and no progress below the current one's. */
  function WithMaxima(current: Snapshot, incoming: Snapshot): Snapshot {
    incoming.(processedBatches := MaxNat(current.processedBatches, incoming.processedBatches),
              processedSubtitles := MaxNat(current.processedSubtitles, incoming.processedSubtitles),
              totalBatches := MaxNat(current.totalBatches, incoming.totalBatches),
              totalSubtitles := MaxNat(current.totalSubtitles, incoming.totalSubtitles),
              progress := MaxReal(current.progress, incoming.progress))
  }

  function MergeServerProgress(current: Option<View>, incoming: View): View {
    if current.None? || current.value.videoId != incoming.videoId then incoming
    else if incoming.report.status == VideoCompleted
    then incoming.(report := incoming.report.(progress := 1.0, phase := PhaseCompleted))
    else if incoming.report.status == VideoFailed then incoming
    else if Terminal(current.value.report) then current.value
    else incoming.(report := WithMaxima(current.value.report, incoming.report))
  }

  /** What is shown after all the snapshots. */
  function Shown(snapshots: seq<View>): Option<View> {
    if snapshots == [] then None
    else Some(MergeServerProgress(Shown(snapshots[..|snapshots| - 1]), snapshots[|snapshots| - 1]))
  }

  /** All snapshots are of one video. */
  ghost predicate OneVideo(snapshots: seq<View>) {
    forall i, j :: 0 <= i < |snapshots| && 0 <= j < |snapshots| ==> snapshots[i].videoId == snapshots[j].videoId
  }

  /** The server's promise about a report: progress is at most 1, and a completed one has 1 and says so. */
  ghost predicate Promised(report: Snapshot) {
    && 0.0 <= report.progress <= 1.0
    && (report.status == VideoCompleted ==> report.progress == 1.0 && report.phase == PhaseCompleted)
  }

  ghost predicate AllPromised(snapshots: seq<View>) {
    forall i :: 0 <= i < |snapshots| ==> Promised(snapshots[i].report)
  }

  /** The server keeps its promise: what it reports for a consistent database satisfies it. */
  lemma ServerKeepsPromise(db: Db)
    requires Progress.HonestVideo(db)
    ensures Promised(Progress.ProgressFor(db))
  {
    Progress.CompletedExactlyWhenAllBatchesAre(db);
  }

  /** And so does everything that is sent while a batch of such a video is processed; none of it is terminal. */
  lemma BatchKeepsPromise(db: Db, reports: seq<real>)
    requires Progress.HonestVideo(db) && Progress.Rising(reports, 0.0)
    ensures forall sent :: sent in Progress.Interims(Progress.ProgressFor(db), reports) ==> Promised(sent) && !Terminal(sent)
  {
    var initial := Progress.ProgressFor(db);
    forall i | 0 <= i < |reports| && initial.totalBatches > 0
      ensures 0.0 <= Progress.Overall(initial, reports[i]) <= 1.0
    {
      QuotientOrder(0.0, initial.processedBatches as real + reports[i], initial.totalBatches as real);
    }
  }

  lemma {:induction false} ShownIsOfTheVideo(snapshots: seq<View>)
    requires OneVideo(snapshots) && snapshots != []
    ensures Shown(snapshots).value.videoId == snapshots[0].videoId
  {
    var n := |snapshots| - 1;
    assert snapshots[n].videoId == snapshots[0].videoId;
    if n > 0 {
      ShownIsOfTheVideo(snapshots[..n]);
    }
  }

  /** A snapshot of another video starts over: nothing seen before it counts any more. */
  lemma {:induction false} AnotherVideoStartsOver(snapshots: seq<View>, i: nat)
    requires 0 < i < |snapshots| && forall j :: i <= j < |snapshots| ==> snapshots[j].videoId == snapshots[i].videoId
    requires snapshots[i - 1].videoId != snapshots[i].videoId
    ensures Shown(snapshots) == Shown(snapshots[i..])
  {
    var n := |snapshots| - 1;
    LastIsShown(snapshots[..n]);
    if i == n {
      assert snapshots[i..] == [snapshots[i]] && [snapshots[i]][..0] == [];
      assert Shown(snapshots[i..]) == Some(snapshots[i]);
    } else {
      AnotherVideoStartsOver(snapshots[..n], i);
      assert snapshots[..n][i..] == snapshots[i..][..n - i] && snapshots[i..][n - i] == snapshots[n];
    }
  }

  /** What is shown is of the video of the last snapshot. */
  lemma {:induction false} LastIsShown(snapshots: seq<View>)
    requires snapshots != []
    ensures Shown(snapshots).value.videoId == snapshots[|snapshots| - 1].videoId
  {
  }

  // ---------------------------------------------------------------- terminal snapshots

  /** The last terminal snapshot. */
  function LastTerminal(snapshots: seq<View>): (last: Option<View>)
    ensures last.Some? ==> Terminal(last.value.report)
  {
    if snapshots == [] then None
    else if Terminal(snapshots[|snapshots| - 1].report) then Some(snapshots[|snapshots| - 1])
    else LastTerminal(snapshots[..|snapshots| - 1])
  }

  ghost predicate LastFrom(snapshots: seq<View>, i: nat)
    requires i < |snapshots|
  {
    Terminal(snapshots[i].report) && forall j :: i < j < |snapshots| ==> !Terminal(snapshots[j].report)
  }

  lemma {:induction false} LastTerminalSound(snapshots: seq<View>)
    ensures LastTerminal(snapshots).None? <==> forall i :: 0 <= i < |snapshots| ==> !Terminal(snapshots[i].report)
    ensures LastTerminal(snapshots).Some? ==>
              exists i :: 0 <= i < |snapshots| && snapshots[i] == LastTerminal(snapshots).value && LastFrom(snapshots, i)
  {
    if snapshots != [] {
      var n := |snapshots| - 1;
      LastTerminalSound(snapshots[..n]);
      if !Terminal(snapshots[n].report) && LastTerminal(snapshots[..n]).Some? {
        var i :| 0 <= i < n && snapshots[..n][i] == LastTerminal(snapshots[..n]).value && LastFrom(snapshots[..n], i);
        assert snapshots[i] == LastTerminal(snapshots).value && LastFrom(snapshots, i) by {
          assert forall j :: i <= j < n ==> snapshots[j] == snapshots[..n][j];
        }
      }
    }
  }

  /** Once a terminal snapshot has arrived, exactly the last one of them is shown: no later one in progress undoes it. */
  lemma {:induction false} LastTerminalIsShown(snapshots: seq<View>)
    requires OneVideo(snapshots) && AllPromised(snapshots)
    ensures LastTerminal(snapshots).Some? ==> Shown(snapshots) == LastTerminal(snapshots)
    ensures LastTerminal(snapshots).None? ==> Shown(snapshots).Some? ==> !Terminal(Shown(snapshots).value.report)
  {
    if snapshots != [] {
      var n := |snapshots| - 1;
      LastTerminalIsShown(snapshots[..n]);
      assert snapshots[n].videoId == snapshots[0].videoId && Promised(snapshots[n].report);
      assert snapshots[n].report.status == VideoCompleted ==>
        snapshots[n].(report := snapshots[n].report.(progress := 1.0, phase := PhaseCompleted)) == snapshots[n];
      if n > 0 {
        ShownIsOfTheVideo(snapshots[..n]);
      }
    }
  }

  /** With a completed snapshot and no failed one, in whatever order, the video is shown completed with progress 1. */
  lemma {:induction false} CompletedIsShown(snapshots: seq<View>, i: nat)
    requires OneVideo(snapshots) && AllPromised(snapshots)
    requires i < |snapshots| && snapshots[i].report.status == VideoCompleted
    requires forall j :: 0 <= j < |snapshots| ==> snapshots[j].report.status != VideoFailed
    ensures var report := Shown(snapshots).value.report;
            report.status == VideoCompleted && report.progress == 1.0 && report.phase == PhaseCompleted
  {
    assert Terminal(snapshots[i].report);
    LastTerminalIsShown(snapshots);
    LastTerminalSound(snapshots);
    var k :| 0 <= k < |snapshots| && snapshots[k] == LastTerminal(snapshots).value && LastFrom(snapshots, k);
    assert Promised(snapshots[k].report);
  }

  // ---------------------------------------------------------------- snapshots in progress

  datatype Counter = ProcessedBatches | ProcessedSubtitles | TotalBatches | TotalSubtitles | OverallProgress

  function CounterOf(report: Snapshot, counter: Counter): real {
    match counter
    case ProcessedBatches => report.processedBatches as real
    case ProcessedSubtitles => report.processedSubtitles as real
    case TotalBatches => report.totalBatches as real
    case TotalSubtitles => report.totalSubtitles as real
    case OverallProgress => report.progress
  }

  /** The largest value of the counter among the snapshots. */
  ghost predicate Highest(value: real, snapshots: seq<View>, counter: Counter) {
    && (exists i :: 0 <= i < |snapshots| && CounterOf(snapshots[i].report, counter) == value)
    && forall i :: 0 <= i < |snapshots| ==> CounterOf(snapshots[i].report, counter) <= value
  }

  ghost predicate ShowsMaxima(report: Snapshot, snapshots: seq<View>) {
    forall counter: Counter :: Highest(CounterOf(report, counter), snapshots, counter)
  }

  lemma HighestOfMore(value: real, snapshots: seq<View>, counter: Counter)
    requires |snapshots| >= 2 && Highest(value, snapshots[..|snapshots| - 1], counter)
    ensures Highest(MaxReal(value, CounterOf(snapshots[|snapshots| - 1].report, counter)), snapshots, counter)
  {
    var n := |snapshots| - 1;
    var i :| 0 <= i < n && CounterOf(snapshots[..n][i].report, counter) == value;
    assert snapshots[i] == snapshots[..n][i];
    assert forall k :: 0 <= k < n ==> snapshots[k] == snapshots[..n][k];
  }

  lemma MaximaOfMore(report: Snapshot, snapshots: seq<View>)
    requires |snapshots| >= 2 && ShowsMaxima(report, snapshots[..|snapshots| - 1])
    ensures ShowsMaxima(WithMaxima(report, snapshots[|snapshots| - 1].report), snapshots)
  {
    var last := snapshots[|snapshots| - 1].report;
    forall counter: Counter ensures Highest(CounterOf(WithMaxima(report, last), counter), snapshots, counter) {
      assert Highest(CounterOf(report, counter), snapshots[..|snapshots| - 1], counter);
      HighestOfMore(CounterOf(report, counter), snapshots, counter);
    }
  }

  /** With nothing but snapshots in progress, every counter shown is the maximum seen, whatever their order. */
  lemma {:induction false} InProgressShowsMaxima(snapshots: seq<View>)
    requires OneVideo(snapshots) && snapshots != []
    requires forall i :: 0 <= i < |snapshots| ==> !Terminal(snapshots[i].report)
    ensures var report, last := Shown(snapshots).value.report, snapshots[|snapshots| - 1].report;
            report.status == last.status && report.phase == last.phase
    ensures ShowsMaxima(Shown(snapshots).value.report, snapshots)
  {
    var n := |snapshots| - 1;
    if n == 0 {
      assert Shown(snapshots) == Some(snapshots[0]);
      forall counter: Counter ensures Highest(CounterOf(snapshots[0].report, counter), snapshots, counter) {
      }
    } else {
      hide ShowsMaxima;
      InProgressShowsMaxima(snapshots[..n]);
      ShownIsOfTheVideo(snapshots[..n]);
      assert snapshots[n].videoId == snapshots[0].videoId;
      MaximaOfMore(Shown(snapshots[..n]).value.report, snapshots);
    }
  }

  // ---------------------------------------------------------------- progress never falls

  /** A merge lowers the progress shown exactly when the incoming snapshot failed with less of it. */
  lemma MergeLowersProgressIff(current: View, incoming: View)
    requires current.videoId == incoming.videoId && current.report.progress <= 1.0
    ensures MergeServerProgress(Some(current), incoming).report.progress < current.report.progress
            <==> incoming.report.status == VideoFailed && incoming.report.progress < current.report.progress
  {
  }

  lemma {:induction false} ShownAtMostOne(snapshots: seq<View>)
    requires snapshots != [] && AllPromised(snapshots)
    ensures Shown(snapshots).value.report.progress <= 1.0
  {
    var n := |snapshots| - 1;
    if n > 0 {
      ShownAtMostOne(snapshots[..n]);
    }
  }

  /** Between two moments without a failed snapshot in between, the progress shown does not fall. */
  lemma {:induction false} ShownProgressNeverFalls(snapshots: seq<View>, i: nat)
    requires OneVideo(snapshots) && AllPromised(snapshots) && 1 <= i <= |snapshots|
    requires forall j :: i <= j < |snapshots| ==> snapshots[j].report.status != VideoFailed
    ensures Shown(snapshots[..i]).value.report.progress <= Shown(snapshots).value.report.progress <= 1.0
    decreases |snapshots|
  {
    ShownAtMostOne(snapshots);
    if i == |snapshots| {
      assert snapshots[..i] == snapshots;
    } else {
      var n := |snapshots| - 1;
      ShownProgressNeverFalls(snapshots[..n], i);
      assert snapshots[..n][..i] == snapshots[..i];
      ShownIsOfTheVideo(snapshots[..n]);
      assert snapshots[n].videoId == snapshots[0].videoId;
      MergeLowersProgressIff(Shown(snapshots[..n]).value, snapshots[n]);
    }
  }
}
