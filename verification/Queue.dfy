/**
 What waits in the queue of one video while its worker runs: the pending batches and the hints, and what seeks, retries
 and picks make of them (backend/app/services/subtitle_queue.py). Which batch is processed when depends on nothing else.
 */
module Queue {
  import opened Common
  import opened Database
  import opened Schedule

  datatype Arrival = Seek(playbackTime: real) | RetryRequest(index: int)

  /**
   What reaches the queue around one turn of the worker: the requests before the pick, and those that come while the
   picked batch is being processed.
   */
  datatype Interval = Interval(before: seq<Arrival>, during: seq<Arrival>)

  datatype Waiting = Waiting(pending: set<int>, hints: seq<int>)

  function Pending(batches: map<int, BatchRow>): set<int> {
    set b | b in batches && batches[b].status == BatchPending
  }

  // ---------------------------------------------------------------- arrivals and picks

  /** A retry makes an existing batch pending and, unless it is hinted, the first hint. */
  function Requeued(windows: map<int, BatchRow>, waiting: Waiting, index: int): Waiting {
    Waiting(waiting.pending + (if index in windows then {index} else {}), WithRetry(waiting.hints, index))
  }

  function AllRequeued(windows: map<int, BatchRow>, waiting: Waiting, batches: seq<int>): Waiting {
    if batches == [] then waiting
    else Requeued(windows, AllRequeued(windows, waiting, batches[..|batches| - 1]), batches[|batches| - 1])
  }

  function Arrived(windows: map<int, BatchRow>, waiting: Waiting, arrival: Arrival): Waiting {
    match arrival
    case RetryRequest(index) => Requeued(windows, waiting, index)
    case Seek(playbackTime) =>
      if Containing(windows, playbackTime) == {} then waiting
      else waiting.(hints := WithSeek(waiting.hints, Least(Containing(windows, playbackTime))))
  }

  function AllArrived(windows: map<int, BatchRow>, waiting: Waiting, arrivals: seq<Arrival>): Waiting {
    if arrivals == [] then waiting
    else Arrived(windows, AllArrived(windows, waiting, arrivals[..|arrivals| - 1]), arrivals[|arrivals| - 1])
  }

  function NextPick(waiting: Waiting): (pick: Option<int>)
    ensures pick.None? <==> waiting.pending == {}
    ensures pick.Some? ==> IsNext(waiting.pending, waiting.hints, pick.value)
  {
    if waiting.pending == {} then None
    else
      FirstOfOrderIsNext(waiting.pending, waiting.hints);
      Some(PrioritizedOrder(waiting.pending, waiting.hints)[0])
  }

  /** Picking takes the batch out and forgets every hint that was pending. */
  function AfterPick(waiting: Waiting): Waiting {
    if waiting.pending == {} then waiting
    else Waiting(waiting.pending - {NextPick(waiting).value}, NotPending(waiting.hints, waiting.pending))
  }

  /** Retries of the batch that is being processed are left out, as they meet its locked row; the others land meanwhile. */
  function Others(batches: seq<int>, index: int): (others: seq<int>)
    ensures |others| <= |batches|
  {
    if batches == [] then []
    else Others(batches[..|batches| - 1], index) + (if batches[|batches| - 1] == index then [] else [batches[|batches| - 1]])
  }

  /** What arrives while a batch is being processed, without the retries of that batch. */
  function Meanwhile(arrivals: seq<Arrival>, index: int): seq<Arrival> {
    if arrivals == [] then []
    else
      var last := arrivals[|arrivals| - 1];
      Meanwhile(arrivals[..|arrivals| - 1], index) + (if last == RetryRequest(index) then [] else [last])
  }

  ghost predicate NotAmong(index: int, batches: seq<int>) {
    forall i :: 0 <= i < |batches| ==> batches[i] != index
  }

  lemma {:induction false} OthersAreOthers(batches: seq<int>, index: int)
    ensures NotAmong(index, Others(batches, index))
  {
    if batches != [] {
      OthersAreOthers(batches[..|batches| - 1], index);
    }
  }

  function ReadyToPick(windows: map<int, BatchRow>, waiting: Waiting, interval: Interval): Waiting {
    AllArrived(windows, waiting, interval.before)
  }

  /** What waits after the turn. */
  function AfterTurn(windows: map<int, BatchRow>, waiting: Waiting, interval: Interval): Waiting {
    var ready := ReadyToPick(windows, waiting, interval);
    var pick := NextPick(ready);
    if pick.None? then ready else AllArrived(windows, AfterPick(ready), Meanwhile(interval.during, pick.value))
  }

  /** What waits after the first n turns. */
  function After(windows: map<int, BatchRow>, waiting: Waiting, arrivals: nat -> Interval, n: nat): Waiting {
    if n == 0 then waiting else AfterTurn(windows, After(windows, waiting, arrivals, n - 1), arrivals(n - 1))
  }

  /** What the n-th turn, counting from 0, picks. */
  function PickAt(windows: map<int, BatchRow>, waiting: Waiting, arrivals: nat -> Interval, n: nat): Option<int> {
    NextPick(ReadyToPick(windows, After(windows, waiting, arrivals, n), arrivals(n)))
  }

  /** These are the first picks. */
  ghost predicate ArePicks(windows: map<int, BatchRow>, waiting: Waiting, arrivals: nat -> Interval, picked: seq<int>) {
    forall i :: 0 <= i < |picked| ==> PickAt(windows, waiting, arrivals, i) == Some(picked[i])
  }

  // ---------------------------------------------------------------- retries

  function RetriesOf(arrivals: seq<Arrival>): seq<int> {
    if arrivals == [] then []
    else
      var last := arrivals[|arrivals| - 1];
      RetriesOf(arrivals[..|arrivals| - 1]) + (if last.RetryRequest? then [last.index] else [])
  }

  /** The retries that are committed in a turn with this pick. */
  function TurnRetries(interval: Interval, pick: Option<int>): seq<int> {
    RetriesOf(interval.before) + (if pick.None? then [] else Others(RetriesOf(interval.during), pick.value))
  }

  /** The retries committed in the turns with these picks. */
  function Retries(arrivals: nat -> Interval, picked: seq<int>): seq<int> {
    if picked == [] then []
    else
      var n := |picked| - 1;
      Retries(arrivals, picked[..n]) + TurnRetries(arrivals(n), Some(picked[n]))
  }

  /** The retries committed in the turns with these picks and in the last one, which finds nothing to pick. */
  function AllRetries(arrivals: nat -> Interval, picked: seq<int>): seq<int> {
    Retries(arrivals, picked) + TurnRetries(arrivals(|picked|), None)
  }

  /** An upper bound that does not depend on the picks: all retries requested around the first n turns. */
  function RetriesBefore(arrivals: nat -> Interval, n: nat): nat {
    if n == 0 then 0
    else RetriesBefore(arrivals, n - 1) + |RetriesOf(arrivals(n - 1).before)| + |RetriesOf(arrivals(n - 1).during)|
  }

  lemma RequeuedOne(windows: map<int, BatchRow>, waiting: Waiting, index: int)
    ensures waiting.pending <= Requeued(windows, waiting, index).pending
    ensures |Requeued(windows, waiting, index).pending| <= |waiting.pending| + 1
  {
    var added := if index in windows then {index} else {};
    assert |waiting.pending + added| <= |waiting.pending| + |added| by {
      assert waiting.pending + added == waiting.pending + (added - waiting.pending);
    }
  }

  lemma {:induction false} MeanwhileRetries(arrivals: seq<Arrival>, index: int)
    ensures RetriesOf(Meanwhile(arrivals, index)) == Others(RetriesOf(arrivals), index)
  {
    if arrivals != [] {
      var n := |arrivals| - 1;
      var last := arrivals[n];
      MeanwhileRetries(arrivals[..n], index);
      RetriesSnoc(Meanwhile(arrivals[..n], index), last);
      assert arrivals == arrivals[..n] + [last];
      RetriesSnoc(arrivals[..n], last);
      if last.RetryRequest? {
        OthersSnoc(RetriesOf(arrivals[..n]), last.index, index);
        if last.index == index {
          assert last == RetryRequest(index);
          assert Meanwhile(arrivals, index) == Meanwhile(arrivals[..n], index);
        }
      }
    }
  }

  lemma RetriesSnoc(arrivals: seq<Arrival>, last: Arrival)
    ensures RetriesOf(arrivals + [last]) == if last.RetryRequest? then RetriesOf(arrivals) + [last.index] else RetriesOf(arrivals)
  {
    assert (arrivals + [last])[..|arrivals|] == arrivals;
  }

  lemma OthersSnoc(batches: seq<int>, last: int, index: int)
    ensures Others(batches + [last], index) == if last == index then Others(batches, index) else Others(batches, index) + [last]
  {
    assert (batches + [last])[..|batches|] == batches;
  }

  lemma {:induction false} OthersSelect(batches: seq<int>, index: int)
    ensures Selects(Others(batches, index), batches, (batch: int) => batch != index)
  {
    hide Selects;
    if batches == [] {
      SelectsNone((batch: int) => batch != index);
    } else {
      var n := |batches| - 1;
      OthersSelect(batches[..n], index);
      SelectsSnoc(Others(batches[..n], index), batches[..n], batches[n], (batch: int) => batch != index);
      assert batches == batches[..n] + [batches[n]] && Others(batches[..n], index) + [] == Others(batches[..n], index);
    }
  }

  lemma {:induction false} MeanwhileSelects(arrivals: seq<Arrival>, index: int)
    ensures Selects(Meanwhile(arrivals, index), arrivals, (arrival: Arrival) => arrival != RetryRequest(index))
  {
    hide Selects;
    if arrivals == [] {
      SelectsNone((arrival: Arrival) => arrival != RetryRequest(index));
    } else {
      var n := |arrivals| - 1;
      MeanwhileSelects(arrivals[..n], index);
      SelectsSnoc(Meanwhile(arrivals[..n], index), arrivals[..n], arrivals[n], (arrival: Arrival) => arrival != RetryRequest(index));
      assert arrivals == arrivals[..n] + [arrivals[n]] && Meanwhile(arrivals[..n], index) + [] == Meanwhile(arrivals[..n], index);
    }
  }

  /** The batches asked for in these retries. */
  ghost predicate AskedFor(batches: seq<int>, arrivals: seq<Arrival>, at: seq<nat>) {
    |batches| == |at| && forall i :: 0 <= i < |at| ==> at[i] < |arrivals| && arrivals[at[i]] == RetryRequest(batches[i])
  }

  lemma {:induction false} RetriesAskedFor(arrivals: seq<Arrival>) returns (at: seq<nat>)
    ensures Positions(at, arrivals, (arrival: Arrival) => arrival.RetryRequest?) && AskedFor(RetriesOf(arrivals), arrivals, at)
  {
    if arrivals == [] {
      at := [];
    } else {
      hide Positions, AskedFor, RetriesOf;
      var n := |arrivals| - 1;
      var earlier, last := arrivals[..n], arrivals[n];
      var before := RetriesAskedFor(earlier);
      PositionsSnoc(before, earlier, last, (arrival: Arrival) => arrival.RetryRequest?);
      AskedForMore(RetriesOf(earlier), earlier, before, last);
      RetriesSnoc(earlier, last);
      assert arrivals == earlier + [last];
      at := if last.RetryRequest? then before + [|earlier|] else before;
    }
  }

  lemma AskedForMore(batches: seq<int>, arrivals: seq<Arrival>, at: seq<nat>, last: Arrival)
    requires AskedFor(batches, arrivals, at)
    ensures AskedFor(batches, arrivals + [last], at)
    ensures last.RetryRequest? ==> AskedFor(batches + [last.index], arrivals + [last], at + [|arrivals|])
  {
  }

  /**
   What arrives while a batch is being processed: everything but the retries of that batch counts, in the order in which it
   came; and the retries among it are those of other batches.
   */
  lemma WhatLandsMeanwhile(arrivals: seq<Arrival>, index: int)
    ensures Selects(Meanwhile(arrivals, index), arrivals, (arrival: Arrival) => arrival != RetryRequest(index))
    ensures exists at :: Positions(at, arrivals, (arrival: Arrival) => arrival.RetryRequest?) && AskedFor(RetriesOf(arrivals), arrivals, at)
    ensures Selects(Others(RetriesOf(arrivals), index), RetriesOf(arrivals), (batch: int) => batch != index)
  {
    MeanwhileSelects(arrivals, index);
    OthersSelect(RetriesOf(arrivals), index);
    var at := RetriesAskedFor(arrivals);
  }

  /** Seeks change no status: what is pending depends on the retries alone. */
  lemma {:induction false} ArrivedPending(windows: map<int, BatchRow>, waiting: Waiting, arrivals: seq<Arrival>)
    ensures AllArrived(windows, waiting, arrivals).pending == AllRequeued(windows, waiting, RetriesOf(arrivals)).pending
  {
    if arrivals != [] {
      var n := |arrivals| - 1;
      ArrivedPending(windows, waiting, arrivals[..n]);
      var retries := RetriesOf(arrivals[..n]);
      assert retries + [] == retries;
      if arrivals[n].RetryRequest? {
        assert (retries + [arrivals[n].index])[..|retries|] == retries;
      }
    }
  }

  lemma {:induction false} ArrivedGrows(windows: map<int, BatchRow>, waiting: Waiting, arrivals: seq<Arrival>)
    ensures |AllArrived(windows, waiting, arrivals).pending| <= |waiting.pending| + |RetriesOf(arrivals)|
    ensures RetriesOf(arrivals) == [] ==> AllArrived(windows, waiting, arrivals).pending == waiting.pending
  {
    if arrivals != [] {
      var n := |arrivals| - 1;
      ArrivedGrows(windows, waiting, arrivals[..n]);
      if arrivals[n].RetryRequest? {
        RequeuedOne(windows, AllArrived(windows, waiting, arrivals[..n]), arrivals[n].index);
      }
    }
  }

  /** A turn takes its pick out of what is pending; only its retries can have put something in. */
  lemma TurnCounts(windows: map<int, BatchRow>, waiting: Waiting, interval: Interval)
    ensures var pick := NextPick(ReadyToPick(windows, waiting, interval));
            var after := AfterTurn(windows, waiting, interval);
            && |after.pending| + (if pick.Some? then 1 else 0) <= |waiting.pending| + |TurnRetries(interval, pick)|
            && (pick.None? ==> after.pending == {})
            && (TurnRetries(interval, pick) == [] ==>
                  && (pick.None? ==> waiting.pending == {})
                  && (pick.Some? ==> pick.value in waiting.pending && after.pending == waiting.pending - {pick.value}))
  {
    hide PrioritizedOrder, IsNext;
    var ready := ReadyToPick(windows, waiting, interval);
    var pick := NextPick(ready);
    ArrivedGrows(windows, waiting, interval.before);
    if pick.Some? {
      PickIsPending(ready);
      assert |AfterPick(ready).pending| == |ready.pending| - 1;
      MeanwhileRetries(interval.during, pick.value);
      ArrivedGrows(windows, AfterPick(ready), Meanwhile(interval.during, pick.value));
    }
  }

  lemma PickIsPending(waiting: Waiting)
    ensures NextPick(waiting).Some? ==> NextPick(waiting).value in waiting.pending
  {
  }

  /** Every pick is paid for by a batch pending at the start or by a retry. */
  lemma {:induction false} PicksArePaidFor(windows: map<int, BatchRow>, waiting: Waiting, arrivals: nat -> Interval, picked: seq<int>)
    requires ArePicks(windows, waiting, arrivals, picked)
    ensures |picked| + |After(windows, waiting, arrivals, |picked|).pending| <= |waiting.pending| + |Retries(arrivals, picked)|
  {
    if picked != [] {
      hide After, PickAt, TurnRetries;
      var n := |picked| - 1;
      FewerPicks(windows, waiting, arrivals, picked);
      PicksArePaidFor(windows, waiting, arrivals, picked[..n]);
      assert PickAt(windows, waiting, arrivals, n) == Some(picked[n]);
      NextTurnCounts(windows, waiting, arrivals, n);
    } else {
      AfterNone(windows, waiting, arrivals);
    }
  }

  lemma AfterNone(windows: map<int, BatchRow>, waiting: Waiting, arrivals: nat -> Interval)
    ensures After(windows, waiting, arrivals, 0) == waiting
  {
  }

  lemma NextTurnCounts(windows: map<int, BatchRow>, waiting: Waiting, arrivals: nat -> Interval, n: nat)
    ensures var now, after := After(windows, waiting, arrivals, n).pending, After(windows, waiting, arrivals, n + 1).pending;
            var pick := PickAt(windows, waiting, arrivals, n);
            && |after| + (if pick.Some? then 1 else 0) <= |now| + |TurnRetries(arrivals(n), pick)|
            && (pick.None? ==> after == {})
            && (TurnRetries(arrivals(n), pick) == [] ==>
                  && (pick.None? ==> now == {})
                  && (pick.Some? ==> pick.value in now && after == now - {pick.value}))
  {
    hide AfterTurn, ReadyToPick, NextPick, TurnRetries;
    TurnCounts(windows, After(windows, waiting, arrivals, n), arrivals(n));
  }

  lemma FewerPicks(windows: map<int, BatchRow>, waiting: Waiting, arrivals: nat -> Interval, picked: seq<int>)
    requires picked != [] && ArePicks(windows, waiting, arrivals, picked)
    ensures ArePicks(windows, waiting, arrivals, picked[..|picked| - 1])
  {
  }

  /** The picks are distinct and, together with what is still pending, make up what was pending. */
  ghost predicate PickedOnce(before: set<int>, now: set<int>, picked: seq<int>) {
    && Distinct(picked)
    && (forall b :: b in before <==> b in now || b in picked)
    && (forall b :: b in picked ==> b !in now)
  }

  lemma PickedOnceNext(before: set<int>, now: set<int>, picked: seq<int>, pick: int)
    requires PickedOnce(before, now, picked) && pick in now
    ensures PickedOnce(before, now - {pick}, picked + [pick])
  {
    assert forall i :: 0 <= i < |picked| ==> picked[i] in picked;
  }

  lemma {:induction false} PicksWithoutRetries(windows: map<int, BatchRow>, waiting: Waiting, arrivals: nat -> Interval, picked: seq<int>)
    requires ArePicks(windows, waiting, arrivals, picked) && Retries(arrivals, picked) == []
    ensures PickedOnce(waiting.pending, After(windows, waiting, arrivals, |picked|).pending, picked)
  {
    hide After, PickAt, ArePicks, Retries, TurnRetries, PickedOnce;
    if picked == [] {
      AfterNone(windows, waiting, arrivals);
      NothingPicked(waiting.pending);
    } else {
      var n := |picked| - 1;
      LastPick(windows, waiting, arrivals, picked);
      PicksWithoutRetries(windows, waiting, arrivals, picked[..n]);
      PickedOnceNext(waiting.pending, After(windows, waiting, arrivals, n).pending, picked[..n], picked[n]);
      assert picked == picked[..n] + [picked[n]];
    }
  }

  lemma NothingPicked(pending: set<int>)
    ensures PickedOnce(pending, pending, [])
  {
  }

  lemma LastPick(windows: map<int, BatchRow>, waiting: Waiting, arrivals: nat -> Interval, picked: seq<int>)
    requires picked != [] && ArePicks(windows, waiting, arrivals, picked) && Retries(arrivals, picked) == []
    ensures var n := |picked| - 1;
            var now, after := After(windows, waiting, arrivals, n).pending, After(windows, waiting, arrivals, n + 1).pending;
            && ArePicks(windows, waiting, arrivals, picked[..n]) && Retries(arrivals, picked[..n]) == []
            && picked[n] in now && after == now - {picked[n]}
  {
    var n := |picked| - 1;
    FewerPicks(windows, waiting, arrivals, picked);
    assert PickAt(windows, waiting, arrivals, n) == Some(picked[n]);
    hide After, PickAt, TurnRetries;
    NextTurnCounts(windows, waiting, arrivals, n);
  }

  /** When no retry is committed, the picks are exactly what was pending, each once. */
  lemma RetryFreePicks(windows: map<int, BatchRow>, waiting: Waiting, arrivals: nat -> Interval, picked: seq<int>)
    requires ArePicks(windows, waiting, arrivals, picked) && PickAt(windows, waiting, arrivals, |picked|).None?
    requires AllRetries(arrivals, picked) == []
    ensures Distinct(picked) && Elements(picked) == waiting.pending && |picked| == |waiting.pending|
  {
    hide After, PickAt, Retries, TurnRetries;
    PicksWithoutRetries(windows, waiting, arrivals, picked);
    NextTurnCounts(windows, waiting, arrivals, |picked|);
    DistinctCount(picked);
    assert forall b :: b in Elements(picked) <==> b in waiting.pending;
  }

  // ---------------------------------------------------------------- seeks

  /** The pending hints, in the order in which they are honoured. */
  function Honoured(waiting: Waiting): seq<int> {
    PendingHints(waiting.pending, waiting.hints, [])
  }

  /**
   A seek into a pending batch that only seeks follow before the next pick: the batch is picked if and only if no other
   batch was hinted and pending before it.
   */
  lemma SeekIsTheNextPickIff(windows: map<int, BatchRow>, seconds: Positive, waiting: Waiting, earlier: seq<Arrival>,
                             playbackTime: real, later: seq<Arrival>)
    requires Windowed(windows, seconds)
    requires BatchIndexOf(playbackTime, seconds) in windows
    requires BatchIndexOf(playbackTime, seconds) in AllArrived(windows, waiting, earlier).pending
    requires RetriesOf(later) == []
    ensures var target, older := BatchIndexOf(playbackTime, seconds), Honoured(AllArrived(windows, waiting, earlier));
            NextPick(AllArrived(windows, waiting, earlier + [Seek(playbackTime)] + later)) == Some(target)
            <==> older == [] || older[0] == target
  {
    var target, ready := BatchIndexOf(playbackTime, seconds), AllArrived(windows, waiting, earlier);
    SeekArrives(windows, seconds, waiting, earlier, playbackTime);
    SeekKeepsOlderHints(ready.pending, ready.hints, target);
    hide AllArrived, PrioritizedOrder;
    LaterSeeksKeepPick(windows, waiting, earlier + [Seek(playbackTime)], later);
  }

  /** Seeks that come after a pending hint do not change the pick. */
  lemma {:induction false} LaterSeeksKeepPick(windows: map<int, BatchRow>, waiting: Waiting, earlier: seq<Arrival>, later: seq<Arrival>)
    requires Honoured(AllArrived(windows, waiting, earlier)) != [] && RetriesOf(later) == []
    ensures var ready, after := AllArrived(windows, waiting, earlier), AllArrived(windows, waiting, earlier + later);
            && after.pending == ready.pending && Honoured(ready) <= Honoured(after)
            && NextPick(after) == NextPick(ready)
  {
    hide PrioritizedOrder, Arrived, NextPick;
    if later == [] {
      assert earlier + later == earlier;
    } else {
      var n := |later| - 1;
      LaterSeeksKeepPick(windows, waiting, earlier, later[..n]);
      assert (earlier + later)[..|earlier + later| - 1] == earlier + later[..n];
      LaterSeek(windows, AllArrived(windows, waiting, earlier + later[..n]), later[n].playbackTime);
    }
  }

  lemma LaterSeek(windows: map<int, BatchRow>, waiting: Waiting, playbackTime: real)
    requires Honoured(waiting) != []
    ensures var after := Arrived(windows, waiting, Seek(playbackTime));
            && after.pending == waiting.pending && Honoured(waiting) <= Honoured(after)
            && NextPick(after) == NextPick(waiting)
  {
    hide SortedSet;
    var pending, hints := waiting.pending, waiting.hints;
    if Containing(windows, playbackTime) != {} {
      var target := Least(Containing(windows, playbackTime));
      WithSeekAppends(hints, target);
      var more := WithSeek(hints, target)[|hints|..];
      assert hints + more == WithSeek(hints, target);
      PendingHintsAppend(pending, hints, more, []);
      PendingHintsFound(pending, hints, []);
      PendingHintsFound(pending, more, PendingHints(pending, hints, []));
    }
  }

  lemma SeekArrives(windows: map<int, BatchRow>, seconds: Positive, waiting: Waiting, earlier: seq<Arrival>, playbackTime: real)
    requires Windowed(windows, seconds) && BatchIndexOf(playbackTime, seconds) in windows
    ensures var ready := AllArrived(windows, waiting, earlier);
            AllArrived(windows, waiting, earlier + [Seek(playbackTime)])
            == ready.(hints := WithSeek(ready.hints, BatchIndexOf(playbackTime, seconds)))
  {
    var target := BatchIndexOf(playbackTime, seconds);
    PlaybackBatchIsFloor(windows, seconds, playbackTime);
    assert (earlier + [Seek(playbackTime)])[..|earlier|] == earlier;
    assert target in Containing(windows, playbackTime);
    assert Least({target}) in {target};
  }

  lemma SeekKeepsOlderHints(pending: set<int>, hints: seq<int>, target: int)
    requires target in pending
    ensures var older := PendingHints(pending, hints, []);
            && PendingHints(pending, WithSeek(hints, target), []) != []
            && PrioritizedOrder(pending, WithSeek(hints, target))[0] == if older == [] then target else older[0]
  {
    var older := PendingHints(pending, hints, []);
    WithSeekAppends(hints, target);
    var more := WithSeek(hints, target)[|hints|..];
    assert hints + more == WithSeek(hints, target);
    PendingHintsAppend(pending, hints, more, []);
    PendingHintsFound(pending, hints, []);
    PendingHintsFound(pending, more, older);
    if older == [] {
      NoneOlder(pending, hints);
      assert target !in hints;
      assert (hints + [target])[|hints|] == more[0] == target;
      assert PendingHints(pending, more, []) == PendingHints(pending, more[1..], [target]) by {
        assert [] + [target] == [target];
      }
      PendingHintsFound(pending, more[1..], [target]);
    }
  }

  ghost predicate FirstHonoured(waiting: Waiting, index: int) {
    Honoured(waiting) != [] && Honoured(waiting)[0] == index
  }

  /**
   A retry of an existing batch that only seeks follow before the next pick: the batch is picked if and only if it was not
   hinted yet, or is the first of the hints that are pending now.
   */
  lemma RetryIsTheNextPickIff(windows: map<int, BatchRow>, waiting: Waiting, earlier: seq<Arrival>, index: int, later: seq<Arrival>)
    requires index in windows && RetriesOf(later) == []
    ensures var ready := AllArrived(windows, waiting, earlier);
            NextPick(AllArrived(windows, waiting, earlier + [RetryRequest(index)] + later)) == Some(index) <==>
            index !in ready.hints || FirstHonoured(ready.(pending := ready.pending + {index}), index)
  {
    hide PrioritizedOrder, AllArrived, PendingHints, Requeued, NextPick, WithRetry, Honoured, IsNext, RetriesOf, FirstHonoured;
    RetryArrives(windows, waiting, earlier, index);
    RetryIsFirst(windows, AllArrived(windows, waiting, earlier), index);
    LaterSeeksKeepPick(windows, waiting, earlier + [RetryRequest(index)], later);
  }

  lemma RetryArrives(windows: map<int, BatchRow>, waiting: Waiting, earlier: seq<Arrival>, index: int)
    ensures AllArrived(windows, waiting, earlier + [RetryRequest(index)])
         == Requeued(windows, AllArrived(windows, waiting, earlier), index)
  {
    assert (earlier + [RetryRequest(index)])[..|earlier|] == earlier;
  }

  lemma RetryIsFirst(windows: map<int, BatchRow>, ready: Waiting, index: int)
    requires index in windows
    ensures var requeued := Requeued(windows, ready, index);
            && Honoured(requeued) != []
            && (NextPick(requeued) == Some(index) <==>
                  index !in ready.hints || FirstHonoured(ready.(pending := ready.pending + {index}), index))
  {
    hide PrioritizedOrder, PendingHints, WithRetry;
    RetryComesFirst(ready.pending + {index}, ready.hints, index);
  }

  lemma RetryComesFirst(pending: set<int>, hints: seq<int>, index: int)
    requires index in pending
    ensures var honoured := PendingHints(pending, WithRetry(hints, index), []);
            honoured != [] && PrioritizedOrder(pending, WithRetry(hints, index))[0] == honoured[0]
    ensures index !in hints ==> PendingHints(pending, WithRetry(hints, index), [])[0] == index
    ensures index in hints ==> WithRetry(hints, index) == hints
  {
    FirstPendingHint(pending, WithRetry(hints, index));
    if index !in hints {
      PendingHintsStep(pending, index, hints, []);
      assert [] + [index] == [index];
      PendingHintsFound(pending, hints, [index]);
    }
  }

  lemma NoneOlder(pending: set<int>, hints: seq<int>)
    requires PendingHints(pending, hints, []) == []
    ensures forall h :: h in hints ==> h !in pending
  {
    FirstPendingHint(pending, hints);
  }

  lemma WithSeekAppends(hints: seq<int>, target: int)
    ensures hints <= WithSeek(hints, target)
    ensures target !in hints ==> hints + [target] <= WithSeek(hints, target)
  {
  }

  /** What waits right after the pick before the i-th one, or at the start. */
  function LeftWaiting(windows: map<int, BatchRow>, waiting: Waiting, arrivals: nat -> Interval, i: nat): Waiting {
    if i == 0 then waiting
    else AfterPick(ReadyToPick(windows, After(windows, waiting, arrivals, i - 1), arrivals(i - 1)))
  }

  /** All that arrives between these two picks: while the batch picked before is being processed, and afterwards. */
  function Between(arrivals: nat -> Interval, picked: seq<int>, i: nat): seq<Arrival>
    requires i <= |picked|
  {
    (if i == 0 then [] else Meanwhile(arrivals(i - 1).during, picked[i - 1])) + arrivals(i).before
  }

  lemma {:induction false} AllArrivedBoth(windows: map<int, BatchRow>, waiting: Waiting, a: seq<Arrival>, b: seq<Arrival>)
    ensures AllArrived(windows, waiting, a + b) == AllArrived(windows, AllArrived(windows, waiting, a), b)
    decreases |b|
  {
    hide Arrived;
    if b == [] {
      assert a + b == a;
    } else {
      var n := |b| - 1;
      AllArrivedBoth(windows, waiting, a, b[..n]);
      assert (a + b)[..|a + b| - 1] == a + b[..n];
    }
  }

  lemma ReadyAfterBetween(windows: map<int, BatchRow>, waiting: Waiting, arrivals: nat -> Interval, picked: seq<int>, i: nat)
    requires ArePicks(windows, waiting, arrivals, picked) && i <= |picked|
    ensures ReadyToPick(windows, After(windows, waiting, arrivals, i), arrivals(i))
         == AllArrived(windows, LeftWaiting(windows, waiting, arrivals, i), Between(arrivals, picked, i))
  {
    hide AllArrived, Meanwhile, AfterPick, NextPick;
    if i == 0 {
      assert [] + arrivals(i).before == arrivals(i).before;
    } else {
      assert PickAt(windows, waiting, arrivals, i - 1) == Some(picked[i - 1]);
      AllArrivedBoth(windows, LeftWaiting(windows, waiting, arrivals, i), Meanwhile(arrivals(i - 1).during, picked[i - 1]),
                     arrivals(i).before);
    }
  }

  /**
   End to end: the pick after a seek into a pending batch, which may arrive while another batch is being processed, is the
   batch at the playback time if and only if no other batch was hinted and pending before it.
   */
  lemma SeekIsServedIff(windows: map<int, BatchRow>, seconds: Positive, waiting: Waiting, arrivals: nat -> Interval, picked: seq<int>,
                        i: nat, earlier: seq<Arrival>, playbackTime: real, later: seq<Arrival>)
    requires ArePicks(windows, waiting, arrivals, picked) && i < |picked|
    requires Windowed(windows, seconds) && BatchIndexOf(playbackTime, seconds) in windows
    requires Between(arrivals, picked, i) == earlier + [Seek(playbackTime)] + later && RetriesOf(later) == []
    requires BatchIndexOf(playbackTime, seconds) in AllArrived(windows, LeftWaiting(windows, waiting, arrivals, i), earlier).pending
    ensures var older := Honoured(AllArrived(windows, LeftWaiting(windows, waiting, arrivals, i), earlier));
            picked[i] == BatchIndexOf(playbackTime, seconds) <==> older == [] || older[0] == BatchIndexOf(playbackTime, seconds)
  {
    hide AllArrived, LeftWaiting, Between, NextPick, Honoured, After, RetriesOf;
    ReadyAfterBetween(windows, waiting, arrivals, picked, i);
    SeekIsTheNextPickIff(windows, seconds, LeftWaiting(windows, waiting, arrivals, i), earlier, playbackTime, later);
    assert PickAt(windows, waiting, arrivals, i) == Some(picked[i]);
  }

  // ---------------------------------------------------------------- quiet runs

  ghost predicate AllQuiet(arrivals: nat -> Interval) {
    forall i: nat :: arrivals(i) == Interval([], [])
  }

  /** When nothing arrives, the picks are those foretold by the order. */
  lemma {:induction false} QuietPicks(windows: map<int, BatchRow>, waiting: Waiting, arrivals: nat -> Interval, picked: seq<int>)
    requires AllQuiet(arrivals) && ArePicks(windows, waiting, arrivals, picked)
    ensures var now := After(windows, waiting, arrivals, |picked|);
            Picks(waiting.pending, waiting.hints) == picked + Picks(now.pending, now.hints)
  {
    hide Picks, After, AllQuiet, PickAt;
    if picked == [] {
      AfterNone(windows, waiting, arrivals);
      assert [] + Picks(waiting.pending, waiting.hints) == Picks(waiting.pending, waiting.hints);
    } else {
      var n := |picked| - 1;
      FewerPicks(windows, waiting, arrivals, picked);
      QuietPicks(windows, waiting, arrivals, picked[..n]);
      NextQuietPick(windows, waiting, arrivals, n);
      assert PickAt(windows, waiting, arrivals, n) == Some(picked[n]);
      var after := After(windows, waiting, arrivals, n + 1);
      OneMore(picked, Picks(after.pending, after.hints));
    }
  }

  lemma OneMore(picked: seq<int>, rest: seq<int>)
    requires picked != []
    ensures picked[..|picked| - 1] + ([picked[|picked| - 1]] + rest) == picked + rest
  {
  }

  lemma NextQuietPick(windows: map<int, BatchRow>, waiting: Waiting, arrivals: nat -> Interval, n: nat)
    requires AllQuiet(arrivals) && PickAt(windows, waiting, arrivals, n).Some?
    ensures var now, after := After(windows, waiting, arrivals, n), After(windows, waiting, arrivals, n + 1);
            Picks(now.pending, now.hints) == [PickAt(windows, waiting, arrivals, n).value] + Picks(after.pending, after.hints)
  {
    hide Picks, ReadyToPick, NextPick, AfterTurn;
    assert arrivals(n) == Interval([], []);
    QuietPick(windows, After(windows, waiting, arrivals, n), PickAt(windows, waiting, arrivals, n).value);
  }

  lemma QuietPick(windows: map<int, BatchRow>, waiting: Waiting, pick: int)
    requires NextPick(ReadyToPick(windows, waiting, Interval([], []))) == Some(pick)
    ensures var after := AfterTurn(windows, waiting, Interval([], []));
            Picks(waiting.pending, waiting.hints) == [pick] + Picks(after.pending, after.hints)
  {
  }
}
