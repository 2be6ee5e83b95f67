/**
 Which batch a subtitle belongs to, and which batch is processed next: time windows, seek and retry hints
 (backend/app/services/subtitle_service.py, backend/app/services/subtitle_queue.py).
 */
module Schedule {
  import opened Common
  import opened Database

  datatype RawSubtitle = RawSubtitle(start: real, end: real, text: string)

  // ---------------------------------------------------------------- sorted sets

  ghost predicate IsLeast(s: set<int>, m: int) {
    m in s && forall x :: x in s ==> m <= x
  }

  lemma LeastOfMore(s: set<int>, y: int, m: int)
    requires y in s && IsLeast(s - {y}, m)
    ensures IsLeast(s, if y < m then y else m)
  {
    assert forall x :: x in s ==> x == y || x in s - {y};
  }

  lemma {:induction false} HasLeast(s: set<int>)
    requires s != {}
    ensures exists m :: IsLeast(s, m)
  {
    var y := AnyElement(s);
    if s - {y} == {} {
      assert s == {y};
      assert IsLeast(s, y);
    } else {
      HasLeast(s - {y});
      var m :| IsLeast(s - {y}, m);
      LeastOfMore(s, y, m);
    }
  }

  function Least(s: set<int>): (m: int)
    requires s != {}
    ensures IsLeast(s, m)
  {
    HasLeast(s);
    var m :| m in s && forall x :: x in s ==> m <= x;
    m
  }

  ghost predicate Ascending(xs: seq<int>) {
    forall i, j :: 0 <= i < j < |xs| ==> xs[i] < xs[j]
  }

  /** sorted(s) */
  function SortedSet(s: set<int>): (xs: seq<int>)
    ensures Ascending(xs) && |xs| == |s|
    ensures forall x :: x in xs <==> x in s
  {
    if s == {} then [] else
      var m := Least(s);
      var rest := SortedSet(s - {m});
      assert forall i :: 0 <= i < |rest| ==> rest[i] in rest;
      [m] + rest
  }

  /** The members of the set in ascending order. */
  ghost predicate Lists(xs: seq<int>, s: set<int>) {
    Ascending(xs) && |xs| == |s| && forall x :: x in s <==> x in xs
  }

  lemma FirstIsLeast(xs: seq<int>, s: set<int>)
    requires Lists(xs, s) && s != {}
    ensures xs != [] && xs[0] == Least(s)
  {
    var m := Least(s);
    assert m in xs && xs[0] in s;
    var k :| 0 <= k < |xs| && xs[k] == m;
  }

  lemma RestIsRest(xs: seq<int>, s: set<int>)
    requires Lists(xs, s) && xs != []
    ensures xs[0] in s && Lists(xs[1..], s - {xs[0]})
  {
    var first := xs[0];
    assert first in xs && forall x :: x in xs[1..] ==> x in xs;
    forall x | x in s - {xs[0]} ensures x in xs[1..] {
      var k :| 0 <= k < |xs| && xs[k] == x;
      assert xs[1..][k - 1] == x;
    }
  }

  lemma ListOfNone(xs: seq<int>)
    requires Lists(xs, {})
    ensures xs == SortedSet({})
  {
  }

  lemma LeastFirst(s: set<int>)
    requires s != {}
    ensures SortedSet(s) == [Least(s)] + SortedSet(s - {Least(s)})
  {
  }

  lemma {:induction false} SortedSetUnique(xs: seq<int>, s: set<int>)
    requires Lists(xs, s)
    ensures xs == SortedSet(s)
  {
    hide Lists, SortedSet, Ascending;
    if s == {} {
      ListOfNone(xs);
    } else {
      FirstIsLeast(xs, s);
      RestIsRest(xs, s);
      SortedSetUnique(xs[1..], s - {Least(s)});
      LeastFirst(s);
      assert xs == [xs[0]] + xs[1..];
    }
  }

  // ---------------------------------------------------------------- time windows

  function BatchIndexOf(start: real, seconds: Positive): int {
    FloorQuotient(start, seconds)
  }

  function WithText(raw: seq<RawSubtitle>): seq<RawSubtitle> {
    if raw == [] then []
    else (if raw[0].text != "" then [raw[0]] else []) + WithText(raw[1..])
  }

  lemma {:induction false} WithTextSelects(raw: seq<RawSubtitle>)
    ensures Selects(WithText(raw), raw, (line: RawSubtitle) => line.text != "")
  {
    hide Selects;
    if raw == [] {
      SelectsNone((line: RawSubtitle) => line.text != "");
    } else {
      WithTextSelects(raw[1..]);
      SelectsCons(WithText(raw[1..]), raw, (line: RawSubtitle) => line.text != "");
      assert [] + WithText(raw[1..]) == WithText(raw[1..]);
    }
  }

  /** Lines with text, each with the window its start falls into. */
  function RawLinesWithBatches(raw: seq<RawSubtitle>, seconds: Positive): seq<RawLine> {
    var lines := WithText(raw);
    seq(|lines|, i requires 0 <= i < |lines| =>
      RawLine(lines[i].start, lines[i].end, lines[i].text, BatchIndexOf(lines[i].start, seconds)))
  }

  function WindowOf(index: int, seconds: Positive): Window {
    Window(index, index as real * seconds as real, (index + 1) as real * seconds as real)
  }

  function BatchDefinitions(indexes: set<int>, seconds: Positive): seq<Window> {
    var order := SortedSet(indexes);
    seq(|order|, i requires 0 <= i < |order| => WindowOf(order[i], seconds))
  }

  ghost predicate InWindow(w: Window, t: real) {
    w.start <= t < w.end
  }

  /** A time lies in the window of an index exactly when the index is floor(t / W), the batch of a line starting then. */
  lemma InWindowIffFloor(index: int, seconds: Positive, t: real)
    ensures InWindow(WindowOf(index, seconds), t) <==> index == (t / seconds as real).Floor
    ensures BatchIndexOf(t, seconds) == (t / seconds as real).Floor
  {
    FloorQuotientIs(index, t, seconds);
  }

  /** The indexes of the batches whose window contains the playback time. */
  function Containing(batches: map<int, BatchRow>, t: real): set<int> {
    set b | b in batches && batches[b].start <= t < batches[b].end
  }

  ghost predicate Windowed(batches: map<int, BatchRow>, seconds: Positive) {
    forall b :: b in batches ==>
      batches[b].start == b as real * seconds as real && batches[b].end == (b + 1) as real * seconds as real
  }

  /** Windows do not overlap: a playback time has at most one batch, the one with index floor(t / W). */
  lemma PlaybackBatchIsFloor(batches: map<int, BatchRow>, seconds: Positive, t: real)
    requires Windowed(batches, seconds)
    ensures var batch := (t / seconds as real).Floor; Containing(batches, t) == if batch in batches then {batch} else {}
    ensures BatchIndexOf(t, seconds) == (t / seconds as real).Floor
  {
    InWindowIffFloor(0, seconds, t);
    forall b | b in batches ensures b in Containing(batches, t) <==> b == BatchIndexOf(t, seconds) {
      InWindowIffFloor(b, seconds, t);
    }
  }

  // ---------------------------------------------------------------- processing order

  /** The pending hints, each once, in the order of their first mention. */
  function PendingHints(pending: set<int>, hints: seq<int>, found: seq<int>): seq<int> {
    if hints == [] then found
    else PendingHints(pending, hints[1..],
                      if hints[0] in pending && hints[0] !in found then found + [hints[0]] else found)
  }

  function Elements(xs: seq<int>): set<int> {
    set x | x in xs
  }

  function PrioritizedOrder(pending: set<int>, hints: seq<int>): seq<int> {
    var priority := PendingHints(pending, hints, []);
    priority + SortedSet(pending - Elements(priority))
  }

  method PrioritizedBatchOrder(pending: set<int>, hints: seq<int>) returns (order: seq<int>)
    ensures order == PrioritizedOrder(pending, hints)
  {
    var priority: seq<int> := [];
    for i := 0 to |hints|
      invariant PendingHints(pending, hints, []) == PendingHints(pending, hints[i..], priority)
    {
      assert hints[i..][0] == hints[i] && hints[i..][1..] == hints[i + 1..];
      if hints[i] in pending && hints[i] !in priority {
        priority := priority + [hints[i]];
      }
    }
    order := priority + SortedSet(pending - Elements(priority));
  }

  ghost predicate Distinct(xs: seq<int>) {
    forall i, j :: 0 <= i < j < |xs| ==> xs[i] != xs[j]
  }

  lemma {:induction false} DistinctCount(xs: seq<int>)
    requires Distinct(xs)
    ensures |Elements(xs)| == |xs|
  {
    if xs != [] {
      var n := |xs| - 1;
      DistinctCount(xs[..n]);
      assert xs == xs[..n] + [xs[n]];
      assert Elements(xs) == Elements(xs[..n]) + {xs[n]};
      assert xs[n] !in Elements(xs[..n]);
    }
  }

  lemma {:induction false} PendingHintsFound(pending: set<int>, hints: seq<int>, found: seq<int>)
    requires Distinct(found) && Elements(found) <= pending
    ensures var all := PendingHints(pending, hints, found);
            && Distinct(all) && Elements(all) <= pending
            && found <= all
            && (forall h :: h in all <==> h in found || (h in hints && h in pending))
  {
    if hints != [] {
      PendingHintsFound(pending, hints[1..],
                        if hints[0] in pending && hints[0] !in found then found + [hints[0]] else found);
    }
  }

  /** Every pending batch appears exactly once. */
  lemma OrderIsPermutation(pending: set<int>, hints: seq<int>)
    ensures Distinct(PrioritizedOrder(pending, hints))
    ensures forall b :: b in PrioritizedOrder(pending, hints) <==> b in pending
  {
    PendingHintsFound(pending, hints, []);
    var priority := PendingHints(pending, hints, []);
    var rest := SortedSet(pending - Elements(priority));
    assert forall i :: 0 <= i < |rest| ==> rest[i] in rest;
    assert forall i :: 0 <= i < |priority| ==> priority[i] in Elements(priority);
  }

  /** The batch to process next: the first hint that is pending, or else the least pending index. */
  ghost predicate IsNext(pending: set<int>, hints: seq<int>, pick: int) {
    && pick in pending
    && (if exists h :: h in hints && h in pending
        then exists k :: 0 <= k < |hints| && hints[k] == pick && forall j :: 0 <= j < k ==> hints[j] !in pending
        else forall b :: b in pending ==> pick <= b)
  }

  lemma {:induction false} FirstPendingHint(pending: set<int>, hints: seq<int>)
    ensures var found := PendingHints(pending, hints, []);
            if found == [] then forall h :: h in hints ==> h !in pending
            else exists k :: 0 <= k < |hints| && hints[k] == found[0] && found[0] in pending
                             && forall j :: 0 <= j < k ==> hints[j] !in pending
  {
    if hints != [] {
      assert [] + [hints[0]] == [hints[0]];
      if hints[0] in pending {
        PendingHintsFound(pending, hints[1..], [hints[0]]);
        assert PendingHints(pending, hints, [])[0] == hints[0];
      } else {
        FirstPendingHint(pending, hints[1..]);
        var found := PendingHints(pending, hints[1..], []);
        if found != [] {
          var k :| 0 <= k < |hints[1..]| && hints[1..][k] == found[0] && found[0] in pending
                   && forall j :: 0 <= j < k ==> hints[1..][j] !in pending;
          assert hints[k + 1] == found[0];
          assert forall j :: 1 <= j < k + 1 ==> hints[j] == hints[1..][j - 1];
        }
      }
    }
  }

  lemma FirstOfOrderIsNext(pending: set<int>, hints: seq<int>)
    requires pending != {}
    ensures PrioritizedOrder(pending, hints) != [] && IsNext(pending, hints, PrioritizedOrder(pending, hints)[0])
  {
    FirstPendingHint(pending, hints);
    var found := PendingHints(pending, hints, []);
    if found == [] {
      assert pending - Elements(found) == pending;
      assert SortedSet(pending)[0] == Least(pending);
    } else {
      assert found[0] in hints;
    }
  }

  function NotPending(hints: seq<int>, pending: set<int>): seq<int> {
    if hints == [] then []
    else (if hints[0] !in pending then [hints[0]] else []) + NotPending(hints[1..], pending)
  }

  lemma {:induction false} NotPendingSound(hints: seq<int>, pending: set<int>)
    ensures forall h :: h in NotPending(hints, pending) <==> h in hints && h !in pending
  {
    if hints != [] {
      NotPendingSound(hints[1..], pending);
    }
  }

  function AppendNew(hints: seq<int>, batch: int): seq<int> {
    if batch in hints then hints else hints + [batch]
  }

  /** Hints after a seek into the target batch: it and the next two, unless already hinted. */
  function WithSeek(hints: seq<int>, target: int): seq<int> {
    AppendNew(AppendNew(AppendNew(hints, target), target + 1), target + 2)
  }

  function WithRetry(hints: seq<int>, batch: int): seq<int> {
    if batch in hints then hints else [batch] + hints
  }

  /** The queue's memory for one video. */
  class VideoQueueState {
    var hints: seq<int>

    constructor ()
      ensures hints == []
    {
      hints := [];
    }

    /** Nothing is hinted when no batch contains the time. */
    method PrioritizeBatch(batches: map<int, BatchRow>, playbackTime: real)
      modifies this
      ensures hints == if Containing(batches, playbackTime) == {} then old(hints)
                       else WithSeek(old(hints), Least(Containing(batches, playbackTime)))
    {
      var containing := Containing(batches, playbackTime);
      if containing == {} {
        return;
      }
      var target := Least(containing);
      var priority := [target, target + 1, target + 2];
      for i := 0 to |priority|
        invariant i == 0 ==> hints == old(hints)
        invariant i == 1 ==> hints == AppendNew(old(hints), target)
        invariant i == 2 ==> hints == AppendNew(AppendNew(old(hints), target), target + 1)
        invariant i == 3 ==> hints == WithSeek(old(hints), target)
      {
        if priority[i] !in hints {
          hints := hints + [priority[i]];
        }
      }
    }

    method PrioritizeRetry(batch: int)
      modifies this
      ensures hints == WithRetry(old(hints), batch)
    {
      if batch !in hints {
        hints := [batch] + hints;
      }
    }

    /** Picks a batch and forgets every hint that was still pending. */
    method NextBatch(pending: set<int>) returns (pick: Option<int>)
      modifies this
      ensures pick.None? <==> pending == {}
      ensures pick.Some? ==> IsNext(pending, old(hints), pick.value)
      ensures pick.Some? ==> pick.value == PrioritizedOrder(pending, old(hints))[0]
      ensures hints == if pending == {} then old(hints) else NotPending(old(hints), pending)
    {
      if pending == {} {
        return None;
      }
      var order := PrioritizedBatchOrder(pending, hints);
      FirstOfOrderIsNext(pending, hints);
      hints := NotPending(hints, pending);
      pick := Some(order[0]);
    }
  }

  // ---------------------------------------------------------------- what becomes of a seek

  /** The batches picked one after the other when no more hints or retries arrive. */
  function Picks(pending: set<int>, hints: seq<int>): seq<int>
    decreases pending
  {
    if pending == {} then []
    else
      FirstOfOrderIsNext(pending, hints);
      var pick := PrioritizedOrder(pending, hints)[0];
      [pick] + Picks(pending - {pick}, NotPending(hints, pending))
  }

  lemma {:induction false} NoPendingHints(pending: set<int>, hints: seq<int>, found: seq<int>)
    requires forall i :: 0 <= i < |hints| ==> hints[i] !in pending
    ensures PendingHints(pending, hints, found) == found
  {
    if hints != [] {
      NoPendingHints(pending, hints[1..], found);
    }
  }

  lemma UnhintedOrder(pending: set<int>, hints: seq<int>)
    requires forall h :: h in hints ==> h !in pending
    ensures PrioritizedOrder(pending, hints) == SortedSet(pending)
  {
    hide SortedSet, PendingHints, Ascending;
    forall i | 0 <= i < |hints| ensures hints[i] !in pending {
      var h := hints[i];
      assert h in hints;
    }
    NoPendingHints(pending, hints, []);
    assert pending - Elements([]) == pending;
    assert [] + SortedSet(pending) == SortedSet(pending);
  }

  lemma {:induction false} UnhintedPicksAscend(pending: set<int>, hints: seq<int>)
    requires forall h :: h in hints ==> h !in pending
    ensures Picks(pending, hints) == SortedSet(pending)
    decreases pending
  {
    if pending != {} {
      UnhintedOrder(pending, hints);
      NotPendingSound(hints, pending);
      UnhintedPicksAscend(pending - {Least(pending)}, NotPending(hints, pending));
    }
  }

  /** However many hints there were, only the first one counts: after one pick the rest follow by index. */
  lemma {:induction false} OnlyTheFirstHintCounts(pending: set<int>, hints: seq<int>)
    requires pending != {}
    ensures PrioritizedOrder(pending, hints) != []
    ensures var first := PrioritizedOrder(pending, hints)[0];
            Picks(pending, hints) == [first] + SortedSet(pending - {first})
  {
    FirstOfOrderIsNext(pending, hints);
    NotPendingSound(hints, pending);
    UnhintedPicksAscend(pending - {PrioritizedOrder(pending, hints)[0]}, NotPending(hints, pending));
  }

  lemma PendingHintsStep(pending: set<int>, hint: int, more: seq<int>, found: seq<int>)
    ensures PendingHints(pending, [hint] + more, found)
         == PendingHints(pending, more, if hint in pending && hint !in found then found + [hint] else found)
  {
    assert ([hint] + more)[1..] == more;
  }

  function IfPending(pending: set<int>, batch: int): seq<int> {
    if batch in pending then [batch] else []
  }

  /** The hints of one seek into a pending batch, older hints being stale. */
  lemma SeekHints(pending: set<int>, hints: seq<int>, target: int)
    requires target in pending && forall h :: h in hints ==> h !in pending
    ensures PendingHints(pending, WithSeek(hints, target), [])
         == [target] + NextTwo(pending, target)
  {
    forall i | 0 <= i < |hints| ensures hints[i] !in pending {
      var h := hints[i];
      assert h in hints;
    }
    NoPendingHints(pending, hints, []);
    var h1 := AppendNew(hints, target);
    var h2 := AppendNew(h1, target + 1);
    AppendNewPending(pending, hints, target, []);
    AppendNewPending(pending, h1, target + 1, [target]);
    AppendNewPending(pending, h2, target + 2, [target] + IfPending(pending, target + 1));
  }

  lemma AppendNewPending(pending: set<int>, hints: seq<int>, batch: int, found: seq<int>)
    requires found == PendingHints(pending, hints, []) && batch !in found
    ensures PendingHints(pending, AppendNew(hints, batch), []) == found + IfPending(pending, batch)
  {
    PendingHintsFound(pending, hints, []);
    if batch !in hints {
      PendingHintsAppend(pending, hints, [batch], []);
      PendingHintsStep(pending, batch, [], found);
      assert [batch] + [] == [batch];
    }
  }

  lemma {:induction false} PendingHintsAppend(pending: set<int>, hints: seq<int>, more: seq<int>, found: seq<int>)
    ensures PendingHints(pending, hints + more, found) == PendingHints(pending, more, PendingHints(pending, hints, found))
  {
    if hints == [] {
      assert hints + more == more;
    } else {
      PendingHintsAppend(pending, hints[1..], more,
                         if hints[0] in pending && hints[0] !in found then found + [hints[0]] else found);
      assert (hints + more)[1..] == hints[1..] + more;
    }
  }

  /** A seek into a pending batch, with no older pending hint, makes it the very next pick. */
  lemma {:induction false} SeekIsServedNext(pending: set<int>, hints: seq<int>, target: int)
    requires target in pending && forall h :: h in hints ==> h !in pending
    ensures Picks(pending, WithSeek(hints, target)) == [target] + SortedSet(pending - {target})
  {
    SeekHints(pending, hints, target);
    OnlyTheFirstHintCounts(pending, WithSeek(hints, target));
  }

  /** Every element of `others` is beyond the target. */
  ghost predicate AllBeyond(others: set<int>, target: int) {
    forall b :: b in others ==> target < b
  }

  /** Distinct successors of the target, in front of everything else that is beyond it. */
  ghost predicate Successors(others: set<int>, next: seq<int>, target: int) {
    && Ascending(next) && Elements(next) <= others
    && (forall n :: n in next ==> target < n)
    && (forall n, o :: n in next && o in others && o !in next && target < o ==> n < o)
  }

  lemma SuccessorsFirst(others: set<int>, next: seq<int>, target: int)
    requires Successors(others, next, target) && (next == [] || AllBeyond(others, target))
    ensures next + SortedSet(others - Elements(next)) == SortedSet(others)
  {
    hide SortedSet;
    SuccessorsList(others, next, SortedSet(others - Elements(next)), target);
    SortedSetUnique(next + SortedSet(others - Elements(next)), others);
  }

  lemma SuccessorsList(others: set<int>, next: seq<int>, rest: seq<int>, target: int)
    requires Successors(others, next, target) && (next == [] || AllBeyond(others, target))
    requires Ascending(rest) && |rest| == |others - Elements(next)| && forall x :: x in rest <==> x in others - Elements(next)
    ensures Lists(next + rest, others)
  {
    assert forall i :: 0 <= i < |rest| ==> rest[i] in rest;
    assert forall i :: 0 <= i < |next| ==> next[i] in next && next[i] in Elements(next);
    DistinctCount(next);
    assert |others - Elements(next)| == |others| - |Elements(next)|;
    assert Ascending(next + rest);
  }

  lemma SmallerComesFirst(others: set<int>, next: seq<int>, rest: seq<int>, target: int, b: int)
    requires Successors(others, next, target) && next != [] && b in others && b < target
    ensures next + rest != SortedSet(others)
  {
    var actual := SortedSet(others);
    assert b in actual && actual[0] <= b;
    assert (next + rest)[0] == next[0] && next[0] in next;
  }

  function NextTwo(pending: set<int>, target: int): seq<int> {
    IfPending(pending, target + 1) + IfPending(pending, target + 2)
  }

  lemma {:induction false} SeekOrder(pending: set<int>, hints: seq<int>, target: int)
    requires target in pending && forall h :: h in hints ==> h !in pending
    ensures PrioritizedOrder(pending, WithSeek(hints, target))
         == [target] + (NextTwo(pending, target) + SortedSet(pending - {target} - Elements(NextTwo(pending, target))))
  {
    SeekHints(pending, hints, target);
    OrderAfterFirst(pending, WithSeek(hints, target), target, NextTwo(pending, target));
  }

  lemma {:induction false} OrderAfterFirst(pending: set<int>, hints: seq<int>, first: int, next: seq<int>)
    requires PendingHints(pending, hints, []) == [first] + next
    ensures PrioritizedOrder(pending, hints) == [first] + (next + SortedSet(pending - {first} - Elements(next)))
  {
    WithoutElements(pending, first, next);
    Regroup(first, next, SortedSet(pending - {first} - Elements(next)));
  }

  lemma Regroup(first: int, next: seq<int>, rest: seq<int>)
    ensures ([first] + next) + rest == [first] + (next + rest)
  {
  }

  lemma WithoutElements(pending: set<int>, target: int, next: seq<int>)
    ensures pending - Elements([target] + next) == pending - {target} - Elements(next)
  {
    assert forall b :: b in [target] + next <==> b == target || b in next;
  }

  /**
   The promised order, "the batch at that timestamp and the next two batches" first, is the order actually taken if and
   only if neither of the next two batches is pending or no pending batch comes before the target.
   */
  lemma {:induction false} SeekPromiseIff(pending: set<int>, hints: seq<int>, target: int)
    requires target in pending && forall h :: h in hints ==> h !in pending
    ensures Picks(pending, WithSeek(hints, target)) == PrioritizedOrder(pending, WithSeek(hints, target)) <==>
            (target + 1 !in pending && target + 2 !in pending) || forall b :: b in pending ==> target <= b
  {
    SeekIsServedNext(pending, hints, target);
    SeekOrder(pending, hints, target);
    var others, next := pending - {target}, NextTwo(pending, target);
    NextTwoAreSuccessors(pending, target);
    SuccessorsFirstIff(others, next, target);
    SameHead(target, SortedSet(others), next + SortedSet(others - Elements(next)));
  }

  lemma SameHead(head: int, a: seq<int>, b: seq<int>)
    ensures [head] + a == [head] + b <==> a == b
  {
    assert ([head] + a)[1..] == a && ([head] + b)[1..] == b;
  }

  lemma {:induction false} SuccessorsFirstIff(others: set<int>, next: seq<int>, target: int)
    requires target !in others && Successors(others, next, target)
    ensures next + SortedSet(others - Elements(next)) == SortedSet(others) <==> next == [] || AllBeyond(others, target)
  {
    if next == [] || AllBeyond(others, target) {
      SuccessorsFirst(others, next, target);
    } else {
      var b :| b in others && b < target;
      SmallerComesFirst(others, next, SortedSet(others - Elements(next)), target, b);
    }
  }

  lemma NextTwoAreSuccessors(pending: set<int>, target: int)
    ensures Successors(pending - {target}, NextTwo(pending, target), target)
    ensures NextTwo(pending, target) == [] <==> target + 1 !in pending && target + 2 !in pending
    ensures AllBeyond(pending - {target}, target) <==> forall b :: b in pending ==> target <= b
  {
    var next := NextTwo(pending, target);
    assert forall n :: n in next <==> (n == target + 1 || n == target + 2) && n in pending;
    assert forall b :: b in pending ==> b == target || b in pending - {target};
  }

  /** With batches 0, 5 and 6 pending, a seek into batch 5 is followed by batch 0, although batch 6 was promised. */
  lemma {:induction false} SeekPromiseFails()
    ensures Picks({0, 5, 6}, WithSeek([], 5)) != PrioritizedOrder({0, 5, 6}, WithSeek([], 5))
  {
    assert 0 in {0, 5, 6};
    SeekPromiseIff({0, 5, 6}, [], 5);
  }
}
