/** The viewer's subtitle list: merging batch events into it, and finding the active line (frontend/src/lib/subtitles.ts). */
module SubtitleMerge {
  import opened Common
  import opened Sorting

  datatype Line = Line(id: Option<int>, start: real, end: real, text: string, translation: Option<string>, tokens: seq<string>)

  datatype LineKey = ById(id: int) | ByTime(start: real, end: real, text: string)

  function KeyOf(line: Line): LineKey {
    if line.id.Some? then ById(line.id.value) else ByTime(line.start, line.end, line.text)
  }

  // ---------------------------------------------------------------- merging

  predicate HasKey(lines: seq<Line>, key: LineKey) {
    exists i :: 0 <= i < |lines| && KeyOf(lines[i]) == key
  }

  /** Setting an insertion-ordered map's entry: a known key keeps its place. */
  function Put(lines: seq<Line>, line: Line): seq<Line> {
    if HasKey(lines, KeyOf(line))
    then seq(|lines|, i requires 0 <= i < |lines| => if KeyOf(lines[i]) == KeyOf(line) then line else lines[i])
    else lines + [line]
  }

  function PutAll(lines: seq<Line>, more: seq<Line>): seq<Line> {
    if more == [] then lines else Put(PutAll(lines, more[..|more| - 1]), more[|more| - 1])
  }

  /** The order of the final sort: by start, then by end. */
  predicate AtMost(a: Line, b: Line) {
    a.start < b.start || (a.start == b.start && a.end <= b.end)
  }

  /** The stable sort of the browser. */
  function SortLines(lines: seq<Line>): seq<Line> {
    Sort(AtMost, lines)
  }

  function Merge(current: seq<Line>, batch: seq<Line>): seq<Line> {
    SortLines(PutAll(PutAll([], current), batch))
  }

  /** The list after all the events, each the lines of one batch. */
  function MergeAll(raw: seq<Line>, events: seq<seq<Line>>): seq<Line> {
    if events == [] then raw else Merge(MergeAll(raw, events[..|events| - 1]), events[|events| - 1])
  }

  /** The values of an insertion-ordered map. */
  function ValuesOf(order: seq<LineKey>, byKey: map<LineKey, Line>): seq<Line>
    requires forall i :: 0 <= i < |order| ==> order[i] in byKey
  {
    seq(|order|, i requires 0 <= i < |order| => byKey[order[i]])
  }

  ghost predicate OrderedMap(order: seq<LineKey>, byKey: map<LineKey, Line>) {
    && (forall i :: 0 <= i < |order| ==> order[i] in byKey)
    && (forall key :: key in byKey ==> key in order && KeyOf(byKey[key]) == key)
    && (forall i, j :: 0 <= i < j < |order| ==> order[i] != order[j])
  }

  method SetAll(order: seq<LineKey>, byKey: map<LineKey, Line>, lines: seq<Line>)
    returns (newOrder: seq<LineKey>, newByKey: map<LineKey, Line>)
    requires OrderedMap(order, byKey)
    ensures OrderedMap(newOrder, newByKey)
    ensures ValuesOf(newOrder, newByKey) == PutAll(ValuesOf(order, byKey), lines)
  {
    newOrder, newByKey := order, byKey;
    for n := 0 to |lines|
      invariant OrderedMap(newOrder, newByKey)
      invariant ValuesOf(newOrder, newByKey) == PutAll(ValuesOf(order, byKey), lines[..n])
    {
      SetOne(newOrder, newByKey, lines[n]);
      assert lines[..n + 1][..n] == lines[..n];
      var key := KeyOf(lines[n]);
      if key !in newByKey {
        newOrder := newOrder + [key];
      }
      newByKey := newByKey[key := lines[n]];
    }
    assert lines[..|lines|] == lines;
  }

  lemma SetOne(order: seq<LineKey>, byKey: map<LineKey, Line>, line: Line)
    requires OrderedMap(order, byKey)
    ensures var key := KeyOf(line);
            var newOrder := if key in byKey then order else order + [key];
            OrderedMap(newOrder, byKey[key := line])
            && ValuesOf(newOrder, byKey[key := line]) == Put(ValuesOf(order, byKey), line)
  {
    var key, values := KeyOf(line), ValuesOf(order, byKey);
    assert forall i :: 0 <= i < |values| ==> KeyOf(values[i]) == order[i] == KeyOf(byKey[order[i]]);
    if key in byKey {
      var i :| 0 <= i < |order| && order[i] == key;
      assert KeyOf(values[i]) == key;
    } else {
      assert !HasKey(values, key);
      assert ValuesOf(order + [key], byKey[key := line]) == values + [line];
    }
    assert OrderedMap(if key in byKey then order else order + [key], byKey[key := line]);
  }

  method MergeSubtitleBatch(current: seq<Line>, batch: seq<Line>) returns (merged: seq<Line>)
    ensures merged == Merge(current, batch)
  {
    var order: seq<LineKey>, byKey: map<LineKey, Line> := [], map[];
    assert ValuesOf(order, byKey) == [];
    order, byKey := SetAll(order, byKey, current);
    order, byKey := SetAll(order, byKey, batch);
    merged := SortLines(ValuesOf(order, byKey));
  }

  // ---------------------------------------------------------------- the sort

  lemma SortKeeps(lines: seq<Line>)
    ensures forall l :: l in SortLines(lines) <==> l in lines
    ensures Sorted(AtMost, SortLines(lines))
    ensures KeysDistinct(KeyOf, lines) ==> KeysDistinct(KeyOf, SortLines(lines))
  {
    hide Sort, Sorted, KeysDistinct;
    SortHolds(AtMost, lines);
    SortSorts(AtMost, lines);
    if KeysDistinct(KeyOf, lines) {
      SortKeysDistinct(AtMost, KeyOf, lines);
    }
  }

  // ---------------------------------------------------------------- what a merged list holds

  /** A line of the list that no later line with the same key replaces. */
  ghost predicate IsLatest(line: Line, lines: seq<Line>) {
    exists i :: 0 <= i < |lines| && IsLatestAt(line, lines, i)
  }

  ghost predicate IsLatestAt(line: Line, lines: seq<Line>, i: nat)
    requires i < |lines|
  {
    lines[i] == line && !HasKey(lines[i + 1..], KeyOf(line))
  }

  lemma {:induction false} PutAllKeeps(lines: seq<Line>, more: seq<Line>)
    requires KeysDistinct(KeyOf, lines)
    ensures KeysDistinct(KeyOf, PutAll(lines, more))
    ensures forall l :: l in PutAll(lines, more) <==> IsLatest(l, lines + more)
  {
    if more == [] {
      assert lines + more == lines;
      forall l | l in lines ensures IsLatest(l, lines) {
        var i :| 0 <= i < |lines| && lines[i] == l;
        assert IsLatestAt(l, lines, i);
      }
    } else {
      var n := |more| - 1;
      PutAllKeeps(lines, more[..n]);
      assert lines + more == (lines + more[..n]) + [more[n]];
      PutKeeps(PutAll(lines, more[..n]), more[n]);
      forall l ensures IsLatest(l, lines + more) <==> l == more[n] || (IsLatest(l, lines + more[..n]) && KeyOf(l) != KeyOf(more[n])) {
        LatestOfOneMore(l, lines + more[..n], more[n]);
      }
    }
  }

  lemma PutKeeps(lines: seq<Line>, line: Line)
    requires KeysDistinct(KeyOf, lines)
    ensures KeysDistinct(KeyOf, Put(lines, line))
    ensures forall l :: l in Put(lines, line) <==> l == line || (l in lines && KeyOf(l) != KeyOf(line))
  {
    var after := Put(lines, line);
    if HasKey(lines, KeyOf(line)) {
      var i :| 0 <= i < |lines| && KeyOf(lines[i]) == KeyOf(line);
      assert after[i] == line;
      forall l | l in lines && KeyOf(l) != KeyOf(line) ensures l in after {
        var j :| 0 <= j < |lines| && lines[j] == l;
        assert after[j] == l;
      }
    }
  }

  lemma LatestOfOneMore(line: Line, lines: seq<Line>, last: Line)
    ensures IsLatest(line, lines + [last]) <==> line == last || (IsLatest(line, lines) && KeyOf(line) != KeyOf(last))
  {
    var all := lines + [last];
    assert all[|lines|] == last && all[|lines| + 1..] == [];
    assert !HasKey([], KeyOf(line));
    hide HasKey, KeyOf;
    forall i | 0 <= i < |lines| ensures IsLatestAt(line, all, i) <==> IsLatestAt(line, lines, i) && KeyOf(line) != KeyOf(last) {
      assert all[i + 1..] == lines[i + 1..] + [last];
      HasKeySnoc(lines[i + 1..], last, KeyOf(line));
    }
    assert IsLatestAt(line, all, |lines|) <==> line == last;
  }

  lemma HasKeySnoc(lines: seq<Line>, last: Line, key: LineKey)
    ensures HasKey(lines + [last], key) <==> HasKey(lines, key) || KeyOf(last) == key
  {
    if KeyOf(last) == key {
      assert (lines + [last])[|lines|] == last;
    }
    if HasKey(lines, key) {
      var i :| 0 <= i < |lines| && KeyOf(lines[i]) == key;
      assert (lines + [last])[i] == lines[i];
    }
  }

  /** Replacing a prefix by its latest lines does not change which lines are the latest. */
  lemma {:induction false} LatestOfLatest(lines: seq<Line>, latest: seq<Line>, more: seq<Line>, l: Line)
    requires KeysDistinct(KeyOf, latest) && forall k :: k in latest <==> IsLatest(k, lines)
    ensures IsLatest(l, latest + more) <==> IsLatest(l, lines + more)
  {
    if more == [] {
      assert latest + more == latest && lines + more == lines;
      if l in latest {
        var i :| 0 <= i < |latest| && latest[i] == l;
        assert IsLatestAt(l, latest, i);
      }
    } else {
      var n := |more| - 1;
      LatestOfLatest(lines, latest, more[..n], l);
      assert latest + more == (latest + more[..n]) + [more[n]];
      assert lines + more == (lines + more[..n]) + [more[n]];
      LatestOfOneMore(l, latest + more[..n], more[n]);
      LatestOfOneMore(l, lines + more[..n], more[n]);
    }
  }

  lemma MergeHolds(current: seq<Line>, batch: seq<Line>)
    ensures var merged := Merge(current, batch);
            Sorted(AtMost, merged) && KeysDistinct(KeyOf, merged) && forall l :: l in merged <==> IsLatest(l, current + batch)
  {
    PutAllKeeps([], current);
    assert [] + current == current;
    PutAllKeeps(PutAll([], current), batch);
    forall l ensures IsLatest(l, PutAll([], current) + batch) <==> IsLatest(l, current + batch) {
      LatestOfLatest(current, PutAll([], current), batch, l);
    }
    SortKeeps(PutAll(PutAll([], current), batch));
  }

  /** After at least one event the list is sorted, has every key once, and holds exactly the latest lines. */
  lemma {:induction false} MergedHolds(raw: seq<Line>, events: seq<seq<Line>>)
    requires events != []
    ensures var merged := MergeAll(raw, events);
            Sorted(AtMost, merged) && KeysDistinct(KeyOf, merged) && forall l :: l in merged <==> IsLatest(l, raw + Flatten(events))
  {
    var n := |events| - 1;
    var before := MergeAll(raw, events[..n]);
    MergeHolds(before, events[n]);
    FlattenSnoc(events[..n], events[n]);
    assert events[..n] + [events[n]] == events;
    assert raw + Flatten(events) == (raw + Flatten(events[..n])) + events[n];
    if n > 0 {
      MergedHolds(raw, events[..n]);
      forall l ensures IsLatest(l, before + events[n]) <==> IsLatest(l, raw + Flatten(events)) {
        LatestOfLatest(raw + Flatten(events[..n]), before, events[n], l);
      }
    } else {
      assert events[..n] == [] && raw + Flatten(events[..n]) == raw;
    }
  }

  /** The same line in perhaps another version: the same identifier, or without one the same times and text. */
  ghost predicate SameLine(a: Line, b: Line) {
    if a.id.Some? || b.id.Some? then a.id == b.id else a.start == b.start && a.end == b.end && a.text == b.text
  }

  ghost predicate InTimeOrder(lines: seq<Line>) {
    forall i, j :: 0 <= i < j < |lines| ==>
      lines[i].start < lines[j].start || (lines[i].start == lines[j].start && lines[i].end <= lines[j].end)
  }

  /** The line as it came last. */
  ghost predicate LastVersion(line: Line, lines: seq<Line>) {
    exists i :: 0 <= i < |lines| && lines[i] == line && forall j :: i < j < |lines| ==> !SameLine(lines[j], line)
  }

  lemma LatestIsLastVersion(line: Line, lines: seq<Line>)
    ensures IsLatest(line, lines) <==> LastVersion(line, lines)
  {
    forall i | 0 <= i < |lines| && lines[i] == line
      ensures IsLatestAt(line, lines, i) <==> forall j :: i < j < |lines| ==> !SameLine(lines[j], line)
    {
      assert forall j :: i < j < |lines| ==> lines[i + 1..][j - (i + 1)] == lines[j];
      assert forall j :: i < j < |lines| ==> (KeyOf(lines[j]) == KeyOf(line) <==> SameLine(lines[j], line));
    }
  }

  /**
   Whatever arrives, after at least one event the list is in order of time, has every line once, and holds exactly the last
   version of every line ever seen.
   */
  lemma MergedListHoldsTheLatest(raw: seq<Line>, events: seq<seq<Line>>)
    requires events != []
    ensures var merged := MergeAll(raw, events);
            && InTimeOrder(merged)
            && (forall i, j :: 0 <= i < j < |merged| ==> !SameLine(merged[i], merged[j]))
            && forall l :: l in merged <==> LastVersion(l, raw + Flatten(events))
  {
    MergedHolds(raw, events);
    var merged := MergeAll(raw, events);
    hide MergeAll;
    forall l ensures IsLatest(l, raw + Flatten(events)) <==> LastVersion(l, raw + Flatten(events)) {
      LatestIsLastVersion(l, raw + Flatten(events));
    }
    hide IsLatest, LastVersion;
    forall i, j | 0 <= i < j < |merged| ensures !SameLine(merged[i], merged[j]) && AtMost(merged[i], merged[j]) {
    }
  }

  // ---------------------------------------------------------------- convergence

  /** Lines with the same times are the same line: the same key. */
  ghost predicate TimesDistinct(lines: seq<Line>) {
    forall i, j :: 0 <= i < |lines| && 0 <= j < |lines| && lines[i].start == lines[j].start && lines[i].end == lines[j].end ==>
      KeyOf(lines[i]) == KeyOf(lines[j])
  }

  /** The events agree on the version of each line they carry. */
  ghost predicate Agreeing(lines: seq<Line>) {
    forall i, j :: 0 <= i < |lines| && 0 <= j < |lines| && KeyOf(lines[i]) == KeyOf(lines[j]) ==> lines[i] == lines[j]
  }

  /** Which raw lines are the latest depends only on which lines the events carry. */
  lemma SameLinesSameLatest(raw: seq<Line>, a: seq<Line>, b: seq<Line>, line: Line)
    requires Agreeing(a) && Agreeing(b) && forall l :: l in a <==> l in b
    requires IsLatest(line, raw + a)
    ensures IsLatest(line, raw + b)
  {
    var i :| 0 <= i < |raw + a| && IsLatestAt(line, raw + a, i);
    if i >= |raw| {
      assert a[i - |raw|] == line;
      assert line in b;
      AgreeingLatest(b, line);
      var k :| 0 <= k < |b| && IsLatestAt(line, b, k);
      assert (raw + b)[|raw| + k] == line && (raw + b)[|raw| + k + 1..] == b[k + 1..];
      assert IsLatestAt(line, raw + b, |raw| + k);
    } else {
      assert raw[i] == line;
      assert (raw + a)[i + 1..] == raw[i + 1..] + a && (raw + b)[i + 1..] == raw[i + 1..] + b;
      HasKeyAppend(raw[i + 1..], a, KeyOf(line));
      HasKeyAppend(raw[i + 1..], b, KeyOf(line));
      SameKeys(b, a, KeyOf(line));
      assert IsLatestAt(line, raw + b, i);
    }
  }

  lemma SameKeys(a: seq<Line>, b: seq<Line>, key: LineKey)
    requires forall l :: l in a ==> l in b
    ensures HasKey(a, key) ==> HasKey(b, key)
  {
    if HasKey(a, key) {
      var k :| 0 <= k < |a| && KeyOf(a[k]) == key;
      assert a[k] in b;
      var m :| 0 <= m < |b| && b[m] == a[k];
    }
  }

  lemma HasKeyAppend(a: seq<Line>, b: seq<Line>, key: LineKey)
    ensures HasKey(a + b, key) <==> HasKey(a, key) || HasKey(b, key)
  {
    if HasKey(b, key) {
      var i :| 0 <= i < |b| && KeyOf(b[i]) == key;
      assert (a + b)[|a| + i] == b[i];
    }
    if HasKey(a, key) {
      var i :| 0 <= i < |a| && KeyOf(a[i]) == key;
      assert (a + b)[i] == a[i];
    }
  }

  lemma {:induction false} AgreeingLatest(lines: seq<Line>, line: Line)
    requires Agreeing(lines) && line in lines
    ensures IsLatest(line, lines)
  {
    var n := |lines| - 1;
    assert lines == lines[..n] + [lines[n]];
    LatestOfOneMore(line, lines[..n], lines[n]);
    if line != lines[n] {
      AgreeingLatest(lines[..n], line);
    }
  }

  lemma MergedStrictly(raw: seq<Line>, events: seq<seq<Line>>)
    requires events != [] && TimesDistinct(raw + Flatten(events))
    ensures StrictlySorted(AtMost, MergeAll(raw, events))
  {
    MergedHolds(raw, events);
    var merged, all := MergeAll(raw, events), raw + Flatten(events);
    forall i, j | 0 <= i < j < |merged| ensures AtMost(merged[i], merged[j]) && !AtMost(merged[j], merged[i]) {
      assert merged[i] in merged && merged[j] in merged;
      var p :| 0 <= p < |all| && all[p] == merged[i];
      var q :| 0 <= q < |all| && all[q] == merged[j];
      assert AtMost(merged[i], merged[j]);
    }
  }

  /**
   Convergence: events that carry the same lines, in any order, in any grouping and with any duplicates, lead to the
   same list, when lines differ in their times and events agree with each other.
   */
  lemma MergingConverges(raw: seq<Line>, first: seq<seq<Line>>, second: seq<seq<Line>>)
    requires first != [] && second != []
    requires forall l :: l in Flatten(first) <==> l in Flatten(second)
    requires Agreeing(Flatten(first)) && Agreeing(Flatten(second))
    requires TimesDistinct(raw + Flatten(first)) && TimesDistinct(raw + Flatten(second))
    ensures MergeAll(raw, first) == MergeAll(raw, second)
  {
    var a, b := MergeAll(raw, first), MergeAll(raw, second);
    MergedHolds(raw, first);
    MergedHolds(raw, second);
    forall l ensures l in a <==> l in b {
      if l in a {
        SameLinesSameLatest(raw, Flatten(first), Flatten(second), l);
      }
      if l in b {
        SameLinesSameLatest(raw, Flatten(second), Flatten(first), l);
      }
    }
    MergedStrictly(raw, first);
    MergedStrictly(raw, second);
    StrictlySortedUnique(AtMost, a, b);
  }

  /** Two lines the list does not know yet, with the same times: their order in the list is that of their arrival. */
  lemma TiesShowArrivalOrder(a: Line, b: Line)
    requires a.start == b.start && a.end == b.end && KeyOf(a) != KeyOf(b)
    ensures MergeAll([], [[a], [b]]) == [a, b]
    ensures MergeAll([], [[b], [a]]) == [b, a]
  {
    ArrivalOrder(a, b);
    ArrivalOrder(b, a);
  }

  /** These events carry the lines, in some order and grouping. */
  ghost predicate Carry(events: seq<seq<Line>>, lines: seq<Line>) {
    events != [] && multiset(Flatten(events)) == multiset(lines)
  }

  /**
   Exactly when the order of arrival does not show: all events that carry given new lines, agreeing with each other, lead
   to one list if and only if different lines have different times.
   */
  lemma OrdersAgreeIff(lines: seq<Line>)
    requires Agreeing(lines)
    ensures (forall a, b :: Carry(a, lines) && Carry(b, lines) ==> MergeAll([], a) == MergeAll([], b)) <==> TimesDistinct(lines)
  {
    hide MergeAll, KeyOf;
    if TimesDistinct(lines) {
      forall a, b | Carry(a, lines) && Carry(b, lines) ensures MergeAll([], a) == MergeAll([], b) {
        CarriedLines(a, lines);
        CarriedLines(b, lines);
        MergingConverges([], a, b);
      }
    } else {
      var i, j :| 0 <= i < |lines| && 0 <= j < |lines| && lines[i].start == lines[j].start && lines[i].end == lines[j].end
                  && KeyOf(lines[i]) != KeyOf(lines[j]);
      TiedOrdersDiffer(lines, if i < j then i else j, if i < j then j else i);
    }
  }

  lemma CarriedLines(events: seq<seq<Line>>, lines: seq<Line>)
    requires Carry(events, lines)
    ensures forall l :: l in Flatten(events) <==> l in lines
    ensures Agreeing(lines) ==> Agreeing(Flatten(events))
    ensures TimesDistinct(lines) ==> TimesDistinct([] + Flatten(events))
  {
    hide KeyOf;
    var all := Flatten(events);
    forall l ensures l in all <==> l in lines {
      SameElements(all, lines, l);
    }
    assert forall i :: 0 <= i < |all| ==> all[i] in lines;
    assert [] + all == all;
  }

  /** Two lines with the same times stay in order of arrival, whatever arrives after them. */
  lemma TiedOrdersDiffer(lines: seq<Line>, i: nat, j: nat)
    requires Agreeing(lines) && i < j < |lines| && KeyOf(lines[i]) != KeyOf(lines[j])
    requires lines[i].start == lines[j].start && lines[i].end == lines[j].end
    ensures exists a, b :: Carry(a, lines) && Carry(b, lines) && MergeAll([], a) != MergeAll([], b)
  {
    hide MergeAll, KeyOf, Carry, Agreeing, Before, Others;
    var x, y, rest := lines[i], lines[j], Others(lines, i, j);
    var a, b := [[x, y] + rest], [[y, x] + rest];
    TwoFirst(lines, i, j);
    CarriedLines(a, lines);
    CarriedLines(b, lines);
    FlattenOne([x, y] + rest);
    FlattenOne([y, x] + rest);
    FirstTwoStayInOrder(x, y, rest);
    FirstTwoStayInOrder(y, x, rest);
    MergedHolds([], a);
    NotBothBefore(MergeAll([], a), x, y);
  }

  function Others(lines: seq<Line>, i: nat, j: nat): seq<Line>
    requires i < j < |lines|
  {
    lines[..i] + lines[i + 1..j] + lines[j + 1..]
  }

  lemma TwoFirst(lines: seq<Line>, i: nat, j: nat)
    requires i < j < |lines|
    ensures Carry([[lines[i], lines[j]] + Others(lines, i, j)], lines)
    ensures Carry([[lines[j], lines[i]] + Others(lines, i, j)], lines)
  {
    assert lines == lines[..i] + [lines[i]] + lines[i + 1..j] + [lines[j]] + lines[j + 1..];
    FlattenOne([lines[i], lines[j]] + Others(lines, i, j));
    FlattenOne([lines[j], lines[i]] + Others(lines, i, j));
  }

  lemma FlattenOne(part: seq<Line>)
    ensures Flatten([part]) == part
  {
    assert [part][1..] == [];
  }

  lemma NotBothBefore(list: seq<Line>, x: Line, y: Line)
    requires KeysDistinct(KeyOf, list) && Before(list, x, y)
    ensures !Before(list, y, x)
  {
  }

  lemma FirstTwoStayInOrder(x: Line, y: Line, rest: seq<Line>)
    requires AtMost(x, y) && KeyOf(x) != KeyOf(y) && Agreeing([x, y] + rest)
    ensures Before(MergeAll([], [[x, y] + rest]), x, y)
  {
    hide KeyOf;
    var all := [x, y] + rest;
    assert PutAll(PutAll([], []), [x, y]) == [x, y] by {
      assert [x, y][..1] == [x] && [x][..0] == [];
      PutFresh([], x);
      PutFresh([x], y);
    }
    var more := PutMore(x, y, rest);
    SortOfSorted(AtMost, [x, y]);
    assert [x, y][0] == x && [x, y][1] == y;
    SortKeepsBefore(AtMost, [x, y], more, x, y);
    assert [all][..0] == [];
    assert MergeAll([], [all]) == Merge([], all);
  }

  /** Filling in lines behind the first two that agree with them leaves the first two where they are. */
  lemma {:induction false} PutMore(x: Line, y: Line, rest: seq<Line>) returns (more: seq<Line>)
    requires PutAll([], [x, y]) == [x, y] && Agreeing([x, y] + rest)
    ensures PutAll([], [x, y] + rest) == [x, y] + more
  {
    if rest == [] {
      more := [];
      assert [x, y] + rest == [x, y] == [x, y] + more;
    } else {
      hide KeyOf;
      var n := |rest| - 1;
      var all := [x, y] + rest;
      assert all[..|all| - 1] == [x, y] + rest[..n] && all[|all| - 1] == rest[n];
      var before := PutMore(x, y, rest[..n]);
      var after := Put([x, y] + before, rest[n]);
      assert all[0] == x && all[1] == y;
      assert after[0] == x && after[1] == y;
      more := after[2..];
    }
  }

  lemma ArrivalOrder(a: Line, b: Line)
    requires a.start == b.start && a.end == b.end && KeyOf(a) != KeyOf(b)
    ensures MergeAll([], [[a], [b]]) == [a, b]
  {
    hide Merge, MergeAll, Sort, Put, KeyOf;
    TwoEvents(a, b);
    MergeOne([], a);
    PutFresh([], a);
    SortOfSorted(AtMost, [a]);
    MergeOne([a], b);
    PutFresh([a], b);
    SortOfSorted(AtMost, [a, b]);
    assert [] + [a] == [a] && [a] + [b] == [a, b];
  }

  lemma PutFresh(list: seq<Line>, line: Line)
    requires forall i :: 0 <= i < |list| ==> KeyOf(list[i]) != KeyOf(line)
    ensures Put(list, line) == list + [line]
  {
  }

  lemma MergeOne(list: seq<Line>, line: Line)
    requires KeysDistinct(KeyOf, list)
    ensures Merge(list, [line]) == SortLines(Put(list, line))
  {
    hide Put, SortLines;
    PutNew(list);
    assert [line][..0] == [];
    assert PutAll(list, [line]) == Put(PutAll(list, []), line);
  }

  lemma TwoEvents(a: Line, b: Line)
    ensures MergeAll([], [[a], [b]]) == Merge(Merge([], [a]), [b])
  {
    hide Merge;
    var events := [[a], [b]];
    assert events[..1] == [[a]] && [[a]][..0] == [];
    assert MergeAll([], events) == Merge(MergeAll([], events[..1]), events[1]);
    assert MergeAll([], [[a]]) == Merge(MergeAll([], [[a]][..0]), [a]);
  }

  // ---------------------------------------------------------------- events about known lines

  /** The latest of the lines with this line's key, or the line itself. */
  function Version(line: Line, lines: seq<Line>): Line {
    if lines == [] then line
    else if KeyOf(lines[|lines| - 1]) == KeyOf(line) then lines[|lines| - 1]
    else Version(line, lines[..|lines| - 1])
  }

  function Versions(list: seq<Line>, lines: seq<Line>): seq<Line> {
    seq(|list|, i requires 0 <= i < |list| => Version(list[i], lines))
  }

  /** Every event line belongs to a line of the list and has its times. */
  ghost predicate AboutKnown(list: seq<Line>, lines: seq<Line>) {
    forall k :: 0 <= k < |lines| ==>
      && HasKey(list, KeyOf(lines[k]))
      && forall i :: 0 <= i < |list| && KeyOf(list[i]) == KeyOf(lines[k]) ==>
           list[i].start == lines[k].start && list[i].end == lines[k].end
  }

  lemma {:induction false} VersionSameKey(line: Line, lines: seq<Line>)
    ensures KeyOf(Version(line, lines)) == KeyOf(line)
    ensures Version(line, lines) == line || Version(line, lines) in lines
  {
    if lines != [] {
      VersionSameKey(line, lines[..|lines| - 1]);
    }
  }

  lemma {:induction false} VersionSameTimes(list: seq<Line>, lines: seq<Line>, i: nat)
    requires i < |list| && AboutKnown(list, lines)
    ensures Version(list[i], lines).start == list[i].start && Version(list[i], lines).end == list[i].end
  {
    if lines != [] {
      VersionSameTimes(list, lines[..|lines| - 1], i);
    }
  }

  lemma {:induction false} VersionOfVersion(line: Line, a: seq<Line>, b: seq<Line>)
    ensures Version(Version(line, a), b) == Version(line, a + b)
  {
    if b == [] {
      assert a + b == a;
    } else {
      var n := |b| - 1;
      VersionOfVersion(line, a, b[..n]);
      VersionSameKey(line, a);
      assert (a + b)[..|a + b| - 1] == a + b[..n];
    }
  }

  lemma VersionsHaveKeys(list: seq<Line>, lines: seq<Line>, key: LineKey)
    ensures HasKey(Versions(list, lines), key) <==> HasKey(list, key)
  {
    forall i | 0 <= i < |list| ensures KeyOf(Versions(list, lines)[i]) == KeyOf(list[i]) {
      VersionSameKey(list[i], lines);
    }
    if HasKey(list, key) {
      var i :| 0 <= i < |list| && KeyOf(list[i]) == key;
      assert KeyOf(Versions(list, lines)[i]) == key;
    }
  }

  lemma {:induction false} PutKnown(list: seq<Line>, lines: seq<Line>)
    requires forall k :: 0 <= k < |lines| ==> HasKey(list, KeyOf(lines[k]))
    ensures PutAll(list, lines) == Versions(list, lines)
  {
    if lines != [] {
      var n := |lines| - 1;
      PutKnown(list, lines[..n]);
      VersionsHaveKeys(list, lines[..n], KeyOf(lines[n]));
      forall i | 0 <= i < |list| ensures Put(Versions(list, lines[..n]), lines[n])[i] == Versions(list, lines)[i] {
        VersionSameKey(list[i], lines[..n]);
      }
    }
  }

  lemma {:induction false} PutNew(list: seq<Line>)
    requires KeysDistinct(KeyOf, list)
    ensures PutAll([], list) == list
  {
    if list != [] {
      var n := |list| - 1;
      PutNew(list[..n]);
      PutFresh(list[..n], list[n]);
      assert list == list[..n] + [list[n]];
    }
  }

  /** A list of the same length with the same times, line by line. */
  ghost predicate SameTimes(a: seq<Line>, b: seq<Line>) {
    |a| == |b| && forall i :: 0 <= i < |a| ==> a[i].start == b[i].start && a[i].end == b[i].end
  }

  lemma {:induction false} InsertVersion(list: seq<Line>, line: Line, lines: seq<Line>)
    requires SameTimes(list, Versions(list, lines))
    requires Version(line, lines).start == line.start && Version(line, lines).end == line.end
    ensures Insert(AtMost, Versions(list, lines), Version(line, lines)) == Versions(Insert(AtMost, list, line), lines)
  {
    var versions := Versions(list, lines);
    if list == [] || AtMost(list[|list| - 1], line) {
      assert Versions(list + [line], lines) == versions + [Version(line, lines)];
    } else {
      var n := |list| - 1;
      assert versions[..n] == Versions(list[..n], lines);
      InsertVersion(list[..n], line, lines);
      assert Versions(Insert(AtMost, list[..n], line) + [list[n]], lines)
          == Versions(Insert(AtMost, list[..n], line), lines) + [Version(list[n], lines)];
    }
  }

  lemma AllSameTimes(list: seq<Line>, whole: seq<Line>, lines: seq<Line>)
    requires AboutKnown(whole, lines) && forall l :: l in list ==> l in whole
    ensures SameTimes(list, Versions(list, lines))
  {
    forall i | 0 <= i < |list|
      ensures list[i].start == Versions(list, lines)[i].start && list[i].end == Versions(list, lines)[i].end
    {
      assert list[i] in whole;
      var k :| 0 <= k < |whole| && whole[k] == list[i];
      VersionSameTimes(whole, lines, k);
    }
  }

  /** New versions with the old times sort as the old ones did, ties included. */
  lemma {:induction false} SortVersions(list: seq<Line>, whole: seq<Line>, lines: seq<Line>)
    requires AboutKnown(whole, lines) && forall l :: l in list ==> l in whole
    ensures SortLines(Versions(list, lines)) == Versions(SortLines(list), lines)
  {
    if list != [] {
      var n := |list| - 1;
      SortVersions(list[..n], whole, lines);
      assert Versions(list, lines)[..n] == Versions(list[..n], lines);
      SortKeeps(list[..n]);
      AllSameTimes(SortLines(list[..n]), whole, lines);
      AllSameTimes(list, whole, lines);
      assert Versions(list, lines)[n] == Version(list[n], lines);
      InsertVersion(SortLines(list[..n]), list[n], lines);
    }
  }

  lemma MergeKnown(list: seq<Line>, batch: seq<Line>)
    requires KeysDistinct(KeyOf, list) && AboutKnown(list, batch)
    ensures Merge(list, batch) == Versions(SortLines(list), batch)
  {
    PutNew(list);
    PutKnown(list, batch);
    SortVersions(list, list, batch);
  }

  lemma KnownToo(list: seq<Line>, earlier: seq<Line>, batch: seq<Line>)
    requires KeysDistinct(KeyOf, list) && AboutKnown(list, earlier) && AboutKnown(list, batch)
    ensures KeysDistinct(KeyOf, Versions(SortLines(list), earlier)) && AboutKnown(Versions(SortLines(list), earlier), batch)
  {
    var sorted := SortLines(list);
    var now := Versions(sorted, earlier);
    SortKeeps(list);
    AllSameTimes(sorted, list, earlier);
    forall i | 0 <= i < |sorted| ensures KeyOf(now[i]) == KeyOf(sorted[i]) {
      VersionSameKey(sorted[i], earlier);
    }
    forall k | 0 <= k < |batch|
      ensures HasKey(now, KeyOf(batch[k]))
      ensures forall i :: 0 <= i < |now| && KeyOf(now[i]) == KeyOf(batch[k]) ==>
                now[i].start == batch[k].start && now[i].end == batch[k].end
    {
      var j :| 0 <= j < |list| && KeyOf(list[j]) == KeyOf(batch[k]);
      assert list[j] in sorted;
      var m :| 0 <= m < |sorted| && sorted[m] == list[j];
      assert KeyOf(now[m]) == KeyOf(batch[k]);
      forall i | 0 <= i < |now| && KeyOf(now[i]) == KeyOf(batch[k])
        ensures now[i].start == batch[k].start && now[i].end == batch[k].end
      {
        assert sorted[i] in list;
        var p :| 0 <= p < |list| && list[p] == sorted[i];
      }
    }
  }

  /**
   Events about lines of the raw list: whatever their order and number, and however many lines share their times, the
   list stays the sorted raw list, each line in its place and in its latest version.
   */
  lemma {:induction false} KnownLinesKeepTheirPlaces(raw: seq<Line>, events: seq<seq<Line>>)
    requires events != [] && KeysDistinct(KeyOf, raw) && AboutKnown(raw, Flatten(events))
    ensures MergeAll(raw, events) == Versions(SortLines(raw), Flatten(events))
  {
    var n := |events| - 1;
    var earlier := Flatten(events[..n]);
    FlattenSnoc(events[..n], events[n]);
    assert events[..n] + [events[n]] == events;
    AboutParts(raw, earlier, events[n]);
    if n == 0 {
      assert events[..n] == [] && earlier + events[n] == events[n];
      MergeKnown(raw, events[n]);
    } else {
      KnownLinesKeepTheirPlaces(raw, events[..n]);
      var now := MergeAll(raw, events[..n]);
      KnownToo(raw, earlier, events[n]);
      MergeKnown(now, events[n]);
      SortedAlready(raw, earlier);
      forall i | 0 <= i < |now| ensures Versions(now, events[n])[i] == Version(SortLines(raw)[i], Flatten(events)) {
        VersionOfVersion(SortLines(raw)[i], earlier, events[n]);
      }
    }
  }

  lemma AboutParts(list: seq<Line>, a: seq<Line>, b: seq<Line>)
    ensures AboutKnown(list, a + b) <==> AboutKnown(list, a) && AboutKnown(list, b)
  {
    hide HasKey, KeyOf;
    assert forall k :: 0 <= k < |a| ==> (a + b)[k] == a[k];
    assert forall k :: 0 <= k < |b| ==> (a + b)[|a| + k] == b[k];
  }

  lemma SortedAlready(raw: seq<Line>, earlier: seq<Line>)
    requires AboutKnown(raw, earlier)
    ensures SortLines(Versions(SortLines(raw), earlier)) == Versions(SortLines(raw), earlier)
  {
    SortKeeps(raw);
    AllSameTimes(SortLines(raw), raw, earlier);
    SortOfSorted(AtMost, Versions(SortLines(raw), earlier));
  }

  /** Merging the same batch again changes nothing, for every list and every batch. */
  lemma MergeIsIdempotent(current: seq<Line>, batch: seq<Line>)
    ensures Merge(Merge(current, batch), batch) == Merge(current, batch)
  {
    var merged := Merge(current, batch);
    MergeHolds(current, batch);
    MergeUnfolds(merged, batch);
    hide Merge, IsLatest, PutAll, Versions;
    BatchIsKnown(merged, current, batch);
    PutKnown(merged, batch);
    AlreadyCurrent(merged, current, batch);
    SortOfSorted(AtMost, merged);
  }

  lemma MergeUnfolds(list: seq<Line>, batch: seq<Line>)
    requires KeysDistinct(KeyOf, list)
    ensures Merge(list, batch) == SortLines(PutAll(list, batch))
  {
    PutNew(list);
  }

  lemma BatchIsKnown(merged: seq<Line>, current: seq<Line>, batch: seq<Line>)
    requires forall l :: l in merged <==> IsLatest(l, current + batch)
    ensures forall k :: 0 <= k < |batch| ==> HasKey(merged, KeyOf(batch[k]))
  {
    hide IsLatest;
    forall k | 0 <= k < |batch| ensures HasKey(merged, KeyOf(batch[k])) {
      EveryKeyHasALatest(current + batch, |current| + k);
      var l :| IsLatest(l, current + batch) && KeyOf(l) == KeyOf(batch[k]);
      assert l in merged;
    }
  }

  lemma AlreadyCurrent(merged: seq<Line>, current: seq<Line>, batch: seq<Line>)
    requires forall l :: l in merged ==> IsLatest(l, current + batch)
    ensures Versions(merged, batch) == merged
  {
    hide IsLatest, Version;
    forall i | 0 <= i < |merged| ensures Version(merged[i], batch) == merged[i] {
      assert merged[i] in merged;
      LatestIsItsVersion(merged[i], current, batch);
    }
  }

  lemma {:induction false} EveryKeyHasALatest(lines: seq<Line>, k: nat)
    requires k < |lines|
    ensures exists l :: IsLatest(l, lines) && KeyOf(l) == KeyOf(lines[k])
    decreases |lines| - k
  {
    if HasKey(lines[k + 1..], KeyOf(lines[k])) {
      var m :| 0 <= m < |lines[k + 1..]| && KeyOf(lines[k + 1..][m]) == KeyOf(lines[k]);
      assert lines[k + 1 + m] == lines[k + 1..][m];
      EveryKeyHasALatest(lines, k + 1 + m);
    } else {
      assert IsLatestAt(lines[k], lines, k);
    }
  }

  lemma {:induction false} LatestIsItsVersion(line: Line, current: seq<Line>, batch: seq<Line>)
    requires IsLatest(line, current + batch)
    ensures Version(line, batch) == line
  {
    if batch != [] {
      var n := |batch| - 1;
      assert current + batch == (current + batch[..n]) + [batch[n]];
      LatestOfOneMore(line, current + batch[..n], batch[n]);
      if line != batch[n] {
        LatestIsItsVersion(line, current, batch[..n]);
      }
    }
  }

  // ---------------------------------------------------------------- the active line

  predicate Contains(line: Line, time: real) {
    line.start <= time < line.end
  }

  /** What the binary search finds between two positions. */
  function Search(lines: seq<Line>, time: real, low: int, high: int): (r: int)
    requires 0 <= low <= high + 1 <= |lines|
    ensures r == -1 || (low <= r <= high && Contains(lines[r], time))
    decreases high - low + 1
  {
    if low > high then -1
    else
      var middle := (low + high) / 2;
      if Contains(lines[middle], time) then middle
      else if time < lines[middle].start then Search(lines, time, low, middle - 1)
      else Search(lines, time, middle + 1, high)
  }

  method FindActiveSubtitleIndex(lines: seq<Line>, time: real) returns (index: int)
    ensures index == Search(lines, time, 0, |lines| - 1)
    ensures index != -1 ==> 0 <= index < |lines| && lines[index].start <= time < lines[index].end
  {
    var low, high := 0, |lines| - 1;
    while low <= high
      invariant 0 <= low <= high + 1 <= |lines|
      invariant Search(lines, time, low, high) == Search(lines, time, 0, |lines| - 1)
    {
      var middle := (low + high) / 2;
      if Contains(lines[middle], time) {
        return middle;
      }
      if time < lines[middle].start {
        high := middle - 1;
      } else {
        low := middle + 1;
      }
    }
    return -1;
  }

  // ---------------------------------------------------------------- what the search misses

  /** Lines in the order of their starts, as merging leaves them. */
  ghost predicate StartsInOrder(lines: seq<Line>) {
    forall i, j :: 0 <= i < j < |lines| ==> lines[i].start <= lines[j].start
  }

  ghost predicate Monotone(lines: seq<Line>) {
    forall i, j :: 0 <= i < j < |lines| ==> lines[i].start <= lines[j].start && lines[i].end <= lines[j].end
  }

  /** How many lines have started by the time. */
  function Started(lines: seq<Line>, time: real): nat {
    if lines == [] then 0
    else Started(lines[..|lines| - 1], time) + (if lines[|lines| - 1].start <= time then 1 else 0)
  }

  lemma {:induction false} StartedAreFirst(lines: seq<Line>, time: real)
    requires StartsInOrder(lines)
    ensures Started(lines, time) <= |lines|
    ensures forall i :: 0 <= i < |lines| ==> (lines[i].start <= time <==> i < Started(lines, time))
  {
    if lines != [] {
      var n := |lines| - 1;
      StartedAreFirst(lines[..n], time);
      if lines[n].start <= time && n > 0 {
        assert lines[..n][n - 1].start <= lines[n].start;
      }
    }
  }

  /**
   The positions at which bisecting [low, high] for the last of `started` started lines asks a line that has started.
   They depend on the two numbers alone.
   */
  function Asked(started: nat, low: int, high: int): (asked: seq<nat>)
    requires 0 <= low <= high + 1
    ensures forall k :: 0 <= k < |asked| ==> asked[k] <= high
    decreases high - low + 1
  {
    if low > high then []
    else
      var middle := (low + high) / 2;
      if middle < started then [middle] + Asked(started, middle + 1, high) else Asked(started, low, middle - 1)
  }

  /** None of the lines at these positions contains the time. */
  ghost predicate NoneContains(lines: seq<Line>, time: real, positions: seq<nat>) {
    forall k :: 0 <= k < |positions| ==> positions[k] < |lines| && !Contains(lines[positions[k]], time)
  }

  lemma NoneContainsCons(lines: seq<Line>, time: real, first: nat, rest: seq<nat>)
    requires first < |lines|
    ensures NoneContains(lines, time, [first] + rest) <==> !Contains(lines[first], time) && NoneContains(lines, time, rest)
  {
    var all := [first] + rest;
    assert all[0] == first && forall k :: 0 <= k < |rest| ==> all[k + 1] == rest[k];
  }

  lemma {:induction false} SearchAsks(lines: seq<Line>, time: real, started: nat, low: int, high: int)
    requires 0 <= low <= high + 1 <= |lines|
    requires forall i :: 0 <= i < |lines| ==> (lines[i].start <= time <==> i < started)
    ensures Search(lines, time, low, high) == -1 <==> NoneContains(lines, time, Asked(started, low, high))
    decreases high - low + 1
  {
    hide NoneContains, Search, Asked;
    if low > high {
      NothingToAsk(lines, time, started, low, high);
    } else {
      var middle := (low + high) / 2;
      SearchStep(lines, time, low, high);
      AskedStep(started, low, high);
      if middle < started {
        SearchAsks(lines, time, started, middle + 1, high);
        NoneContainsCons(lines, time, middle, Asked(started, middle + 1, high));
      } else {
        SearchAsks(lines, time, started, low, middle - 1);
      }
    }
  }

  lemma NothingToAsk(lines: seq<Line>, time: real, started: nat, low: int, high: int)
    requires 0 <= low == high + 1 <= |lines|
    ensures Search(lines, time, low, high) == -1 && NoneContains(lines, time, Asked(started, low, high))
  {
  }

  lemma ContainedIsAsked(lines: seq<Line>, time: real, positions: seq<nat>, p: nat)
    requires p in positions && p < |lines| && Contains(lines[p], time)
    ensures !NoneContains(lines, time, positions)
  {
    var k :| 0 <= k < |positions| && positions[k] == p;
    assert positions[k] < |lines| && Contains(lines[positions[k]], time);
  }

  lemma SearchStep(lines: seq<Line>, time: real, low: int, high: int)
    requires 0 <= low <= high < |lines|
    ensures var middle := (low + high) / 2;
            && low <= middle <= high
            && Search(lines, time, low, high) ==
               if Contains(lines[middle], time) then middle
               else if time < lines[middle].start then Search(lines, time, low, middle - 1)
               else Search(lines, time, middle + 1, high)
  {
  }

  lemma AskedStep(started: nat, low: int, high: int)
    requires 0 <= low <= high
    ensures var middle := (low + high) / 2;
            && low <= middle <= high
            && Asked(started, low, high) ==
               if middle < started then [middle as nat] + Asked(started, middle + 1, high) else Asked(started, low, middle - 1)
  {
  }

  /** The last line that has started is always among those asked. */
  lemma {:induction false} LastStartedIsAsked(started: nat, low: int, high: int)
    requires 0 <= low < started <= high + 1
    ensures started - 1 in Asked(started, low, high)
    decreases high - low + 1
  {
    var middle := (low + high) / 2;
    if middle < started - 1 {
      LastStartedIsAsked(started, middle + 1, high);
    } else if middle >= started {
      LastStartedIsAsked(started, low, middle - 1);
    }
  }

  /**
   On lines in the order of their starts, exactly when the search finds nothing: when none of the started lines on the
   way to the last of them contains the time.
   */
  lemma SearchFindsNothingIff(lines: seq<Line>, time: real)
    requires StartsInOrder(lines)
    ensures Search(lines, time, 0, |lines| - 1) == -1 <==>
            NoneContains(lines, time, Asked(Started(lines, time), 0, |lines| - 1))
  {
    StartedAreFirst(lines, time);
    SearchAsks(lines, time, Started(lines, time), 0, |lines| - 1);
  }

  /** So a line is found whenever the last line that has started contains the time. */
  lemma LastStartedIsFound(lines: seq<Line>, time: real)
    requires StartsInOrder(lines)
    ensures Started(lines, time) <= |lines|
    ensures Started(lines, time) > 0 && Contains(lines[Started(lines, time) - 1], time) ==> Search(lines, time, 0, |lines| - 1) != -1
  {
    hide *;
    var started := Started(lines, time);
    StartedAreFirst(lines, time);
    SearchFindsNothingIff(lines, time);
    if started > 0 && Contains(lines[started - 1], time) {
      LastStartedIsAsked(started, 0, |lines| - 1);
      ContainedIsAsked(lines, time, Asked(started, 0, |lines| - 1), started - 1);
    }
  }

  /**
   When neither starts nor ends ever fall, overlaps allowed, the search returns -1 exactly when no line contains the
   time.
   */
  lemma SearchIsComplete(lines: seq<Line>, time: real)
    requires Monotone(lines)
    ensures Search(lines, time, 0, |lines| - 1) == -1 <==>
            forall i :: 0 <= i < |lines| ==> !(lines[i].start <= time < lines[i].end)
  {
    var started := Started(lines, time);
    StartedAreFirst(lines, time);
    LastStartedIsFound(lines, time);
    if i :| 0 <= i < |lines| && Contains(lines[i], time) {
      assert i <= started - 1;
      assert lines[i].end <= lines[started - 1].end;
      assert Contains(lines[started - 1], time);
    }
  }

  /** A sorted list is not enough: a long line in front of short ones is missed. */
  lemma SearchMissesALongLine()
    ensures var lines := [Line(None, 0.0, 10.0, "a", None, []), Line(None, 1.0, 2.0, "b", None, []), Line(None, 3.0, 4.0, "c", None, [])];
            Sorted(AtMost, lines) && Contains(lines[0], 5.0) && Search(lines, 5.0, 0, |lines| - 1) == -1
  {
    var lines := [Line(None, 0.0, 10.0, "a", None, []), Line(None, 1.0, 2.0, "b", None, []), Line(None, 3.0, 4.0, "c", None, [])];
    assert Search(lines, 5.0, 2, 2) == Search(lines, 5.0, 3, 2) == -1;
    assert Search(lines, 5.0, 0, 2) == Search(lines, 5.0, 2, 2);
  }
}
