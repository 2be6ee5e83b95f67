/**
 A video's subtitles with their tokens, answered twice: Python sorts the loaded rows
 (backend/app/services/subtitle_service.py), Go regroups the rows of one ordered join (go-api/internal/store/postgres.go).

 - Regrouping the joined rows rebuilds the lines, also those without tokens.
 - Any order the database may choose gives Python's answer exactly when tokens at the same place are equal.
 - Tokens as the search places them share a place only if one of them is empty.
 */
module JoinRows {
  import opened Common
  import opened Segmentation
  import opened Sorting

  datatype Token = Token(text: string, pinyin: Option<string>, meaning: Option<string>, startIndex: nat, endIndex: nat)

  /** The columns of a subtitle that answers carry. */
  datatype Head = Head(id: nat, start: real, end: real, text: string, translation: Option<string>, status: string)

  /** A stored subtitle, its tokens in no particular order. */
  datatype Subtitle = Subtitle(head: Head, sequence: nat, tokens: seq<Token>)

  datatype Line = Line(head: Head, tokens: seq<Token>)

  // ---------------------------------------------------------------- the nested answer

  predicate TokenAtMost(a: Token, b: Token) {
    a.startIndex <= b.startIndex
  }

  predicate SubtitleAtMost(a: Subtitle, b: Subtitle) {
    a.sequence <= b.sequence
  }

  function WithSortedTokens(subtitle: Subtitle): Subtitle {
    subtitle.(tokens := Sort(TokenAtMost, subtitle.tokens))
  }

  /** The subtitles in order of their sequence numbers, each with its tokens in order of their positions. */
  function InOrderOf(subtitles: seq<Subtitle>): seq<Subtitle> {
    Sort(SubtitleAtMost, TokensSorted(subtitles))
  }

  function TokensSorted(subtitles: seq<Subtitle>): seq<Subtitle> {
    seq(|subtitles|, i requires 0 <= i < |subtitles| => WithSortedTokens(subtitles[i]))
  }

  function LinesOf(subtitles: seq<Subtitle>): seq<Line> {
    seq(|subtitles|, i requires 0 <= i < |subtitles| => Line(subtitles[i].head, subtitles[i].tokens))
  }

  /** The service's answer; None stands for raising because there is nothing. */
  function ResponseFromVideo(subtitles: seq<Subtitle>): Option<seq<Line>> {
    if subtitles == [] then None else Some(LinesOf(InOrderOf(subtitles)))
  }

  // ---------------------------------------------------------------- the join

  datatype Row = Row(head: Head, sequence: nat, token: Option<Token>)

  /** LEFT JOIN: a subtitle without tokens has one row without a token. */
  function RowsOf(subtitle: Subtitle): seq<Row> {
    if subtitle.tokens == [] then [Row(subtitle.head, subtitle.sequence, None)]
    else TokenRows(subtitle.head, subtitle.sequence, subtitle.tokens)
  }

  function TokenRows(head: Head, sequence: nat, tokens: seq<Token>): seq<Row> {
    seq(|tokens|, i requires 0 <= i < |tokens| => Row(head, sequence, Some(tokens[i])))
  }

  function Joined(subtitles: seq<Subtitle>): seq<Row> {
    if subtitles == [] then [] else Joined(subtitles[..|subtitles| - 1]) + RowsOf(subtitles[|subtitles| - 1])
  }

  /** ORDER BY sequence_number, start_index, with a missing start index last. */
  predicate AtMost(a: Row, b: Row) {
    a.sequence < b.sequence
    || (a.sequence == b.sequence
        && (b.token.None? || (a.token.Some? && a.token.value.startIndex <= b.token.value.startIndex)))
  }

  /** What the database may answer: the joined rows in an order that respects ORDER BY. */
  ghost predicate IsQueryResult(rows: seq<Row>, subtitles: seq<Subtitle>) {
    && multiset(rows) == multiset(Joined(subtitles))
    && Sorted(AtMost, rows)
  }

  // ---------------------------------------------------------------- regrouping

  predicate HasLine(lines: seq<Line>, id: nat) {
    exists i :: 0 <= i < |lines| && lines[i].head.id == id
  }

  function TokensOf(row: Row): seq<Token> {
    if row.token.Some? then [row.token.value] else []
  }

  function AddRow(lines: seq<Line>, row: Row): seq<Line> {
    if HasLine(lines, row.head.id)
    then
      seq(|lines|, i requires 0 <= i < |lines| =>
        if lines[i].head.id == row.head.id then Line(lines[i].head, lines[i].tokens + TokensOf(row)) else lines[i])
    else lines + [Line(row.head, TokensOf(row))]
  }

  function Regrouped(rows: seq<Row>): seq<Line> {
    if rows == [] then [] else AddRow(Regrouped(rows[..|rows| - 1]), rows[|rows| - 1])
  }

  function GoAnswer(rows: seq<Row>): Option<seq<Line>> {
    if Regrouped(rows) == [] then None else Some(Regrouped(rows))
  }

  /** Where each subtitle's line is. */
  ghost predicate Indexes(indexes: map<nat, nat>, lines: seq<Line>) {
    && (forall id :: id in indexes ==> indexes[id] < |lines| && lines[indexes[id]].head.id == id)
    && (forall i :: 0 <= i < |lines| ==> lines[i].head.id in indexes && indexes[lines[i].head.id] == i)
  }

  method GetSubtitles(rows: seq<Row>) returns (response: Option<seq<Line>>)
    ensures response == GoAnswer(rows)
  {
    hide AddRow, HasLine;
    var subtitles: seq<Line> := [];
    var indexes: map<nat, nat> := map[];
    for n := 0 to |rows|
      invariant subtitles == Regrouped(rows[..n]) && Indexes(indexes, subtitles)
    {
      assert rows[..n + 1][..n] == rows[..n];
      var row := rows[n];
      RowAdded(subtitles, row, indexes);
      ghost var expected := AddRow(subtitles, row);
      if row.head.id !in indexes {
        indexes := indexes[row.head.id := |subtitles|];
        subtitles := subtitles + [Line(row.head, [])];
      }
      var position := indexes[row.head.id];
      if row.token.Some? {
        subtitles := subtitles[position := subtitles[position].(tokens := subtitles[position].tokens + [row.token.value])];
      }
      assert subtitles == expected by {
        assert [] + TokensOf(row) == TokensOf(row) && subtitles[position].tokens + [] == subtitles[position].tokens;
      }
    }
    assert rows[..|rows|] == rows;
    return if subtitles == [] then None else Some(subtitles);
  }

  /** Looking a line up by its index is looking it up by its identifier. */
  lemma RowAdded(lines: seq<Line>, row: Row, indexes: map<nat, nat>)
    requires Indexes(indexes, lines)
    ensures var id := row.head.id;
            if id in indexes
            then
              var line := lines[indexes[id]];
              AddRow(lines, row) == lines[indexes[id] := line.(tokens := line.tokens + TokensOf(row))]
              && Indexes(indexes, AddRow(lines, row))
            else
              AddRow(lines, row) == lines + [Line(row.head, TokensOf(row))]
              && Indexes(indexes[id := |lines|], AddRow(lines, row))
  {
    var id := row.head.id;
    if id in indexes {
      assert lines[indexes[id]].head.id == id;
      assert forall i :: 0 <= i < |lines| && lines[i].head.id == id ==> i == indexes[id];
    } else {
      assert !HasLine(lines, id);
    }
  }

  // ---------------------------------------------------------------- regrouping rebuilds the lines

  lemma {:induction false} RegroupOne(lines: seq<Line>, subtitle: Subtitle, n: nat)
    requires !HasLine(lines, subtitle.head.id) && 1 <= n <= |RowsOf(subtitle)|
    ensures RegroupOnto(lines, RowsOf(subtitle)[..n]) == lines + [Line(subtitle.head, subtitle.tokens[..if subtitle.tokens == [] then 0 else n])]
  {
    var rows := RowsOf(subtitle);
    assert rows[..n][..n - 1] == rows[..n - 1];
    if n == 1 {
      assert RegroupOnto(lines, rows[..1]) == AddRow(RegroupOnto(lines, []), rows[0]);
      assert TokensOf(rows[0]) == subtitle.tokens[..if subtitle.tokens == [] then 0 else 1];
    } else {
      hide RegroupOnto;
      RegroupOne(lines, subtitle, n - 1);
      OntoMore(lines, rows[..n - 1], rows[n - 1]);
      assert rows[..n] == rows[..n - 1] + [rows[n - 1]];
      var before := lines + [Line(subtitle.head, subtitle.tokens[..n - 1])];
      assert before[|lines|].head.id == rows[n - 1].head.id;
      assert HasLine(before, subtitle.head.id);
      assert subtitle.tokens[..n] == subtitle.tokens[..n - 1] + [subtitle.tokens[n - 1]];
      assert AddRow(before, rows[n - 1]) == lines + [Line(subtitle.head, subtitle.tokens[..n])];
    }
  }

  /** Adding rows to lines that are there already. */
  function RegroupOnto(lines: seq<Line>, rows: seq<Row>): seq<Line> {
    if rows == [] then lines else AddRow(RegroupOnto(lines, rows[..|rows| - 1]), rows[|rows| - 1])
  }

  lemma OntoMore(lines: seq<Line>, rows: seq<Row>, row: Row)
    ensures RegroupOnto(lines, rows + [row]) == AddRow(RegroupOnto(lines, rows), row)
  {
    assert (rows + [row])[..|rows|] == rows;
  }

  lemma {:induction false} RegroupTwice(a: seq<Row>, b: seq<Row>)
    ensures Regrouped(a + b) == RegroupOnto(Regrouped(a), b)
  {
    if b == [] {
      assert a + b == a;
    } else {
      RegroupTwice(a, b[..|b| - 1]);
      assert (a + b)[..|a + b| - 1] == a + b[..|b| - 1];
    }
  }

  lemma SomeRow(subtitle: Subtitle)
    ensures |RowsOf(subtitle)| >= 1
    ensures subtitle.tokens != [] ==> |RowsOf(subtitle)| == |subtitle.tokens|
  {
  }

  lemma RegroupWhole(lines: seq<Line>, subtitle: Subtitle)
    requires !HasLine(lines, subtitle.head.id)
    ensures RegroupOnto(lines, RowsOf(subtitle)) == lines + [Line(subtitle.head, subtitle.tokens)]
  {
    hide RegroupOnto, RowsOf, HasLine;
    SomeRow(subtitle);
    var n := |RowsOf(subtitle)|;
    RegroupOne(lines, subtitle, n);
    assert RowsOf(subtitle)[..n] == RowsOf(subtitle);
    assert subtitle.tokens[..if subtitle.tokens == [] then 0 else n] == subtitle.tokens;
  }

  lemma LinesOfMore(subtitles: seq<Subtitle>)
    requires subtitles != []
    ensures LinesOf(subtitles)
         == LinesOf(subtitles[..|subtitles| - 1]) + [Line(subtitles[|subtitles| - 1].head, subtitles[|subtitles| - 1].tokens)]
  {
  }

  /** Regrouping the joined rows, subtitle after subtitle, rebuilds every line, also those without tokens. */
  lemma {:induction false} RegroupRebuilds(subtitles: seq<Subtitle>)
    requires forall i, j :: 0 <= i < j < |subtitles| ==> subtitles[i].head.id != subtitles[j].head.id
    ensures Regrouped(Joined(subtitles)) == LinesOf(subtitles)
  {
    if subtitles != [] {
      var n := |subtitles| - 1;
      RegroupRebuilds(subtitles[..n]);
      assert !HasLine(LinesOf(subtitles[..n]), subtitles[n].head.id);
      hide Regrouped, RegroupOnto, RowsOf, LinesOf, HasLine;
      RegroupTwice(Joined(subtitles[..n]), RowsOf(subtitles[n]));
      RegroupWhole(LinesOf(subtitles[..n]), subtitles[n]);
      LinesOfMore(subtitles);
    }
  }

  // ---------------------------------------------------------------- the joined rows in order

  /** Identifiers and sequence numbers are distinct, as the database keeps them. */
  ghost predicate WellKeyed(subtitles: seq<Subtitle>) {
    && (forall i, j :: 0 <= i < j < |subtitles| ==> subtitles[i].head.id != subtitles[j].head.id)
    && (forall i, j :: 0 <= i < j < |subtitles| ==> subtitles[i].sequence != subtitles[j].sequence)
  }

  /** Tokens of one line with the same start index are the same. */
  ghost predicate TokensAgree(subtitles: seq<Subtitle>) {
    forall i :: 0 <= i < |subtitles| ==> TiesAgree(TokenAtMost, subtitles[i].tokens)
  }

  lemma OrdersCompare()
    ensures Preorder(TokenAtMost) && Preorder(SubtitleAtMost)
  {
  }

  lemma {:induction false} TokenRowCount(head: Head, sequence: nat, tokens: seq<Token>, row: Row)
    ensures multiset(TokenRows(head, sequence, tokens))[row]
         == if row.head == head && row.sequence == sequence && row.token.Some? then multiset(tokens)[row.token.value] else 0
  {
    if tokens != [] {
      var n := |tokens| - 1;
      TokenRowCount(head, sequence, tokens[..n], row);
      assert tokens == tokens[..n] + [tokens[n]];
      assert TokenRows(head, sequence, tokens) == TokenRows(head, sequence, tokens[..n]) + [Row(head, sequence, Some(tokens[n]))];
    }
  }

  /** The same tokens in another order give the same rows in another order. */
  lemma RowsPermuted(a: Subtitle, b: Subtitle)
    requires a.head == b.head && a.sequence == b.sequence && multiset(a.tokens) == multiset(b.tokens)
    ensures multiset(RowsOf(a)) == multiset(RowsOf(b))
  {
    assert |a.tokens| == |multiset(a.tokens)| == |multiset(b.tokens)| == |b.tokens|;
    if a.tokens != [] {
      forall row ensures multiset(RowsOf(a))[row] == multiset(RowsOf(b))[row] {
        TokenRowCount(a.head, a.sequence, a.tokens, row);
        TokenRowCount(b.head, b.sequence, b.tokens, row);
      }
    }
  }

  lemma JoinedSnoc(subtitles: seq<Subtitle>, last: Subtitle)
    ensures Joined(subtitles + [last]) == Joined(subtitles) + RowsOf(last)
  {
    assert (subtitles + [last])[..|subtitles|] == subtitles;
  }

  lemma {:induction false} JoinedInsert(items: seq<Subtitle>, item: Subtitle)
    ensures multiset(Joined(Insert(SubtitleAtMost, items, item))) == multiset(Joined(items)) + multiset(RowsOf(item))
  {
    hide RowsOf, Joined;
    if items == [] || SubtitleAtMost(items[|items| - 1], item) {
      JoinedSnoc(items, item);
    } else {
      var n := |items| - 1;
      JoinedInsert(items[..n], item);
      JoinedSnoc(Insert(SubtitleAtMost, items[..n], item), items[n]);
      assert items == items[..n] + [items[n]];
      JoinedSnoc(items[..n], items[n]);
    }
  }

  lemma {:induction false} JoinedSort(items: seq<Subtitle>)
    ensures multiset(Joined(Sort(SubtitleAtMost, items))) == multiset(Joined(items))
  {
    hide RowsOf, Joined, Insert, Sort, SubtitleAtMost;
    if items == [] {
      SortNone(SubtitleAtMost);
    } else {
      var n := |items| - 1;
      var before := Sort(SubtitleAtMost, items[..n]);
      SortSnoc(SubtitleAtMost, items[..n], items[n]);
      JoinedSort(items[..n]);
      JoinedInsert(before, items[n]);
      assert items == items[..n] + [items[n]];
      JoinedSnoc(items[..n], items[n]);
    }
  }

  /** Line by line the same subtitles, with the same tokens in any order. */
  ghost predicate SameUpToTokenOrder(a: seq<Subtitle>, b: seq<Subtitle>) {
    && |a| == |b|
    && forall i :: 0 <= i < |a| ==>
         a[i].head == b[i].head && a[i].sequence == b[i].sequence && multiset(a[i].tokens) == multiset(b[i].tokens)
  }

  lemma {:induction false} JoinedPermuted(a: seq<Subtitle>, b: seq<Subtitle>)
    requires SameUpToTokenOrder(a, b)
    ensures multiset(Joined(a)) == multiset(Joined(b))
  {
    if a != [] {
      hide RowsOf;
      var n := |a| - 1;
      JoinedPermuted(a[..n], b[..n]);
      RowsPermuted(a[n], b[n]);
    }
  }

  /** Sorting changes the order of the joined rows only. */
  lemma InOrderJoins(subtitles: seq<Subtitle>)
    ensures multiset(Joined(InOrderOf(subtitles))) == multiset(Joined(subtitles))
  {
    var items := TokensSorted(subtitles);
    JoinedSort(items);
    forall i | 0 <= i < |items| ensures multiset(items[i].tokens) == multiset(subtitles[i].tokens) {
      SortElements(TokenAtMost, subtitles[i].tokens);
    }
    JoinedPermuted(items, subtitles);
  }

  /** Subtitles in order of distinct numbers, each with its tokens in order. */
  ghost predicate LinesInOrder(subtitles: seq<Subtitle>) {
    && (forall i, j :: 0 <= i < j < |subtitles| ==>
          subtitles[i].sequence < subtitles[j].sequence && subtitles[i].head.id != subtitles[j].head.id)
    && (forall i :: 0 <= i < |subtitles| ==> Sorted(TokenAtMost, subtitles[i].tokens))
  }

  lemma InOrderIsInOrder(subtitles: seq<Subtitle>)
    requires WellKeyed(subtitles)
    ensures LinesInOrder(InOrderOf(subtitles))
    ensures multiset(InOrderOf(subtitles)) == multiset(TokensSorted(subtitles))
  {
    var items, sorted := TokensSorted(subtitles), InOrderOf(subtitles);
    var sequence, id := (s: Subtitle) => s.sequence, (s: Subtitle) => s.head.id;
    OrdersCompare();
    SortSorts(SubtitleAtMost, items);
    SortHolds(SubtitleAtMost, items);
    SortElements(SubtitleAtMost, items);
    assert |sorted| == |multiset(sorted)| == |multiset(items)| == |items|;
    KeysOfItems(subtitles);
    SortKeysDistinct(SubtitleAtMost, sequence, items);
    SortKeysDistinct(SubtitleAtMost, id, items);
    forall i, j | 0 <= i < j < |sorted|
      ensures sorted[i].sequence < sorted[j].sequence && sorted[i].head.id != sorted[j].head.id
    {
      assert SubtitleAtMost(sorted[i], sorted[j]);
      assert sequence(sorted[i]) != sequence(sorted[j]) && id(sorted[i]) != id(sorted[j]);
    }
    forall i | 0 <= i < |sorted| ensures Sorted(TokenAtMost, sorted[i].tokens) {
      assert sorted[i] in sorted;
      var k :| 0 <= k < |items| && items[k] == sorted[i];
      SortSorts(TokenAtMost, subtitles[k].tokens);
    }
  }

  lemma KeysOfItems(subtitles: seq<Subtitle>)
    requires WellKeyed(subtitles)
    ensures KeysDistinct((s: Subtitle) => s.sequence, TokensSorted(subtitles))
    ensures KeysDistinct((s: Subtitle) => s.head.id, TokensSorted(subtitles))
  {
    var items := TokensSorted(subtitles);
    forall i, j | 0 <= i < j < |items| ensures items[i].sequence != items[j].sequence && items[i].head.id != items[j].head.id {
      assert items[i].head == subtitles[i].head && items[j].head == subtitles[j].head;
    }
  }

  lemma RowsOfOne(subtitle: Subtitle, row: Row)
    requires row in RowsOf(subtitle)
    ensures row.head == subtitle.head && row.sequence == subtitle.sequence
    ensures if subtitle.tokens == [] then row.token == None else row.token.Some? && row.token.value in subtitle.tokens
  {
  }

  lemma {:induction false} RowOfJoined(subtitles: seq<Subtitle>, row: Row)
    requires row in Joined(subtitles)
    ensures exists i :: 0 <= i < |subtitles| && row in RowsOf(subtitles[i])
  {
    hide RowsOf;
    var n := |subtitles| - 1;
    if row !in RowsOf(subtitles[n]) {
      RowOfJoined(subtitles[..n], row);
      var i :| 0 <= i < n && row in RowsOf(subtitles[..n][i]);
      assert row in RowsOf(subtitles[i]);
    }
  }

  lemma {:induction false} JoinedSorted(subtitles: seq<Subtitle>)
    requires LinesInOrder(subtitles)
    ensures Sorted(AtMost, Joined(subtitles))
  {
    if subtitles != [] {
      var n := |subtitles| - 1;
      JoinedSorted(subtitles[..n]);
      var front, back := Joined(subtitles[..n]), RowsOf(subtitles[n]);
      RowsSorted(subtitles[n]);
      forall i, j | 0 <= i < |front| && 0 <= j < |back| ensures AtMost(front[i], back[j]) {
        assert front[i] in front && back[j] in back;
        RowOfJoined(subtitles[..n], front[i]);
        var k :| 0 <= k < n && front[i] in RowsOf(subtitles[..n][k]);
        RowsOfOne(subtitles[..n][k], front[i]);
        RowsOfOne(subtitles[n], back[j]);
      }
    }
  }

  lemma RowsSorted(subtitle: Subtitle)
    requires Sorted(TokenAtMost, subtitle.tokens)
    ensures Sorted(AtMost, RowsOf(subtitle))
  {
    var rows := RowsOf(subtitle);
    forall i, j | 0 <= i < j < |rows| ensures AtMost(rows[i], rows[j]) {
      assert TokenAtMost(subtitle.tokens[i], subtitle.tokens[j]);
    }
  }

  /** Rows that neither comes before the other are rows of one line, with tokens that agree. */
  lemma JoinedTiesAgree(subtitles: seq<Subtitle>)
    requires LinesInOrder(subtitles) && TokensAgree(subtitles)
    ensures TiesAgree(AtMost, Joined(subtitles))
  {
    var rows := Joined(subtitles);
    forall i, j | 0 <= i < |rows| && 0 <= j < |rows| && AtMost(rows[i], rows[j]) && AtMost(rows[j], rows[i])
      ensures rows[i] == rows[j]
    {
      RowOfJoined(subtitles, rows[i]);
      RowOfJoined(subtitles, rows[j]);
      var p :| 0 <= p < |subtitles| && rows[i] in RowsOf(subtitles[p]);
      var q :| 0 <= q < |subtitles| && rows[j] in RowsOf(subtitles[q]);
      RowsOfOne(subtitles[p], rows[i]);
      RowsOfOne(subtitles[q], rows[j]);
      assert p == q;
      TiedTokens(subtitles[p].tokens, rows[i], rows[j]);
    }
  }

  lemma TiedTokens(tokens: seq<Token>, a: Row, b: Row)
    requires TiesAgree(TokenAtMost, tokens) && AtMost(a, b) && AtMost(b, a) && a.head == b.head && a.sequence == b.sequence
    requires a.token.Some? ==> a.token.value in tokens
    requires b.token.Some? ==> b.token.value in tokens
    ensures a == b
  {
    if a.token.Some? {
      var i :| 0 <= i < |tokens| && tokens[i] == a.token.value;
      var j :| 0 <= j < |tokens| && tokens[j] == b.token.value;
      assert TokenAtMost(tokens[i], tokens[j]) && TokenAtMost(tokens[j], tokens[i]);
    }
  }

  lemma SortedTokensAgree(subtitles: seq<Subtitle>)
    requires WellKeyed(subtitles) && TokensAgree(subtitles)
    ensures TokensAgree(InOrderOf(subtitles))
  {
    var items, sorted := TokensSorted(subtitles), InOrderOf(subtitles);
    InOrderIsInOrder(subtitles);
    forall i | 0 <= i < |sorted| ensures TiesAgree(TokenAtMost, sorted[i].tokens) {
      SameElements(sorted, items, sorted[i]);
      var k :| 0 <= k < |items| && items[k] == sorted[i];
      SortHolds(TokenAtMost, subtitles[k].tokens);
      AgreeingElements(subtitles[k].tokens, sorted[i].tokens);
    }
  }

  lemma AgreeingElements(a: seq<Token>, b: seq<Token>)
    requires TiesAgree(TokenAtMost, a) && forall t :: t in b ==> t in a
    ensures TiesAgree(TokenAtMost, b)
  {
    forall i, j | 0 <= i < |b| && 0 <= j < |b| && TokenAtMost(b[i], b[j]) && TokenAtMost(b[j], b[i]) ensures b[i] == b[j] {
      assert b[i] in b && b[j] in b;
      var p :| 0 <= p < |a| && a[p] == b[i];
      var q :| 0 <= q < |a| && a[q] == b[j];
    }
  }

  // ---------------------------------------------------------------- both answers are the same

  /** Regrouping subtitles in order gives their lines. */
  lemma GoAnswersInOrder(subtitles: seq<Subtitle>)
    requires LinesInOrder(subtitles)
    ensures GoAnswer(Joined(subtitles)) == if subtitles == [] then None else Some(LinesOf(subtitles))
  {
    RegroupRebuilds(subtitles);
  }

  /**
   Whatever order the database chooses within ORDER BY, the rows regrouped in Go are the answer built in Python from the
   same subtitles and tokens, as long as tokens of a line with the same start index are the same.
   */
  lemma GoAnswersAsPython(subtitles: seq<Subtitle>, rows: seq<Row>)
    requires WellKeyed(subtitles) && TokensAgree(subtitles) && IsQueryResult(rows, subtitles)
    ensures GoAnswer(rows) == ResponseFromVideo(subtitles)
  {
    var sorted := InOrderOf(subtitles);
    InOrderIsInOrder(subtitles);
    InOrderJoins(subtitles);
    SortedTokensAgree(subtitles);
    JoinedSorted(sorted);
    JoinedTiesAgree(sorted);
    hide Joined, InOrderOf, Regrouped, LinesInOrder, Sorted, TiesAgree;
    SortedUnique(AtMost, Joined(sorted), rows);
    GoAnswersInOrder(sorted);
  }

  // ---------------------------------------------------------------- and only then

  function Swapped(tokens: seq<Token>, i: nat, j: nat): seq<Token>
    requires i < j < |tokens|
  {
    tokens[i := tokens[j]][j := tokens[i]]
  }

  lemma SwappedTokens(tokens: seq<Token>, i: nat, j: nat)
    requires i < j < |tokens| && Sorted(TokenAtMost, tokens) && TokenAtMost(tokens[j], tokens[i])
    ensures multiset(Swapped(tokens, i, j)) == multiset(tokens) && Sorted(TokenAtMost, Swapped(tokens, i, j))
  {
    var swapped := Swapped(tokens, i, j);
    forall k | i <= k <= j ensures tokens[k].startIndex == tokens[i].startIndex {
      assert i < k ==> TokenAtMost(tokens[i], tokens[k]);
      assert k < j ==> TokenAtMost(tokens[k], tokens[j]);
      assert TokenAtMost(tokens[i], tokens[j]);
    }
    forall k, m | 0 <= k < m < |tokens| ensures TokenAtMost(swapped[k], swapped[m]) {
      assert TokenAtMost(tokens[k], tokens[m]);
    }
  }

  /** Two different tokens with the same start index: the database may answer them in an order Python does not. */
  lemma TiedTokensMayDiffer(subtitles: seq<Subtitle>, k: nat) returns (rows: seq<Row>)
    requires WellKeyed(subtitles) && k < |subtitles| && !TiesAgree(TokenAtMost, subtitles[k].tokens)
    ensures IsQueryResult(rows, subtitles) && GoAnswer(rows) != ResponseFromVideo(subtitles)
  {
    var sorted := InOrderOf(subtitles);
    InOrderIsInOrder(subtitles);
    InOrderJoins(subtitles);
    SortedPlace(subtitles, k);
    var m: nat :| m < |sorted| && sorted[m] == WithSortedTokens(subtitles[k]);
    var tokens := sorted[m].tokens;
    DifferingTie(subtitles[k].tokens, tokens);
    var i: nat, j: nat :| i < j < |tokens| && tokens[i] != tokens[j] && TokenAtMost(tokens[j], tokens[i]);
    var other := WithSwap(sorted, m, i, j);
    SwapKeepsOrder(sorted, m, i, j);
    rows := Joined(other);
    hide LinesInOrder, Joined, InOrderOf, Regrouped, WithSwap, LinesOf;
    JoinedPermuted(other, sorted);
    JoinedSorted(other);
    GoAnswersInOrder(other);
  }

  function WithSwap(subtitles: seq<Subtitle>, m: nat, i: nat, j: nat): seq<Subtitle>
    requires m < |subtitles| && i < j < |subtitles[m].tokens|
  {
    subtitles[m := subtitles[m].(tokens := Swapped(subtitles[m].tokens, i, j))]
  }

  lemma SwapKeepsOrder(subtitles: seq<Subtitle>, m: nat, i: nat, j: nat)
    requires LinesInOrder(subtitles) && m < |subtitles| && i < j < |subtitles[m].tokens|
    requires TokenAtMost(subtitles[m].tokens[j], subtitles[m].tokens[i]) && subtitles[m].tokens[i] != subtitles[m].tokens[j]
    ensures var other := WithSwap(subtitles, m, i, j);
            LinesInOrder(other) && SameUpToTokenOrder(other, subtitles) && LinesOf(other) != LinesOf(subtitles)
  {
    SwappedTokens(subtitles[m].tokens, i, j);
    assert LinesOf(WithSwap(subtitles, m, i, j))[m].tokens[i] == subtitles[m].tokens[j];
    assert LinesOf(subtitles)[m].tokens[i] == subtitles[m].tokens[i];
  }

  lemma SortedPlace(subtitles: seq<Subtitle>, k: nat)
    requires WellKeyed(subtitles) && k < |subtitles|
    ensures WithSortedTokens(subtitles[k]) in InOrderOf(subtitles)
  {
    InOrderIsInOrder(subtitles);
    SameElements(InOrderOf(subtitles), TokensSorted(subtitles), TokensSorted(subtitles)[k]);
  }

  lemma DifferingTie(tokens: seq<Token>, sorted: seq<Token>)
    requires !TiesAgree(TokenAtMost, tokens) && sorted == Sort(TokenAtMost, tokens)
    ensures exists i, j :: 0 <= i < j < |sorted| && sorted[i] != sorted[j] && TokenAtMost(sorted[j], sorted[i])
  {
    SortHolds(TokenAtMost, tokens);
    var p, q :| 0 <= p < |tokens| && 0 <= q < |tokens| && TokenAtMost(tokens[p], tokens[q]) && TokenAtMost(tokens[q], tokens[p])
                && tokens[p] != tokens[q];
    assert tokens[p] in sorted && tokens[q] in sorted;
    var a :| 0 <= a < |sorted| && sorted[a] == tokens[p];
    var b :| 0 <= b < |sorted| && sorted[b] == tokens[q];
    if a < b {
      assert TokenAtMost(sorted[b], sorted[a]);
    } else {
      assert TokenAtMost(sorted[a], sorted[b]);
    }
  }

  /**
   For every order the database may choose, Go answers as Python does, if and only if tokens of one line with the same
   start index are the same.
   */
  lemma AnswersAgreeIff(subtitles: seq<Subtitle>)
    requires WellKeyed(subtitles)
    ensures (forall rows :: IsQueryResult(rows, subtitles) ==> GoAnswer(rows) == ResponseFromVideo(subtitles))
            <==> TokensAgree(subtitles)
  {
    if TokensAgree(subtitles) {
      forall rows | IsQueryResult(rows, subtitles) ensures GoAnswer(rows) == ResponseFromVideo(subtitles) {
        GoAnswersAsPython(subtitles, rows);
      }
    } else {
      var k :| 0 <= k < |subtitles| && !TiesAgree(TokenAtMost, subtitles[k].tokens);
      var rows := TiedTokensMayDiffer(subtitles, k);
    }
  }

  /** Located tokens start one after the other; two start at the same place only if the first of them is empty. */
  lemma LocatedTokensAreApart(text: string, tokens: seq<string>)
    ensures var spans := Located(text, tokens, 0);
            && |spans| == |tokens|
            && forall j, k :: 0 <= j < k < |spans| ==>
                 spans[j].start <= spans[k].start && (spans[j].start == spans[k].start ==> tokens[j] == "")
  {
    LocatedInOrder(text, tokens, 0);
    var spans := Located(text, tokens, 0);
    forall j, k | 0 <= j < k < |spans| && spans[j].start >= spans[k].start ensures spans[j].start == spans[k].start && tokens[j] == "" {
      assert spans[j].end == spans[j].start + |tokens[j]| && spans[j].end <= spans[k].start;
    }
  }
}
