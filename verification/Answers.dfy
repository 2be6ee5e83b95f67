/**
 What both services answer about a video in a committed state of the pipeline: the rows satisfy what the results about
 regrouping ask of them (backend/app/services/subtitle_service.py, go-api/internal/store/postgres.go).
 */
module Answers {
  import opened Common
  import opened Database
  import opened Pipeline
  import opened Runs
  import opened Segmentation
  import BatchWork
  import JoinRows
  import Sorting

  function StatusText(status: LineStatus): string {
    match status case LineRaw => "raw" case LineProcessing => "processing" case LineProcessed => "processed" case LineFailed => "failed"
  }

  function StoredTokens(tokens: seq<TokenRow>): seq<JoinRows.Token> {
    seq(|tokens|, k requires 0 <= k < |tokens| =>
      JoinRows.Token(tokens[k].text, tokens[k].pinyin, tokens[k].meaning, tokens[k].start, tokens[k].end))
  }

  function StoredSubtitle(row: SubtitleRow, id: nat): JoinRows.Subtitle {
    JoinRows.Subtitle(JoinRows.Head(id, row.start, row.end, row.text, row.translation, StatusText(row.status)),
                      row.sequence, StoredTokens(row.tokens))
  }

  /** The subtitles with the identifiers the database gave them. */
  function StoredSubtitles(rows: seq<SubtitleRow>, ids: nat -> nat): seq<JoinRows.Subtitle> {
    seq(|rows|, i requires 0 <= i < |rows| => StoredSubtitle(rows[i], ids(i)))
  }

  ghost predicate DistinctIds(ids: nat -> nat) {
    forall i: nat, j: nat :: i < j ==> ids(i) != ids(j)
  }

  lemma StoredAreWellKeyed(config: Config, db: Db, ids: nat -> nat)
    requires Inv(config, db) && DistinctIds(ids)
    ensures JoinRows.WellKeyed(StoredSubtitles(db.subtitles, ids))
  {
    SequencesArePositions(config, db);
  }

  // ---------------------------------------------------------------- tokens of a line are apart

  ghost predicate Apart(tokens: seq<TokenRow>) {
    forall j, k :: 0 <= j < k < |tokens| ==> tokens[j].start < tokens[k].start
  }

  ghost predicate AllApart(db: Db) {
    forall i :: 0 <= i < |db.subtitles| ==> Apart(db.subtitles[i].tokens)
  }

  ghost predicate NoEmptyToken(analysis: seq<BatchWork.Token>) {
    forall k :: 0 <= k < |analysis| ==> analysis[k].text != ""
  }

  /** None of the analyses these subtitles receive has a token without characters. */
  ghost predicate NoEmptyTokens(subtitles: seq<SubtitleRow>, p: Providers, size: Positive) {
    var analyses := BatchWork.Analyses(p.analyzer, BatchWork.TextsOf(BatchWork.WithText(subtitles)), size);
    analyses.Some? ==> forall j :: 0 <= j < |analyses.value| ==> NoEmptyToken(analyses.value[j])
  }

  /** The same of the subtitles of a batch that is about to be processed. */
  ghost predicate BatchHasNoEmptyTokens(db: Db, index: int, p: Providers, size: Positive) {
    NoEmptyTokens(LinesOf(Claimed(db, index).subtitles, index), p, size)
  }

  /** Tokens as the search left them: each after the end of the one before. */
  ghost predicate InTurn(tokens: seq<TokenRow>) {
    forall j, k :: 0 <= j < k < |tokens| ==> tokens[j].start + |tokens[j].text| <= tokens[k].start
  }

  lemma EnrichedInTurn(p: Providers, context: string, analysis: seq<BatchWork.Token>)
    requires BatchWork.EnrichAnalyzed(p, context, analysis).Some?
    ensures var rows := BatchWork.EnrichAnalyzed(p, context, analysis).value;
            |rows| == |analysis| && InTurn(rows) && forall k :: 0 <= k < |rows| ==> rows[k].text == analysis[k].text
  {
    hide BatchWork.LookedUp, BatchWork.EnrichedFrom, BatchWork.EnrichAnalyzed, Located, BatchWork.AllKnown, BatchWork.LastAt;
    var words := BatchWork.Words(analysis);
    var rows, spans := BatchWork.EnrichAnalyzed(p, context, analysis).value, Located(context, words, 0);
    BatchWork.TokensKeepTheirOwnPinyin(p, context, analysis);
    LocatedInOrder(context, words, 0);
    forall k | 0 <= k < |rows| ensures rows[k].start == spans[k].start && rows[k].text == analysis[k].text {
      assert BatchWork.OwnToken(p, context, spans, analysis, k, rows[k]);
    }
  }

  /** Every line of the batch has such tokens. */
  ghost predicate GoodLines(config: Config, db: Db, index: int, p: Providers, good: seq<TokenRow> -> bool) {
    var lines := BatchLines(db, index, p, config);
    lines.Some? ==> forall line :: line in lines.value ==> good(line.tokens)
  }

  lemma LinesAreGood(config: Config, db: Db, index: int, p: Providers)
    ensures GoodLines(config, db, index, p, (tokens: seq<TokenRow>) => InTurn(tokens))
    ensures BatchHasNoEmptyTokens(db, index, p, config.chunkSize) ==>
              GoodLines(config, db, index, p, (tokens: seq<TokenRow>) => Apart(tokens))
  {
    if BatchLines(db, index, p, config).Some? {
      ProcessedInTurn(LinesOf(Claimed(db, index).subtitles, index), p, config.chunkSize);
    }
  }

  lemma ProcessedInTurn(subtitles: seq<SubtitleRow>, p: Providers, size: Positive)
    requires BatchWork.ProcessedLines(subtitles, p, size).Some?
    ensures forall line :: line in BatchWork.ProcessedLines(subtitles, p, size).value ==>
              InTurn(line.tokens) && (NoEmptyTokens(subtitles, p, size) ==> Apart(line.tokens))
  {
    var rows := BatchWork.WithText(subtitles);
    var texts := BatchWork.TextsOf(rows);
    var translations := BatchWork.Collect(p.translate, texts, size, BatchWork.Starts(|texts|, size, 0)).value;
    var analyses := BatchWork.Analyses(p.analyzer, texts, size).value;
    var lines := BatchWork.ProcessedLines(subtitles, p, size).value;
    BatchWork.MakeLinesPerLine(p, rows, translations, analyses);
    forall j | 0 <= j < |lines|
      ensures InTurn(lines[j].tokens) && (NoEmptyTokens(subtitles, p, size) ==> Apart(lines[j].tokens))
    {
      assert BatchWork.MakeLine(p, rows[j], translations[j], analyses[j]) == Some(lines[j]);
      EnrichedInTurn(p, rows[j].text, analyses[j]);
      assert NoEmptyTokens(subtitles, p, size) ==> NoEmptyToken(analyses[j]);
    }
  }

  ghost predicate AllTokens(db: Db, good: seq<TokenRow> -> bool) {
    forall i :: 0 <= i < |db.subtitles| ==> good(db.subtitles[i].tokens)
  }

  lemma UpdatedTokens(db: Db, index: int, lines: seq<ProcessedLine>, good: seq<TokenRow> -> bool)
    requires AllTokens(db, good) && forall line :: line in lines ==> good(line.tokens)
    ensures AllTokens(CompletedDb(db, index, lines), good)
  {
    BySequenceKeys(lines);
    forall i | 0 <= i < |db.subtitles| ensures good(CompletedDb(db, index, lines).subtitles[i].tokens) {
      var row := db.subtitles[i];
      assert good(row.tokens);
      if row.sequence in BySequence(lines) {
        assert BySequence(lines)[row.sequence] in lines;
      }
    }
  }

  lemma StepKeepsTokens(config: Config, db: Db, step: Step, good: seq<TokenRow> -> bool)
    requires AllTokens(db, good) && good([]) && (step.Process? ==> GoodLines(config, db, step.index, step.providers, good))
    ensures AllTokens(Apply(config, db, step), good)
  {
    match step
    case Process(index, p, struck) =>
      ProcessKeepsTokens(config, db, index, p, struck, good);
    case StoreLines(raw) =>
      assert forall i :: 0 <= i < |StoreDb(db, raw, config).subtitles| && db.subtitles == [] ==>
        StoreDb(db, raw, config).subtitles[i].tokens == [];
    case _ =>
  }

  lemma ProcessKeepsTokens(config: Config, db: Db, index: int, p: Providers, struck: bool, good: seq<TokenRow> -> bool)
    requires AllTokens(db, good) && GoodLines(config, db, index, p, good)
    ensures AllTokens(ProcessDb(db, index, p, struck, config), good)
  {
    if index in db.batches && db.batches[index].status != BatchCompleted {
      var lines := BatchLines(db, index, p, config);
      if lines.Some? && !struck {
        UpdatedTokens(Claimed(db, index), index, lines.value, good);
      }
    }
  }

  lemma {:induction false} RunKeepsTokens(config: Config, steps: seq<Step>, good: seq<TokenRow> -> bool)
    requires good([])
    requires forall i :: 0 <= i < |steps| && steps[i].Process? ==>
               GoodLines(config, Exec(config, FRESH, steps[..i]), steps[i].index, steps[i].providers, good)
    ensures AllTokens(Exec(config, FRESH, steps), good)
  {
    if steps != [] {
      hide AllTokens, GoodLines, Apply;
      var n := |steps| - 1;
      forall i | 0 <= i < n && steps[..n][i].Process?
        ensures GoodLines(config, Exec(config, FRESH, steps[..n][..i]), steps[..n][i].index, steps[..n][i].providers, good)
      {
        assert steps[..n][i] == steps[i] && steps[..n][..i] == steps[..i];
      }
      RunKeepsTokens(config, steps[..n], good);
      StepKeepsTokens(config, Exec(config, FRESH, steps[..n]), steps[n], good);
    } else {
      assert Exec(config, FRESH, steps).subtitles == [];
    }
  }

  /** No analysis that a batch received in the run had a token without characters. */
  ghost predicate NoEmptyTokensIn(config: Config, steps: seq<Step>) {
    forall i :: 0 <= i < |steps| && steps[i].Process? ==>
      BatchHasNoEmptyTokens(Exec(config, FRESH, steps[..i]), steps[i].index, steps[i].providers, config.chunkSize)
  }

  /** In every committed state the tokens of a line are stored in turn. */
  lemma RunKeepsTurn(config: Config, steps: seq<Step>)
    ensures AllTokens(Exec(config, FRESH, steps), (tokens: seq<TokenRow>) => InTurn(tokens))
  {
    hide Exec, GoodLines, InTurn;
    assert InTurn([]) by {
      EmptyInTurn();
    }
    forall i | 0 <= i < |steps| && steps[i].Process?
      ensures GoodLines(config, Exec(config, FRESH, steps[..i]), steps[i].index, steps[i].providers, (tokens: seq<TokenRow>) => InTurn(tokens))
    {
      LinesAreGood(config, Exec(config, FRESH, steps[..i]), steps[i].index, steps[i].providers);
    }
    RunKeepsTokens(config, steps, (tokens: seq<TokenRow>) => InTurn(tokens));
  }

  lemma EmptyInTurn()
    ensures InTurn([]) && Apart([])
  {
  }

  lemma RunKeepsApart(config: Config, steps: seq<Step>)
    requires NoEmptyTokensIn(config, steps)
    ensures AllApart(Exec(config, FRESH, steps))
  {
    hide Exec, GoodLines, Apart, BatchHasNoEmptyTokens;
    EmptyInTurn();
    forall i | 0 <= i < |steps| && steps[i].Process?
      ensures GoodLines(config, Exec(config, FRESH, steps[..i]), steps[i].index, steps[i].providers, (tokens: seq<TokenRow>) => Apart(tokens))
    {
      LinesAreGood(config, Exec(config, FRESH, steps[..i]), steps[i].index, steps[i].providers);
    }
    RunKeepsTokens(config, steps, (tokens: seq<TokenRow>) => Apart(tokens));
  }

  // ---------------------------------------------------------------- what the answer shows

  ghost predicate ShowsToken(shown: JoinRows.Token, stored: TokenRow) {
    && shown.text == stored.text && shown.pinyin == stored.pinyin && shown.meaning == stored.meaning
    && shown.startIndex == stored.start && shown.endIndex == stored.end
  }

  ghost predicate ShowsStatus(shown: string, status: LineStatus) {
    && (shown == "raw" <==> status == LineRaw) && (shown == "processing" <==> status == LineProcessing)
    && (shown == "processed" <==> status == LineProcessed) && (shown == "failed" <==> status == LineFailed)
  }

  /** The line shows this subtitle, with its tokens in the order in which they are stored. */
  ghost predicate ShowsRow(line: JoinRows.Line, id: nat, row: SubtitleRow) {
    && line.head.id == id && line.head.start == row.start && line.head.end == row.end && line.head.text == row.text
    && line.head.translation == row.translation && ShowsStatus(line.head.status, row.status)
    && |line.tokens| == |row.tokens| && forall k :: 0 <= k < |row.tokens| ==> ShowsToken(line.tokens[k], row.tokens[k])
  }

  lemma StatusTextShows(status: LineStatus)
    ensures ShowsStatus(StatusText(status), status)
  {
    assert |"raw"| == 3 && |"failed"| == 6 && |"processing"| == 10 && |"processed"| == 9;
  }

  /** In every committed state the answer shows the stored subtitles one by one, in their order, and all of each. */
  lemma CommittedAnswerShowsTheRows(config: Config, steps: seq<Step>, ids: nat -> nat)
    ensures var rows := Exec(config, FRESH, steps).subtitles;
            var answer := JoinRows.ResponseFromVideo(StoredSubtitles(rows, ids));
            if rows == [] then answer == None
            else answer.Some? && |answer.value| == |rows|
                 && forall i :: 0 <= i < |rows| ==> ShowsRow(answer.value[i], ids(i), rows[i])
  {
    hide Exec, Inv, InTurn, JoinRows.InOrderOf, ShowsRow, StoredSubtitle;
    var rows := Exec(config, FRESH, steps).subtitles;
    FreshOk(config);
    ExecKeeps(config, FRESH, steps);
    RunKeepsTurn(config, steps);
    SortedAlready(config, Exec(config, FRESH, steps), ids);
    StoredAre(rows, ids);
    forall i | 0 <= i < |rows| {
      StoredIsShown(rows[i], ids(i));
    }
  }

  lemma StoredIsShown(row: SubtitleRow, id: nat)
    ensures var stored := StoredSubtitle(row, id); ShowsRow(JoinRows.Line(stored.head, stored.tokens), id, row)
  {
    StatusTextShows(row.status);
    hide StatusText, ShowsStatus;
  }

  /** Subtitles and tokens are stored in the order of the answer. */
  lemma SortedAlready(config: Config, db: Db, ids: nat -> nat)
    requires Inv(config, db) && AllTokens(db, (tokens: seq<TokenRow>) => InTurn(tokens))
    ensures JoinRows.InOrderOf(StoredSubtitles(db.subtitles, ids)) == StoredSubtitles(db.subtitles, ids)
  {
    hide Inv, InTurn, StoredTokens;
    TokensSortedAlready(db, ids);
    SubtitlesSortedAlready(config, db, ids);
    hide StoredSubtitles, JoinRows.TokensSorted;
    Sorting.SortOfSorted(JoinRows.SubtitleAtMost, StoredSubtitles(db.subtitles, ids));
  }

  lemma StoredAre(rows: seq<SubtitleRow>, ids: nat -> nat)
    ensures |StoredSubtitles(rows, ids)| == |rows|
    ensures forall i :: 0 <= i < |rows| ==> StoredSubtitles(rows, ids)[i] == StoredSubtitle(rows[i], ids(i))
  {
  }

  lemma TokensSortedAlready(db: Db, ids: nat -> nat)
    requires AllTokens(db, (tokens: seq<TokenRow>) => InTurn(tokens))
    ensures JoinRows.TokensSorted(StoredSubtitles(db.subtitles, ids)) == StoredSubtitles(db.subtitles, ids)
  {
    hide StoredTokens, InTurn;
    var subtitles := StoredSubtitles(db.subtitles, ids);
    hide StoredSubtitles;
    StoredAre(db.subtitles, ids);
    forall i | 0 <= i < |subtitles| ensures JoinRows.WithSortedTokens(subtitles[i]) == subtitles[i] {
      assert InTurn(db.subtitles[i].tokens);
      TokensInTurn(db.subtitles[i].tokens);
    }
    assert JoinRows.TokensSorted(subtitles) == subtitles;
  }

  lemma SubtitlesSortedAlready(config: Config, db: Db, ids: nat -> nat)
    requires Inv(config, db)
    ensures Sorting.Sorted(JoinRows.SubtitleAtMost, StoredSubtitles(db.subtitles, ids))
  {
    SequencesArePositions(config, db);
    hide Inv, StoredSubtitles, StoredTokens;
    var subtitles := StoredSubtitles(db.subtitles, ids);
    StoredAre(db.subtitles, ids);
    forall i, j | 0 <= i < j < |subtitles| ensures JoinRows.SubtitleAtMost(subtitles[i], subtitles[j]) {
    }
  }

  lemma TokensInTurn(tokens: seq<TokenRow>)
    requires InTurn(tokens)
    ensures Sorting.Sort(JoinRows.TokenAtMost, StoredTokens(tokens)) == StoredTokens(tokens)
  {
    Sorting.SortOfSorted(JoinRows.TokenAtMost, StoredTokens(tokens));
  }

  // ---------------------------------------------------------------- both services answer

  /**
   In every committed state of a video the two services agree, whatever order the database chooses, if and only if tokens
   of one line that start at the same place are equal.
   */
  lemma CommittedAnswersAgreeIff(config: Config, steps: seq<Step>, ids: nat -> nat)
    requires DistinctIds(ids)
    ensures var subtitles := StoredSubtitles(Exec(config, FRESH, steps).subtitles, ids);
            (forall rows :: JoinRows.IsQueryResult(rows, subtitles) ==>
               JoinRows.GoAnswer(rows) == JoinRows.ResponseFromVideo(subtitles))
            <==> JoinRows.TokensAgree(subtitles)
  {
    hide *;
    FreshOk(config);
    ExecKeeps(config, FRESH, steps);
    StoredAreWellKeyed(config, Exec(config, FRESH, steps), ids);
    JoinRows.AnswersAgreeIff(StoredSubtitles(Exec(config, FRESH, steps).subtitles, ids));
  }

  /** So they agree when no analysis that a batch received had a token without characters. */
  lemma CommittedAnswersAgree(config: Config, steps: seq<Step>, ids: nat -> nat, rows: seq<JoinRows.Row>)
    requires NoEmptyTokensIn(config, steps) && DistinctIds(ids)
    requires JoinRows.IsQueryResult(rows, StoredSubtitles(Exec(config, FRESH, steps).subtitles, ids))
    ensures JoinRows.GoAnswer(rows) == JoinRows.ResponseFromVideo(StoredSubtitles(Exec(config, FRESH, steps).subtitles, ids))
  {
    hide *;
    RunKeepsApart(config, steps);
    ApartAgree(Exec(config, FRESH, steps), ids);
    CommittedAnswersAgreeIff(config, steps, ids);
  }

  lemma ApartAgree(db: Db, ids: nat -> nat)
    requires AllApart(db)
    ensures JoinRows.TokensAgree(StoredSubtitles(db.subtitles, ids))
  {
    hide Sorting.TiesAgree, Apart, StoredTokens;
    var subtitles := StoredSubtitles(db.subtitles, ids);
    forall i | 0 <= i < |subtitles| ensures Sorting.TiesAgree(JoinRows.TokenAtMost, subtitles[i].tokens) {
      assert Apart(db.subtitles[i].tokens);
      StoredAgree(db.subtitles[i].tokens);
      assert subtitles[i] == StoredSubtitle(db.subtitles[i], ids(i));
    }
  }

  lemma StoredAgree(tokens: seq<TokenRow>)
    requires Apart(tokens)
    ensures Sorting.TiesAgree(JoinRows.TokenAtMost, StoredTokens(tokens))
  {
    var stored := StoredTokens(tokens);
    assert forall j, k :: 0 <= j < |tokens| && 0 <= k < |tokens| && j != k ==> tokens[j].start != tokens[k].start;
    assert forall k :: 0 <= k < |stored| ==> stored[k].startIndex == tokens[k].start;
  }
}
