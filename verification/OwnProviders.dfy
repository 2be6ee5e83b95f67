/** The program's own providers, as a batch meets them: what the results about batches ask of providers holds of them. */
module OwnProviders {
  import opened Common
  import opened BatchWork
  import Database
  import NlpAnalysis
  import opened Pronunciation
  import opened Segmentation
  import Translation

  /** One call of translate_batch; the model may answer every list of texts, and every request about it, differently. */
  function Translator(models: seq<string> -> Translation.Model, hasKey: bool, target: string): seq<string> -> Option<seq<string>> {
    (texts: seq<string>) =>
      match Translation.TranslateBatch(models(texts), hasKey, target, texts).outcome
      case Done(translations) => Some(translations)
      case Raised(_) => None
  }

  /** One call of analyze_batch, falling back on the local segmentation and pinyin. */
  function OpenAiAnalyzer(chars: NlpAnalysis.Charset, hasKey: bool, requests: seq<string> -> (nat -> NlpAnalysis.Attempt),
                          segment: string -> seq<string>, pinyin: string -> Option<seq<Slot>>): Analyzer
  {
    var fallback := (texts: seq<string>) => LocalAnalyses(segment, pinyin, texts);
    Batched((texts: seq<string>) => NlpAnalysis.Analyzed(chars, hasKey, texts, requests(texts), fallback).0)
  }

  /** Whatever the model answers, a translation that does not raise has one entry per text. */
  lemma TranslatorKeepsLength(models: seq<string> -> Translation.Model, hasKey: bool, target: string)
    ensures KeepsLength(Translator(models, hasKey, target))
  {
    forall texts: seq<string> | Translator(models, hasKey, target)(texts).Some?
      ensures |Translator(models, hasKey, target)(texts).value| == |texts|
    {
      Translation.TranslationIsSound(models(texts), hasKey, target, texts);
    }
  }

  /** Whatever the model answers, an analysis that does not raise has one entry per text. */
  lemma AnalyzerKeepsItsLength(chars: NlpAnalysis.Charset, hasKey: bool, requests: seq<string> -> (nat -> NlpAnalysis.Attempt),
                               segment: string -> seq<string>, pinyin: string -> Option<seq<Slot>>)
    ensures AnalyzerKeepsLength(OpenAiAnalyzer(chars, hasKey, requests, segment, pinyin))
    ensures AnalyzerKeepsLength(Local(segment, pinyin))
  {
    var fallback := (texts: seq<string>) => LocalAnalyses(segment, pinyin, texts);
    var analyzer := OpenAiAnalyzer(chars, hasKey, requests, segment, pinyin);
    forall texts: seq<string> | analyzer.call(texts).Some? ensures |analyzer.call(texts).value| == |texts| {
      NlpAnalysis.AnalyzedKeepsLength(chars, hasKey, texts, requests(texts), fallback);
    }
  }

  // ---------------------------------------------------------------- from the models to the stored line

  /**
   The model that was asked for the texts of one call, text j among them, gave this translation in its last request about
   it, or that request failed and this is the placeholder.
   */
  ghost predicate ModelTranslated(models: seq<string> -> Translation.Model, target: string, texts: seq<string>, size: Positive,
                                  j: nat, translation: string)
  {
    j < |texts| && exists start: nat, requests ::
      && start % size == 0 && start <= j < start + size
      && var asked := AskedFrom(texts, size, start);
         && Translation.AllTaken(models(asked), 0, requests) && Translation.AllHonest(requests, 0, asked)
         && Translation.Sourced(requests, j - start, target, texts[j], translation)
  }

  /**
   One of at most two answers to the call about text j has this analysis under the text's number, covering it and lacking
   no pinyin; or it is the local analysis.
   */
  ghost predicate ModelAnalysed(chars: NlpAnalysis.Charset, requests: seq<string> -> (nat -> NlpAnalysis.Attempt),
                                segment: string -> seq<string>, pinyin: string -> Option<seq<Slot>>, texts: seq<string>,
                                size: Positive, j: nat, analysis: seq<Token>)
  {
    j < |texts| && exists start: nat ::
      && start % size == 0 && start <= j < start + size
      && AnalysedIn(chars, requests(AskedFrom(texts, size, start)), segment, pinyin, texts[j], j - start, analysis)
  }

  ghost predicate AnalysedIn(chars: NlpAnalysis.Charset, attempts: nat -> NlpAnalysis.Attempt, segment: string -> seq<string>,
                             pinyin: string -> Option<seq<Slot>>, text: string, i: nat, analysis: seq<Token>)
  {
    || AnsweredBy(chars, attempts(0), text, i, analysis)
    || AnsweredBy(chars, attempts(1), text, i, analysis)
    || (pinyin(text).Some? && LocallyAnalysed(text, segment(text), pinyin(text).value, analysis))
  }

  ghost predicate AnsweredBy(chars: NlpAnalysis.Charset, attempt: NlpAnalysis.Attempt, text: string, i: nat, analysis: seq<Token>) {
    attempt.Received? && NlpAnalysis.Answered(chars, text, i, analysis, attempt.sentences)
  }

  lemma TranslationIsTheModels(models: seq<string> -> Translation.Model, hasKey: bool, p: Providers, texts: seq<string>,
                               size: Positive, j: nat, translation: string)
    requires p.translate == Translator(models, hasKey, p.target) && OwnTranslation(p, texts, size, j, translation)
    ensures ModelTranslated(models, p.target, texts, size, j, translation)
  {
    var start: nat :| AnsweredIn(p.translate, texts, size, start, j, translation);
    var asked := AskedFrom(texts, size, start);
    var run := Translation.TranslateBatch(models(asked), hasKey, p.target, asked);
    Translation.TranslationIsSound(models(asked), hasKey, p.target, asked);
    hide Translation.TranslateBatch, Translation.AllTaken, Translation.AllHonest, Translation.Sourced, Translation.GivesUp;
    assert run.outcome == Translation.Done(p.translate(asked).value);
    assert Translation.Sourced(run.requests, 0 + (j - start), p.target, asked[j - start], run.outcome.translations[j - start]);
    assert asked[j - start] == texts[j];
  }

  lemma AnalysisIsTheModels(chars: NlpAnalysis.Charset, hasKey: bool, requests: seq<string> -> (nat -> NlpAnalysis.Attempt),
                            segment: string -> seq<string>, pinyin: string -> Option<seq<Slot>>, texts: seq<string>,
                            size: Positive, j: nat, analysis: seq<Token>)
    requires j < |texts|
    requires OwnAnalysis(OpenAiAnalyzer(chars, hasKey, requests, segment, pinyin), texts, size, j, analysis)
    ensures ModelAnalysed(chars, requests, segment, pinyin, texts, size, j, analysis)
  {
    hide LocalTokens, LocallyAnalysed, NlpAnalysis.Answered, AnalysedIn, NlpAnalysis.Analyzed, LocalAnalyses;
    var analyzer := OpenAiAnalyzer(chars, hasKey, requests, segment, pinyin);
    var start: nat :| AnsweredIn(analyzer.call, texts, size, start, j, analysis);
    var asked := AskedFrom(texts, size, start);
    AnalyzedLine(chars, hasKey, requests(asked), segment, pinyin, asked, j - start);
    assert asked[j - start] == texts[j];
  }

  lemma AnalyzedLine(chars: NlpAnalysis.Charset, hasKey: bool, attempts: nat -> NlpAnalysis.Attempt, segment: string -> seq<string>,
                     pinyin: string -> Option<seq<Slot>>, texts: seq<string>, i: nat)
    requires i < |texts|
    ensures var fallback := (asked: seq<string>) => LocalAnalyses(segment, pinyin, asked);
            var answers := NlpAnalysis.Analyzed(chars, hasKey, texts, attempts, fallback).0;
            answers.Some? && i < |answers.value| ==> AnalysedIn(chars, attempts, segment, pinyin, texts[i], i, answers.value[i])
  {
    var fallback := (asked: seq<string>) => LocalAnalyses(segment, pinyin, asked);
    var (r, made) := NlpAnalysis.Analyzed(chars, hasKey, texts, attempts, fallback);
    NlpAnalysis.FirstUsableAnswerOrFallback(chars, hasKey, texts, attempts, fallback);
    hide NlpAnalysis.Analyzed, NlpAnalysis.Answered, LocallyAnalysed, LocalTokens;
    if r.Some? && i < |r.value| && r == fallback(texts) {
      LocalTokensSpoken(texts[i], segment(texts[i]), pinyin(texts[i]).value);
    }
  }

  /** The line says what the program's own providers, and so the models, made of its text. */
  ghost predicate ModelledLine(rows: seq<Database.SubtitleRow>, p: Providers, size: Positive,
                               models: seq<string> -> Translation.Model, chars: NlpAnalysis.Charset,
                               requests: seq<string> -> (nat -> NlpAnalysis.Attempt), segment: string -> seq<string>,
                               pinyin: string -> Option<seq<Slot>>, j: nat, line: Database.ProcessedLine)
    requires j < |rows|
  {
    exists translation, analysis ::
      && ModelTranslated(models, p.target, TextColumn(rows), size, j, translation)
      && ModelAnalysed(chars, requests, segment, pinyin, TextColumn(rows), size, j, analysis)
      && MadeFrom(p, rows[j], translation, analysis, line)
  }

  lemma LocalAnalysisIsOwn(chars: NlpAnalysis.Charset, requests: seq<string> -> (nat -> NlpAnalysis.Attempt),
                           segment: string -> seq<string>, pinyin: string -> Option<seq<Slot>>, texts: seq<string>,
                           size: Positive, j: nat, analysis: seq<Token>)
    requires j < |texts| && OwnAnalysis(Local(segment, pinyin), texts, size, j, analysis)
    ensures ModelAnalysed(chars, requests, segment, pinyin, texts, size, j, analysis)
  {
    var start := OwnStart(j, size);
    assert AnalysedIn(chars, requests(AskedFrom(texts, size, start)), segment, pinyin, texts[j], j - start, analysis);
  }

  lemma OwnStart(j: nat, size: Positive) returns (start: nat)
    ensures start % size == 0 && start <= j < start + size
  {
    start := j / size * size;
    MultipleOf(j / size, size);
  }

  /**
   With the program's own translator and either analyzer, whatever their models answer, a batch has one line per subtitle
   with text, and each line says what the models said of its own text; it raises only when a provider or a lookup does.
   */
  lemma OwnProvidersKeepEveryLine(subtitles: seq<Database.SubtitleRow>, p: Providers, size: Positive,
                                  models: seq<string> -> Translation.Model, hasKey: bool, chars: NlpAnalysis.Charset,
                                  requests: seq<string> -> (nat -> NlpAnalysis.Attempt),
                                  segment: string -> seq<string>, pinyin: string -> Option<seq<Slot>>)
    requires p.translate == Translator(models, hasKey, p.target)
    requires p.analyzer == OpenAiAnalyzer(chars, hasKey, requests, segment, pinyin) || p.analyzer == Local(segment, pinyin)
    ensures ProcessedLines(subtitles, p, size).Some? ==>
              var rows, lines := WithText(subtitles), ProcessedLines(subtitles, p, size).value;
              && Selects(rows, subtitles, (row: Database.SubtitleRow) => row.text != "")
              && |lines| == |rows|
              && forall j :: 0 <= j < |rows| ==>
                   ModelledLine(rows, p, size, models, chars, requests, segment, pinyin, j, lines[j])
    ensures var texts := TextColumn(WithText(subtitles));
            ProcessedLines(subtitles, p, size).None? ==>
              || !AllReturn(p.translate, texts, size, 0)
              || !AllAnalysed(p.analyzer, texts, size)
              || exists j :: 0 <= j < |texts| && !OwnWordsKnown(p, texts, size, j)
  {
    TranslatorKeepsLength(models, hasKey, p.target);
    AnalyzerKeepsItsLength(chars, hasKey, requests, segment, pinyin);
    RaisesOnlyWithAProvider(subtitles, p, size);
    if ProcessedLines(subtitles, p, size).Some? {
      LinesKeepTheirOwnText(subtitles, p, size);
      var rows, lines := WithText(subtitles), ProcessedLines(subtitles, p, size).value;
      hide ProcessedLines, WithText, Selects, OwnTranslation, OwnAnalysis, MadeFrom, ModelTranslated, ModelAnalysed, AllReturn, AllAnalysed,
        OwnWordsKnown, KeepsLength, AnalyzerKeepsLength;
      forall j | 0 <= j < |rows| ensures ModelledLine(rows, p, size, models, chars, requests, segment, pinyin, j, lines[j]) {
        assert OwnLine(rows, p, size, j, lines[j]);
        OwnLineIsModelled(rows, p, size, models, hasKey, chars, requests, segment, pinyin, j, lines[j]);
      }
    }
  }

  lemma OwnLineIsModelled(rows: seq<Database.SubtitleRow>, p: Providers, size: Positive,
                          models: seq<string> -> Translation.Model, hasKey: bool, chars: NlpAnalysis.Charset,
                          requests: seq<string> -> (nat -> NlpAnalysis.Attempt), segment: string -> seq<string>,
                          pinyin: string -> Option<seq<Slot>>, j: nat, line: Database.ProcessedLine)
    requires p.translate == Translator(models, hasKey, p.target)
    requires p.analyzer == OpenAiAnalyzer(chars, hasKey, requests, segment, pinyin) || p.analyzer == Local(segment, pinyin)
    requires j < |rows| && OwnLine(rows, p, size, j, line)
    ensures ModelledLine(rows, p, size, models, chars, requests, segment, pinyin, j, line)
  {
    hide OwnTranslation, OwnAnalysis, MadeFrom, ModelTranslated, ModelAnalysed;
    var texts := TextColumn(rows);
    var translation, analysis :| OwnTranslation(p, texts, size, j, translation) && OwnAnalysis(p.analyzer, texts, size, j, analysis)
                                 && MadeFrom(p, rows[j], translation, analysis, line);
    TranslationIsTheModels(models, hasKey, p, texts, size, j, translation);
    if p.analyzer == Local(segment, pinyin) {
      LocalAnalysisIsOwn(chars, requests, segment, pinyin, texts, size, j, analysis);
    } else {
      AnalysisIsTheModels(chars, hasKey, requests, segment, pinyin, texts, size, j, analysis);
    }
  }

  /** The two ideas of a Chinese character: where they differ a model has to give pinyin that is never read, or need not. */
  lemma HanDefinitionsDiffer(c: char)
    ensures (NlpAnalysis.ContainsHan([c]) <==> IsHan(c))
            <==> !('\U{4DC0}' <= c <= '\U{4DFF}') && !('\U{20000}' <= c <= '\U{323AF}')
    ensures IsHan(c) <==> '\U{3400}' <= c <= '\U{4DBF}' || '\U{4E00}' <= c <= '\U{9FFF}' || '\U{F900}' <= c <= '\U{FAFF}'
                          || '\U{20000}' <= c <= '\U{323AF}'
  {
    assert NlpAnalysis.ContainsHan([c]) <==> 0x3400 <= [c][0] as int <= 0x9FFF || 0xF900 <= [c][0] as int <= 0xFAFF;
  }
}
