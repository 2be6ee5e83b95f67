/**
 Turning the subtitles of one batch into translated, tokenised lines: chunked provider calls, realigned line by line
 (backend/app/services/subtitle_service.py). Provider calls are oracles; None stands for a call that raises.
 */
module BatchWork {
  import opened Common
  import opened Segmentation
  import opened Pronunciation
  import opened Database
  import NlpAnalysis

  type Token = NlpAnalysis.Token

  datatype Entry = Entry(pinyin: Option<string>, meaning: string)

  datatype Analyzer =
    | Batched(call: seq<string> -> Option<seq<seq<Token>>>)
    | Local(segment: string -> seq<string>, pinyin: string -> Option<seq<Slot>>)

  datatype Providers = Providers(translate: seq<string> -> Option<seq<string>>,
                                 analyzer: Analyzer,
                                 dictionary: Option<(string, string) -> Option<Entry>>,
                                 strip: string -> string,
                                 target: string)

  // ---------------------------------------------------------------- chunked calls

  /** range(0, n, size). */
  function Starts(n: nat, size: Positive, from: nat): (starts: seq<nat>)
    ensures forall k :: 0 <= k < |starts| ==> from <= starts[k] < n
    decreases n - from
  {
    if from >= n then [] else [from] + Starts(n, size, from + size)
  }

  function Chunk(texts: seq<string>, size: Positive, start: nat): seq<string>
    requires start < |texts|
  {
    texts[start..Min(start + size, |texts|)]
  }

  function Prepend<T>(first: seq<T>, rest: Option<seq<T>>): Option<seq<T>> {
    if rest.None? then None else Some(first + rest.value)
  }

  lemma PrependNothing<T>(rest: Option<seq<T>>)
    ensures Prepend([], rest) == rest
  {
    assert rest.Some? ==> [] + rest.value == rest.value;
  }

  /** The answers to all chunks in one list; the first call that raises ends it. */
  function Collect<T>(call: seq<string> -> Option<seq<T>>, texts: seq<string>, size: Positive, starts: seq<nat>): Option<seq<T>>
    requires forall k :: 0 <= k < |starts| ==> starts[k] < |texts|
  {
    if starts == [] then Some([])
    else
      var first := call(Chunk(texts, size, starts[0]));
      if first.None? then None else Prepend(first.value, Collect(call, texts, size, starts[1..]))
  }

  /** _report_batch_progress clamps what it passes on. */
  function Report(progress: real): real {
    MinReal(MaxReal(progress, 0.0), 0.99)
  }

  /** Reports that never fall, from `low` to at most `high`. */
  ghost predicate Steady(reports: seq<real>, low: real, high: real) {
    && (forall i :: 0 <= i < |reports| ==> low <= reports[i] <= high)
    && (forall i, j :: 0 <= i <= j < |reports| ==> reports[i] <= reports[j])
  }

  /** What a stage reports after finishing `done` of its `total` steps. */
  function StageProgress(base: real, width: real, done: nat, total: nat): real {
    base + width * (done as real / (if total >= 1 then total else 1) as real)
  }

  /** The reports of a stage: one after each of its steps, from `base` on up to `base + width`. */
  ghost function StageReports(base: real, width: real, steps: nat): seq<real> {
    seq(steps, i requires 0 <= i < steps => base + width * ((i + 1) as real / steps as real))
  }

  lemma SharesGrow(j: nat, k: nat, n: nat)
    requires 1 <= j <= k <= n
    ensures 0.0 <= j as real / n as real <= k as real / n as real <= 1.0
  {
  }

  lemma WidthTimes(width: real, a: real, b: real)
    requires 0.0 <= a <= b <= 1.0 && width >= 0.0
    ensures 0.0 <= width * a <= width * b <= width
  {
    assert width * (b - a) >= 0.0 && width * (1.0 - b) >= 0.0 && width * a >= 0.0;
  }

  lemma StageIsSteady(base: real, width: real, steps: nat)
    requires width >= 0.0
    ensures Steady(StageReports(base, width, steps), base, base + width)
  {
    hide StageReports;
    var reports := StageReports(base, width, steps);
    StageLength(base, width, steps);
    forall i, j | 0 <= i <= j < steps ensures base <= reports[i] <= reports[j] <= base + width {
      StageReportsGrow(base, width, steps, i, j);
    }
  }

  lemma StageLength(base: real, width: real, steps: nat)
    ensures |StageReports(base, width, steps)| == steps
  {
  }

  lemma StageReportsGrow(base: real, width: real, steps: nat, i: nat, j: nat)
    requires width >= 0.0 && i <= j < steps
    ensures |StageReports(base, width, steps)| == steps
    ensures base <= StageReports(base, width, steps)[i] <= StageReports(base, width, steps)[j] <= base + width
  {
    hide StageReports;
    StageReportAt(base, width, steps, i);
    StageReportAt(base, width, steps, j);
    SharesGrow(i + 1, j + 1, steps);
    WidthTimes(width, (i + 1) as real / steps as real, (j + 1) as real / steps as real);
  }

  lemma StageReportAt(base: real, width: real, steps: nat, i: nat)
    requires i < steps
    ensures |StageReports(base, width, steps)| == steps
    ensures StageReports(base, width, steps)[i] == base + width * ((i + 1) as real / steps as real)
  {
  }

  /** One more step's report, which clamping leaves alone. */
  lemma NextReport(base: real, width: real, reports: seq<real>, steps: nat)
    requires base >= 0.0 && width >= 0.0 && base + width <= 0.99
    requires |reports| < steps && reports == StageReports(base, width, steps)[..|reports|]
    ensures reports + [Report(StageProgress(base, width, |reports| + 1, steps))]
         == StageReports(base, width, steps)[..|reports| + 1]
  {
    StageIsSteady(base, width, steps);
    assert StageProgress(base, width, |reports| + 1, steps) == StageReports(base, width, steps)[|reports|];
  }

  /** How many chunks of `size` it takes. */
  ghost function ChunksOf(n: nat, size: Positive): nat {
    (n + size - 1) / size
  }

  ghost function AnalysisReports(analyzer: Analyzer, n: nat, size: Positive): seq<real> {
    match analyzer
    case Batched(_) => StageReports(0.4, 0.4, ChunksOf(n, size))
    case Local(_, _) => [0.8]
  }

  /** All the reports of a batch of n subtitles: after every chunk translated, every chunk analysed and every line made. */
  ghost function BatchReports(analyzer: Analyzer, n: nat, size: Positive): seq<real> {
    StageReports(0.05, 0.35, ChunksOf(n, size)) + AnalysisReports(analyzer, n, size) + StageReports(0.8, 0.16, n)
  }

  lemma BothSteady(a: seq<real>, b: seq<real>, low: real, middle: real, high: real)
    requires low <= middle <= high && Steady(a, low, middle) && Steady(b, middle, high)
    ensures Steady(a + b, low, high)
  {
  }

  lemma BatchIsSteady(analyzer: Analyzer, n: nat, size: Positive)
    ensures Steady(BatchReports(analyzer, n, size), 0.05, 0.96)
  {
    hide StageReports, Steady;
    var chunks := ChunksOf(n, size);
    var translating, saving := StageReports(0.05, 0.35, chunks), StageReports(0.8, 0.16, n);
    StageIsSteady(0.05, 0.35, chunks);
    StageIsSteady(0.4, 0.4, chunks);
    StageIsSteady(0.8, 0.16, n);
    OneSteady(0.8, 0.4, 0.8);
    BothSteady(translating, AnalysisReports(analyzer, n, size), 0.05, 0.4, 0.8);
    BothSteady(translating + AnalysisReports(analyzer, n, size), saving, 0.05, 0.8, 0.96);
  }

  /** So however far a batch gets, its reports never fall. */
  lemma PrefixIsSteady(reports: seq<real>, all: seq<real>, done: bool, low: real, high: real)
    requires ReportsOf(reports, all, done) && Steady(all, low, high)
    ensures Steady(reports, low, high)
  {
  }

  /** A stage that is not finished is the last one that reports. */
  lemma ThreeStages(a: seq<real>, b: seq<real>, c: seq<real>, allA: seq<real>, allB: seq<real>, allC: seq<real>,
                    first: bool, second: bool, third: bool)
    requires ReportsOf(a, allA, first) && ReportsOf(b, allB, second) && ReportsOf(c, allC, third)
    requires (!first ==> b == []) && (!(first && second) ==> c == [])
    ensures ReportsOf(a + b + c, allA + allB + allC, first && second && third)
  {
    var all := allA + allB + allC;
    if !first {
      assert a + b + c == a && all[..|a|] == allA[..|a|];
    } else if !second {
      assert a + b + c == allA + b && all[..|allA + b|] == allA + allB[..|b|];
    } else {
      assert all[..|a + b + c|] == allA + allB + allC[..|c|];
    }
  }

  lemma OneSteady(report: real, low: real, high: real)
    requires low <= report <= high
    ensures Steady([report], low, high)
  {
  }

  /** The expected reports, as far as the work got: all of them unless it raised. */
  ghost predicate ReportsOf(reports: seq<real>, all: seq<real>, done: bool) {
    reports <= all && (done ==> reports == all)
  }

  lemma NoMultipleInside(d: int, size: Positive)
    requires -(size as int) < d * size < size
    ensures d == 0
  {
  }

  lemma QuotientStep(x: nat, size: Positive)
    ensures (x + size) / size == x / size + 1
  {
    var d := (x + size) / size - x / size - 1;
    assert d * size == ((x + size) / size) * size - (x / size) * size - size == x % size - (x + size) % size;
    NoMultipleInside(d, size);
  }

  lemma {:induction false} StartsCount(n: nat, size: Positive, from: nat)
    requires from <= n + size - 1
    ensures |Starts(n, size, from)| == (n - from + size - 1) / size
    decreases n + size - from
  {
    if from < n {
      StartsCount(n, size, from + size);
      QuotientStep(n - from - 1, size);
    } else {
      SmallQuotient(n - from + size - 1, size);
    }
  }

  lemma ChunkCountIs(n: nat, size: Positive)
    ensures ChunksOf(n, size) == (n + size - 1) / size
  {
  }

  lemma SmallQuotient(x: nat, size: Positive)
    requires x < size
    ensures x / size == 0
  {
  }

  /** The loop over the chunks of a provider, reporting after each. */
  method CollectChunks<T>(call: seq<string> -> Option<seq<T>>, texts: seq<string>, size: Positive, base: real, width: real)
    returns (r: Option<seq<T>>, reports: seq<real>)
    requires base >= 0.0 && width >= 0.0 && base + width <= 0.99
    ensures r == Collect(call, texts, size, Starts(|texts|, size, 0))
    ensures ReportsOf(reports, StageReports(base, width, ChunksOf(|texts|, size)), r.Some?)
  {
    hide StageReports, StageProgress, Chunk, ChunksOf, Report;
    var starts := Starts(|texts|, size, 0);
    var collected: seq<T> := [];
    reports := [];
    ChunkCountIs(|texts|, size);
    StageLength(base, width, |starts|);
    StartsCount(|texts|, size, 0);
    assert starts[0..] == starts;
    PrependNothing(Collect(call, texts, size, starts));
    for k := 0 to |starts|
      invariant Collect(call, texts, size, starts) == Prepend(collected, Collect(call, texts, size, starts[k..]))
      invariant |reports| == k && reports == StageReports(base, width, |starts|)[..k]
    {
      assert starts[k..][0] == starts[k] && starts[k..][1..] == starts[k + 1..];
      var answer := call(Chunk(texts, size, starts[k]));
      if answer.None? {
        return None, reports;
      }
      CollectStep(call, texts, size, starts[k..], collected, answer.value);
      NextReport(base, width, reports, |starts|);
      collected := collected + answer.value;
      reports := reports + [Report(StageProgress(base, width, k + 1, |starts|))];
    }
    assert starts[|starts|..] == [] && collected + [] == collected;
    r := Some(collected);
  }

  lemma CollectStep<T>(call: seq<string> -> Option<seq<T>>, texts: seq<string>, size: Positive, starts: seq<nat>,
                       collected: seq<T>, answer: seq<T>)
    requires starts != [] && forall k :: 0 <= k < |starts| ==> starts[k] < |texts|
    requires call(Chunk(texts, size, starts[0])) == Some(answer)
    ensures Prepend(collected, Collect(call, texts, size, starts))
         == Prepend(collected + answer, Collect(call, texts, size, starts[1..]))
  {
    var rest := Collect(call, texts, size, starts[1..]);
    if rest.Some? {
      assert collected + (answer + rest.value) == (collected + answer) + rest.value;
    }
  }

  ghost predicate KeepsLength<T(!new)>(call: seq<string> -> Option<seq<T>>) {
    forall texts :: call(texts).Some? ==> |call(texts).value| == |texts|
  }

  /** The texts of one call: at most `size` of them from `start` on. */
  ghost function AskedFrom(texts: seq<string>, size: Positive, start: nat): seq<string>
    requires start <= |texts|
  {
    if start + size <= |texts| then texts[start..start + size] else texts[start..]
  }

  /** The call for the texts from `start` on, a multiple of `size`, answered text j with this value. */
  ghost predicate AnsweredIn<T>(call: seq<string> -> Option<seq<T>>, texts: seq<string>, size: Positive, start: nat, j: nat,
                                value: T)
  {
    && start % size == 0 && start <= j < start + size && j < |texts|
    && var answer := call(AskedFrom(texts, size, start));
       answer.Some? && j - start < |answer.value| && answer.value[j - start] == value
  }

  /** The value is the answer given for text j in the one call that contained it. */
  ghost predicate FromOwnCall<T>(call: seq<string> -> Option<seq<T>>, texts: seq<string>, size: Positive, j: nat, value: T) {
    exists start :: AnsweredIn(call, texts, size, start, j, value)
  }

  /** Every call for the texts from a multiple of `size` on returns. */
  ghost predicate AllReturn<T>(call: seq<string> -> Option<seq<T>>, texts: seq<string>, size: Positive, from: nat) {
    forall start :: from <= start < |texts| && start % size == 0 ==> call(AskedFrom(texts, size, start)).Some?
  }

  lemma NextMultiple(from: nat, size: Positive)
    requires from % size == 0
    ensures (from + size) % size == 0
    ensures forall start :: from < start < from + size ==> start % size != 0
  {
    var k := from / size;
    assert from == k * size;
    assert from + size == (k + 1) * size;
    MultipleOf(k + 1, size);
    forall start | from < start < from + size ensures start % size != 0 {
      RemainderIs(k, start - from, size);
    }
  }

  lemma MultipleOf(k: nat, size: Positive)
    ensures (k * size) % size == 0
  {
    RemainderIs(k, 0, size);
  }

  lemma RemainderIs(k: nat, r: nat, size: Positive)
    requires r < size
    ensures (k * size + r) % size == r
  {
    var n := k * size + r;
    var d := n / size - k;
    assert d * size == (n / size) * size - k * size == r - n % size;
    NoMultipleInside(d, size);
  }

  lemma ChunkIsAsked(texts: seq<string>, size: Positive, start: nat)
    requires start < |texts|
    ensures Chunk(texts, size, start) == AskedFrom(texts, size, start)
  {
  }

  lemma FirstAndRest<T>(call: seq<string> -> Option<seq<T>>, texts: seq<string>, size: Positive, from: nat,
                        first: seq<T>, rest: seq<T>)
    requires from < |texts| && from % size == 0 && call(AskedFrom(texts, size, from)) == Some(first)
    requires |first| == Min(size, |texts| - from)
    requires rest != [] ==> |first| == size
    requires forall i :: 0 <= i < |rest| ==> FromOwnCall(call, texts, size, from + size + i, rest[i])
    ensures forall i :: 0 <= i < |first + rest| ==> FromOwnCall(call, texts, size, from + i, (first + rest)[i])
  {
    forall i | 0 <= i < |first + rest| ensures FromOwnCall(call, texts, size, from + i, (first + rest)[i]) {
      if i < |first| {
        assert AnsweredIn(call, texts, size, from, from + i, first[i]);
      } else {
        assert FromOwnCall(call, texts, size, from + size + (i - |first|), rest[i - |first|]);
      }
    }
  }

  lemma {:induction false} CollectFrom<T(!new)>(call: seq<string> -> Option<seq<T>>, texts: seq<string>, size: Positive, from: nat)
    requires from % size == 0
    ensures Collect(call, texts, size, Starts(|texts|, size, from)).Some? <==> AllReturn(call, texts, size, from)
    ensures KeepsLength(call) && from <= |texts| + size && Collect(call, texts, size, Starts(|texts|, size, from)).Some? ==>
              var all := Collect(call, texts, size, Starts(|texts|, size, from)).value;
              && |all| == (if from <= |texts| then |texts| - from else 0)
              && forall i :: 0 <= i < |all| ==> FromOwnCall(call, texts, size, from + i, all[i])
    decreases |texts| + size - from
  {
    if from < |texts| {
      var starts, first := Starts(|texts|, size, from), call(Chunk(texts, size, from));
      ChunkIsAsked(texts, size, from);
      NextMultiple(from, size);
      hide FromOwnCall, Chunk, AskedFrom;
      assert starts[0] == from && starts[1..] == Starts(|texts|, size, from + size);
      CollectFrom(call, texts, size, from + size);
      ReturnsFrom(call, texts, size, from);
      if KeepsLength(call) && first.Some? && Collect(call, texts, size, starts[1..]).Some? {
        assert |first.value| == |Chunk(texts, size, from)|;
        ChunkLength(texts, size, from);
        FirstAndRest(call, texts, size, from, first.value, Collect(call, texts, size, starts[1..]).value);
      }
    }
  }

  lemma ChunkLength(texts: seq<string>, size: Positive, start: nat)
    requires start < |texts|
    ensures |Chunk(texts, size, start)| == Min(size, |texts| - start)
  {
  }

  lemma ReturnsFrom<T>(call: seq<string> -> Option<seq<T>>, texts: seq<string>, size: Positive, from: nat)
    requires from < |texts| && from % size == 0 && (from + size) % size == 0
    requires forall start :: from < start < from + size ==> start % size != 0
    ensures AllReturn(call, texts, size, from) <==>
            call(AskedFrom(texts, size, from)).Some? && AllReturn(call, texts, size, from + size)
  {
    hide AskedFrom;
  }

  /**
   A provider called chunk by chunk answers when all of these calls return; and then, if it keeps lengths, it answers every
   text once, in order, in the call that contained it.
   */
  lemma CollectAnswersEveryText<T(!new)>(call: seq<string> -> Option<seq<T>>, texts: seq<string>, size: Positive)
    ensures var answers := Collect(call, texts, size, Starts(|texts|, size, 0));
            && (answers.Some? <==> AllReturn(call, texts, size, 0))
            && (answers.Some? && KeepsLength(call) ==>
                  && |answers.value| == |texts|
                  && forall j :: 0 <= j < |texts| ==> FromOwnCall(call, texts, size, j, answers.value[j]))
  {
    MultipleOf(0, size);
    hide Collect, Starts, FromOwnCall, KeepsLength, AllReturn;
    CollectFrom(call, texts, size, 0);
    if Collect(call, texts, size, Starts(|texts|, size, 0)).Some? && KeepsLength(call) {
      var all := Collect(call, texts, size, Starts(|texts|, size, 0)).value;
      forall j | 0 <= j < |texts| ensures FromOwnCall(call, texts, size, j, all[j]) {
        assert FromOwnCall(call, texts, size, 0 + j, all[j]);
      }
    }
  }

  // ---------------------------------------------------------------- analysis

  /** The local analysis of one text: its own tokens with the pinyin at their own place. */
  function LocalTokens(text: string, tokens: seq<string>, slots: seq<Slot>): seq<Token> {
    var spans := Located(text, tokens, 0);
    seq(|spans|, k requires 0 <= k < |spans| =>
      NlpAnalysis.Token(spans[k].text, TokenPinyin(slots, spans[k].start, spans[k].end)))
  }

  /** segment_batch and pinyin_batch, one result per text; a failing pinyin raises. */
  function LocalAnalyses(segment: string -> seq<string>, pinyin: string -> Option<seq<Slot>>, texts: seq<string>):
    (r: Option<seq<seq<Token>>>)
    ensures r.Some? <==> forall i :: 0 <= i < |texts| ==> pinyin(texts[i]).Some?
    ensures r.Some? ==> |r.value| == |texts| && forall i :: 0 <= i < |texts| ==>
              r.value[i] == LocalTokens(texts[i], segment(texts[i]), pinyin(texts[i]).value)
  {
    if forall i :: 0 <= i < |texts| ==> pinyin(texts[i]).Some?
    then Some(seq(|texts|, i requires 0 <= i < |texts| && pinyin(texts[i]).Some? =>
                LocalTokens(texts[i], segment(texts[i]), pinyin(texts[i]).value)))
    else None
  }

  function Analyses(analyzer: Analyzer, texts: seq<string>, size: Positive): Option<seq<seq<Token>>> {
    match analyzer
    case Batched(call) => Collect(call, texts, size, Starts(|texts|, size, 0))
    case Local(segment, pinyin) => LocalAnalyses(segment, pinyin, texts)
  }

  method AnalyzeSubtitles(analyzer: Analyzer, texts: seq<string>, size: Positive)
    returns (r: Option<seq<seq<Token>>>, reports: seq<real>)
    ensures r == Analyses(analyzer, texts, size)
    ensures ReportsOf(reports, AnalysisReports(analyzer, |texts|, size), r.Some?)
  {
    match analyzer
    case Batched(call) =>
      r, reports := CollectChunks(call, texts, size, 0.4, 0.4);
    case Local(segment, pinyin) =>
      r := LocalAnalyses(segment, pinyin, texts);
      reports := if r.Some? then [Report(0.8)] else [];
  }

  // ---------------------------------------------------------------- enriching one line

  /** The analysed pinyin by (start, end); a later token at the same place would win. */
  function PinyinByPosition(spans: seq<Span>, analysis: seq<Token>): map<(nat, nat), Option<string>>
    requires |spans| == |analysis|
  {
    if spans == [] then map[]
    else
      var n := |spans| - 1;
      PinyinByPosition(spans[..n], analysis[..n])[(spans[n].start, spans[n].end) := analysis[n].pinyin]
  }

  /** `a or b` on optional strings. */
  function OrElse(a: Option<string>, b: Option<string>): Option<string> {
    if a.Some? && a.value != "" then a else b
  }

  function EnrichToken(p: Providers, context: string, span: Span, contextual: Option<string>): Option<TokenRow> {
    match p.dictionary
    case None => Some(TokenRow(span.text, contextual, None, span.start, span.end))
    case Some(lookup) =>
      var entry := lookup(span.text, context);
      if entry.None? then None
      else Some(TokenRow(span.text, OrElse(contextual, entry.value.pinyin), Some(entry.value.meaning), span.start, span.end))
  }

  function EnrichTokens(p: Providers, context: string, spans: seq<Span>, at: map<(nat, nat), Option<string>>):
    Option<seq<TokenRow>>
  {
    if spans == [] then Some([])
    else
      var key := (spans[0].start, spans[0].end);
      var first := EnrichToken(p, context, spans[0], if key in at then at[key] else None);
      if first.None? then None else Prepend([first.value], EnrichTokens(p, context, spans[1..], at))
  }

  function EnrichAnalyzed(p: Providers, context: string, analysis: seq<Token>): Option<seq<TokenRow>> {
    var spans := Located(context, NlpAnalysis.Texts(analysis), 0);
    LocatedInOrder(context, NlpAnalysis.Texts(analysis), 0);
    EnrichTokens(p, context, spans, PinyinByPosition(spans, analysis))
  }

  function Meanings(strip: string -> string, tokens: seq<TokenRow>): seq<string> {
    if tokens == [] then []
    else (if tokens[0].meaning.Some? && strip(tokens[0].meaning.value) != "" then [tokens[0].meaning.value] else [])
         + Meanings(strip, tokens[1..])
  }

  /** A placeholder translation gives way to the tokens' meanings, if there are any. */
  function TranslationOrGloss(p: Providers, translation: string, text: string, tokens: seq<TokenRow>): string {
    if p.strip(translation) != "[" + p.target + "] " + text then translation
    else
      var meanings := Meanings(p.strip, tokens);
      if meanings == [] then translation else JoinWith(meanings, " / ")
  }

  // ---------------------------------------------------------------- the batch

  function WithText(rows: seq<SubtitleRow>): seq<SubtitleRow> {
    if rows == [] then []
    else (if rows[0].text != "" then [rows[0]] else []) + WithText(rows[1..])
  }

  function TextsOf(rows: seq<SubtitleRow>): seq<string> {
    seq(|rows|, i requires 0 <= i < |rows| => rows[i].text)
  }

  function MakeLine(p: Providers, row: SubtitleRow, translation: string, analysis: seq<Token>): Option<ProcessedLine> {
    var tokens := EnrichAnalyzed(p, row.text, analysis);
    if tokens.None? then None
    else Some(ProcessedLine(row.sequence, row.start, row.end, row.text,
                            TranslationOrGloss(p, translation, row.text, tokens.value), tokens.value))
  }

  /** zip(rows, translations, analyses, strict=True), line by line. */
  function MakeLines(p: Providers, rows: seq<SubtitleRow>, translations: seq<string>, analyses: seq<seq<Token>>):
    Option<seq<ProcessedLine>>
  {
    if rows == [] && translations == [] && analyses == [] then Some([])
    else if rows == [] || translations == [] || analyses == [] then None
    else
      var first := MakeLine(p, rows[0], translations[0], analyses[0]);
      if first.None? then None
      else Prepend([first.value], MakeLines(p, rows[1..], translations[1..], analyses[1..]))
  }

  /** What processing a batch returns, None when it raises. */
  function ProcessedLines(subtitles: seq<SubtitleRow>, p: Providers, size: Positive): Option<seq<ProcessedLine>> {
    var rows := WithText(subtitles);
    var texts := TextsOf(rows);
    var translations := Collect(p.translate, texts, size, Starts(|texts|, size, 0));
    if translations.None? then None
    else
      var analyses := Analyses(p.analyzer, texts, size);
      if analyses.None? then None else MakeLines(p, rows, translations.value, analyses.value)
  }

  /** The three stages in order, up to the first that raises; the reports never fall. */
  method ProcessSubtitleBatch(subtitles: seq<SubtitleRow>, p: Providers, size: Positive)
    returns (r: Option<seq<ProcessedLine>>, reports: seq<real>)
    ensures r == ProcessedLines(subtitles, p, size)
    ensures ReportsOf(reports, BatchReports(p.analyzer, |WithText(subtitles)|, size), r.Some?)
    ensures Steady(reports, 0.05, 0.96)
  {
    var rows := WithText(subtitles);
    var texts := TextsOf(rows);
    ghost var chunks := ChunksOf(|rows|, size);
    BatchIsSteady(p.analyzer, |rows|, size);
    hide Collect, Starts, Analyses, MakeLines, StageReports, AnalysisReports, Steady, ChunksOf, WithText, ReportsOf;
    var translations, translating := CollectChunks(p.translate, texts, size, 0.05, 0.35);
    var analyses, segmenting := None, [];
    var saving := [];
    r := None;
    if translations.Some? {
      analyses, segmenting := AnalyzeSubtitles(p.analyzer, texts, size);
      if analyses.Some? {
        r, saving := MakeLinesInOrder(p, rows, translations.value, analyses.value);
      }
    }
    NoReports(AnalysisReports(p.analyzer, |rows|, size));
    NoReports(StageReports(0.8, 0.16, |rows|));
    ThreeStages(translating, segmenting, saving, StageReports(0.05, 0.35, chunks), AnalysisReports(p.analyzer, |rows|, size),
                StageReports(0.8, 0.16, |rows|), translations.Some?, analyses.Some?, r.Some?);
    reports := translating + segmenting + saving;
    PrefixIsSteady(reports, BatchReports(p.analyzer, |rows|, size), r.Some?, 0.05, 0.96);
  }

  lemma NoReports(all: seq<real>)
    ensures ReportsOf([], all, false)
  {
  }

  /** The loop that builds the lines, reporting after each. */
  method MakeLinesInOrder(p: Providers, rows: seq<SubtitleRow>, translations: seq<string>, analyses: seq<seq<Token>>)
    returns (r: Option<seq<ProcessedLine>>, reports: seq<real>)
    ensures r == MakeLines(p, rows, translations, analyses)
    ensures ReportsOf(reports, StageReports(0.8, 0.16, |rows|), r.Some?)
  {
    hide StageReports, StageProgress, Report, MakeLine;
    var lines: seq<ProcessedLine> := [];
    reports := [];
    var j := 0;
    assert rows[0..] == rows && translations[0..] == translations && analyses[0..] == analyses;
    PrependNothing(MakeLines(p, rows, translations, analyses));
    StageLength(0.8, 0.16, |rows|);
    while j < |rows| && j < |translations| && j < |analyses|
      invariant j <= |rows| && j <= |translations| && j <= |analyses|
      invariant MakeLines(p, rows, translations, analyses)
             == Prepend(lines, MakeLines(p, rows[j..], translations[j..], analyses[j..]))
      invariant |reports| == j && reports == StageReports(0.8, 0.16, |rows|)[..j]
    {
      var line := MakeLine(p, rows[j], translations[j], analyses[j]);
      if line.None? {
        return None, reports;
      }
      MakeLinesStep(p, rows[j..], translations[j..], analyses[j..], lines, line.value);
      assert rows[j..][1..] == rows[j + 1..] && translations[j..][1..] == translations[j + 1..];
      assert analyses[j..][1..] == analyses[j + 1..];
      NextReport(0.8, 0.16, reports, |rows|);
      lines := lines + [line.value];
      reports := reports + [Report(StageProgress(0.8, 0.16, j + 1, |rows|))];
      j := j + 1;
    }
    assert lines + [] == lines;
    r := if j == |rows| && j == |translations| && j == |analyses| then Some(lines) else None;
  }

  lemma MakeLinesStep(p: Providers, rows: seq<SubtitleRow>, translations: seq<string>, analyses: seq<seq<Token>>,
                      lines: seq<ProcessedLine>, line: ProcessedLine)
    requires rows != [] && translations != [] && analyses != []
    requires MakeLine(p, rows[0], translations[0], analyses[0]) == Some(line)
    ensures Prepend(lines, MakeLines(p, rows, translations, analyses))
         == Prepend(lines + [line], MakeLines(p, rows[1..], translations[1..], analyses[1..]))
  {
    hide MakeLine;
    var rest := MakeLines(p, rows[1..], translations[1..], analyses[1..]);
    assert MakeLines(p, rows, translations, analyses) == Prepend([line], rest);
    hide MakeLines;
    PrependBoth(lines, line, rest);
  }

  lemma PrependBoth<T>(first: seq<T>, next: T, rest: Option<seq<T>>)
    ensures Prepend(first, Prepend([next], rest)) == Prepend(first + [next], rest)
  {
    assert rest.Some? ==> first + ([next] + rest.value) == (first + [next]) + rest.value;
  }

  // ---------------------------------------------------------------- every line from its own text

  lemma {:induction false} MakeLinesPerLine(p: Providers, rows: seq<SubtitleRow>, translations: seq<string>,
                                            analyses: seq<seq<Token>>)
    ensures var lines := MakeLines(p, rows, translations, analyses);
            && (lines.Some? <==>
                  && |rows| == |translations| == |analyses|
                  && forall j :: 0 <= j < |rows| ==> MakeLine(p, rows[j], translations[j], analyses[j]).Some?)
            && (lines.Some? ==>
                  && |lines.value| == |rows|
                  && forall j :: 0 <= j < |rows| ==>
                       MakeLine(p, rows[j], translations[j], analyses[j]) == Some(lines.value[j]))
  {
    if rows != [] && translations != [] && analyses != [] {
      MakeLinesPerLine(p, rows[1..], translations[1..], analyses[1..]);
    }
  }

  // ---------------------------------------------------------------- what a line is made of, token by token

  ghost function TextColumn(rows: seq<SubtitleRow>): seq<string> {
    seq(|rows|, i requires 0 <= i < |rows| => rows[i].text)
  }

  ghost function Words(analysis: seq<Token>): seq<string> {
    seq(|analysis|, k requires 0 <= k < |analysis| => analysis[k].text)
  }

  /** The local analysis of a text: the words as segmented, each where it is found, with the pinyin spoken there. */
  ghost predicate LocallyAnalysed(text: string, words: seq<string>, slots: seq<Slot>, analysis: seq<Token>) {
    && |analysis| == |words|
    && exists spans :: FoundInTurn(text, words, spans, 0) && SpokenInPlace(words, slots, spans, analysis)
  }

  ghost predicate SpokenInPlace(words: seq<string>, slots: seq<Slot>, spans: seq<Span>, analysis: seq<Token>) {
    |analysis| == |words| == |spans| && forall k :: 0 <= k < |words| ==>
      analysis[k].text == words[k] && SpokenAs(slots, spans[k].start, spans[k].end, analysis[k].pinyin)
  }

  /** An analysis that the text itself received: in the call that contained it, or from its own local segmentation. */
  ghost predicate OwnAnalysis(analyzer: Analyzer, texts: seq<string>, size: Positive, j: nat, analysis: seq<Token>)
    requires j < |texts|
  {
    match analyzer
    case Batched(call) => FromOwnCall(call, texts, size, j, analysis)
    case Local(segment, pinyin) =>
      pinyin(texts[j]).Some? && LocallyAnalysed(texts[j], segment(texts[j]), pinyin(texts[j]).value, analysis)
  }

  ghost predicate OwnTranslation(p: Providers, texts: seq<string>, size: Positive, j: nat, translation: string) {
    FromOwnCall(p.translate, texts, size, j, translation)
  }

  /** The last token with the same place; only tokens without characters can share one. */
  ghost predicate LastAt(spans: seq<Span>, k: nat, last: nat) {
    && k <= last < |spans|
    && spans[last].start == spans[k].start && spans[last].end == spans[k].end
    && (forall m :: last < m < |spans| ==> spans[m].start != spans[k].start || spans[m].end != spans[k].end)
  }

  /** The analysed pinyin if there is one, and otherwise the dictionary's; and the dictionary's meaning. */
  ghost predicate LookedUp(p: Providers, context: string, word: string, pinyin: Option<string>, row: TokenRow) {
    match p.dictionary
    case None => row.pinyin == pinyin && row.meaning == None
    case Some(lookup) =>
      && lookup(word, context).Some?
      && row.meaning == Some(lookup(word, context).value.meaning)
      && row.pinyin == if pinyin.Some? && pinyin.value != "" then pinyin else lookup(word, context).value.pinyin
  }

  /** Stored token k: the analysed word at its place, with the pinyin analysed for this place. */
  ghost predicate OwnToken(p: Providers, context: string, spans: seq<Span>, analysis: seq<Token>, k: nat, row: TokenRow)
    requires k < |analysis| == |spans|
  {
    && row.text == analysis[k].text
    && row.start == spans[k].start && row.end == spans[k].end
    && exists last: nat :: LastAt(spans, k, last) && LookedUp(p, context, row.text, analysis[last].pinyin, row)
  }

  /** The stored tokens of a line are those of its analysis, one by one. */
  ghost predicate EnrichedFrom(p: Providers, context: string, analysis: seq<Token>, rows: seq<TokenRow>) {
    exists spans :: FoundInTurn(context, Words(analysis), spans, 0) && OwnTokens(p, context, spans, analysis, rows)
  }

  ghost predicate OwnTokens(p: Providers, context: string, spans: seq<Span>, analysis: seq<Token>, rows: seq<TokenRow>) {
    |rows| == |analysis| == |spans| && forall k :: 0 <= k < |rows| ==> OwnToken(p, context, spans, analysis, k, rows[k])
  }

  /**
   The translation, unless it is the placeholder of the text, whose place the tokens' meanings take: those that are more
   than white space, in order, if there are any.
   */
  ghost predicate GlossedFrom(p: Providers, text: string, translation: string, tokens: seq<TokenRow>, stored: string) {
    if p.strip(translation) != "[" + p.target + "] " + text then stored == translation
    else
      exists at, meanings ::
        && Positions(at, tokens, (token: TokenRow) => token.meaning.Some? && p.strip(token.meaning.value) != "")
        && MeantAt(meanings, tokens, at)
        && stored == if meanings == [] then translation else Spaced(meanings, " / ")
  }

  ghost predicate MeantAt(meanings: seq<string>, tokens: seq<TokenRow>, at: seq<nat>) {
    |meanings| == |at| && forall i :: 0 <= i < |at| ==> at[i] < |tokens| && tokens[at[i]].meaning == Some(meanings[i])
  }

  /** A line that says of this subtitle what this translation and this analysis say of its text. */
  ghost predicate MadeFrom(p: Providers, row: SubtitleRow, translation: string, analysis: seq<Token>, line: ProcessedLine) {
    && line.sequence == row.sequence && line.start == row.start && line.end == row.end && line.text == row.text
    && EnrichedFrom(p, row.text, analysis, line.tokens)
    && GlossedFrom(p, row.text, translation, line.tokens, line.translation)
  }

  /** A line made from what its own text received. */
  ghost predicate OwnLine(rows: seq<SubtitleRow>, p: Providers, size: Positive, j: nat, line: ProcessedLine)
    requires j < |rows|
  {
    exists translation, analysis ::
      && OwnTranslation(p, TextColumn(rows), size, j, translation)
      && OwnAnalysis(p.analyzer, TextColumn(rows), size, j, analysis)
      && MadeFrom(p, rows[j], translation, analysis, line)
  }

  // ---------------------------------------------------------------- local analyses

  lemma LocalTokensSpoken(text: string, words: seq<string>, slots: seq<Slot>)
    ensures LocallyAnalysed(text, words, slots, LocalTokens(text, words, slots))
  {
    var spans := Located(text, words, 0);
    LocatedInTurn(text, words, 0);
    LocatedInOrder(text, words, 0);
    hide SpokenAs, TokenPinyin;
    forall k | 0 <= k < |words| ensures SpokenAs(slots, spans[k].start, spans[k].end, LocalTokens(text, words, slots)[k].pinyin) {
      TokenIsSpoken(slots, spans[k].start, spans[k].end);
    }
    assert SpokenInPlace(words, slots, spans, LocalTokens(text, words, slots));
  }

  ghost predicate AnalyzerKeepsLength(analyzer: Analyzer) {
    analyzer.Batched? ==> KeepsLength(analyzer.call)
  }

  /** Every text is analysed: all the calls return, or all the local readings. */
  ghost predicate AllAnalysed(analyzer: Analyzer, texts: seq<string>, size: Positive) {
    match analyzer
    case Batched(call) => AllReturn(call, texts, size, 0)
    case Local(segment, pinyin) => forall j :: 0 <= j < |texts| ==> pinyin(texts[j]).Some?
  }

  lemma AnalysesAnswerEveryText(analyzer: Analyzer, texts: seq<string>, size: Positive)
    requires AnalyzerKeepsLength(analyzer)
    ensures var all := Analyses(analyzer, texts, size);
            && (all.Some? <==> AllAnalysed(analyzer, texts, size))
            && (all.Some? ==>
                  && |all.value| == |texts|
                  && forall j :: 0 <= j < |texts| ==> OwnAnalysis(analyzer, texts, size, j, all.value[j]))
  {
    hide FromOwnCall, LocallyAnalysed, LocalTokens, Collect;
    match analyzer
    case Batched(call) =>
      CollectAnswersEveryText(call, texts, size);
    case Local(segment, pinyin) =>
      if Analyses(analyzer, texts, size).Some? {
        forall j | 0 <= j < |texts| ensures OwnAnalysis(analyzer, texts, size, j, Analyses(analyzer, texts, size).value[j]) {
          LocalTokensSpoken(texts[j], segment(texts[j]), pinyin(texts[j]).value);
        }
      }
  }

  // ---------------------------------------------------------------- enriched tokens

  lemma {:induction false} LastPlace(spans: seq<Span>, k: nat) returns (last: nat)
    requires k < |spans|
    ensures LastAt(spans, k, last)
    decreases |spans|
  {
    var n := |spans| - 1;
    if spans[n].start == spans[k].start && spans[n].end == spans[k].end {
      last := n;
    } else {
      last := LastPlace(spans[..n], k);
    }
  }

  /** The map by place holds the pinyin of the last token at a place. */
  lemma {:induction false} PinyinIsLast(spans: seq<Span>, analysis: seq<Token>, k: nat, last: nat)
    requires |spans| == |analysis| && LastAt(spans, k, last)
    ensures var key := (spans[k].start, spans[k].end);
            key in PinyinByPosition(spans, analysis) && PinyinByPosition(spans, analysis)[key] == analysis[last].pinyin
    decreases |spans|
  {
    var n := |spans| - 1;
    if last < n {
      PinyinIsLast(spans[..n], analysis[..n], k, last);
    }
  }

  lemma {:induction false} EnrichTokensPerToken(p: Providers, context: string, spans: seq<Span>,
                                                at: map<(nat, nat), Option<string>>)
    requires forall k :: 0 <= k < |spans| ==> (spans[k].start, spans[k].end) in at
    ensures var rows := EnrichTokens(p, context, spans, at);
            && (rows.Some? <==> forall k :: 0 <= k < |spans| ==>
                  EnrichToken(p, context, spans[k], at[(spans[k].start, spans[k].end)]).Some?)
            && (rows.Some? ==>
                  && |rows.value| == |spans|
                  && forall k :: 0 <= k < |spans| ==>
                       EnrichToken(p, context, spans[k], at[(spans[k].start, spans[k].end)]) == Some(rows.value[k]))
  {
    if spans != [] {
      hide EnrichToken;
      EnrichTokensPerToken(p, context, spans[1..], at);
    }
  }

  lemma TokenLookedUp(p: Providers, context: string, span: Span, pinyin: Option<string>)
    ensures EnrichToken(p, context, span, pinyin).Some? <==> p.dictionary.None? || p.dictionary.value(span.text, context).Some?
    ensures EnrichToken(p, context, span, pinyin).Some? ==>
              var row := EnrichToken(p, context, span, pinyin).value;
              row.text == span.text && row.start == span.start && row.end == span.end
              && LookedUp(p, context, span.text, pinyin, row)
  {
  }

  ghost predicate AllKnown(p: Providers, context: string, words: seq<string>) {
    p.dictionary.Some? ==> forall k :: 0 <= k < |words| ==> p.dictionary.value(words[k], context).Some?
  }

  /**
   Stored token k is analysed token k, whatever the analysis, at the place where it is found; its pinyin is the analysed
   one, or the dictionary's where that is missing, and its meaning the dictionary's. The map by place mixes up nothing but
   tokens without characters that share a place.
   */
  lemma TokensKeepTheirOwnPinyin(p: Providers, context: string, analysis: seq<Token>)
    ensures EnrichAnalyzed(p, context, analysis).Some? <==> AllKnown(p, context, Words(analysis))
    ensures EnrichAnalyzed(p, context, analysis).Some? ==>
              var rows, spans := EnrichAnalyzed(p, context, analysis).value, Located(context, Words(analysis), 0);
              && EnrichedFrom(p, context, analysis, rows)
              && OwnTokens(p, context, spans, analysis, rows)
              && forall k :: 0 <= k < |analysis| && analysis[k].text != "" ==>
                   LookedUp(p, context, analysis[k].text, analysis[k].pinyin, rows[k])
  {
    var spans := Located(context, Words(analysis), 0);
    assert NlpAnalysis.Texts(analysis) == Words(analysis);
    LocatedInOrder(context, Words(analysis), 0);
    LocatedInTurn(context, Words(analysis), 0);
    hide FoundInTurn, Located, LookedUp, OwnTokens, Words, EnrichTokens, PinyinByPosition;
    SpansEnriched(p, context, spans, analysis);
  }

  lemma SpansEnriched(p: Providers, context: string, spans: seq<Span>, analysis: seq<Token>)
    requires |spans| == |analysis| && InOrder(spans, 0)
    requires forall k :: 0 <= k < |spans| ==> spans[k].text == analysis[k].text && spans[k].end == spans[k].start + |analysis[k].text|
    ensures var rows := EnrichTokens(p, context, spans, PinyinByPosition(spans, analysis));
            && (rows.Some? <==> AllKnown(p, context, Words(analysis)))
            && (rows.Some? ==> OwnTokens(p, context, spans, analysis, rows.value))
            && (rows.Some? ==> forall k :: 0 <= k < |analysis| && analysis[k].text != "" ==>
                  LookedUp(p, context, analysis[k].text, analysis[k].pinyin, rows.value[k]))
  {
    var at := PinyinByPosition(spans, analysis);
    forall k | 0 <= k < |spans| ensures (spans[k].start, spans[k].end) in at {
      var last := LastPlace(spans, k);
      PinyinIsLast(spans, analysis, k, last);
    }
    EnrichTokensPerToken(p, context, spans, at);
    hide EnrichTokens, EnrichToken, PinyinByPosition, LookedUp;
    var rows := EnrichTokens(p, context, spans, at);
    forall k | 0 <= k < |spans|
      ensures EnrichToken(p, context, spans[k], at[(spans[k].start, spans[k].end)]).Some?
              <==> p.dictionary.None? || p.dictionary.value(Words(analysis)[k], context).Some?
      ensures rows.Some? ==> OwnToken(p, context, spans, analysis, k, rows.value[k])
      ensures rows.Some? && analysis[k].text != "" ==> LookedUp(p, context, analysis[k].text, analysis[k].pinyin, rows.value[k])
    {
      var last := LastPlace(spans, k);
      PinyinIsLast(spans, analysis, k, last);
      TokenLookedUp(p, context, spans[k], at[(spans[k].start, spans[k].end)]);
    }
  }

  // ---------------------------------------------------------------- glosses

  lemma {:induction false} MeaningsAre(strip: string -> string, tokens: seq<TokenRow>) returns (at: seq<nat>)
    ensures Positions(at, tokens, (token: TokenRow) => token.meaning.Some? && strip(token.meaning.value) != "")
    ensures MeantAt(Meanings(strip, tokens), tokens, at)
  {
    if tokens == [] {
      at := [];
      NothingMeant(strip);
    } else {
      hide Positions, MeantAt, Meanings;
      MeaningsFirst(strip, tokens);
      var wanted := (token: TokenRow) => token.meaning.Some? && strip(token.meaning.value) != "";
      var later := MeaningsAre(strip, tokens[1..]);
      var shifted := seq(|later|, i requires 0 <= i < |later| => later[i] + 1);
      LaterPositions(later, shifted, tokens, wanted);
      at := if wanted(tokens[0]) then [0] + shifted else shifted;
      MeantLater(tokens, Meanings(strip, tokens[1..]), later, shifted);
    }
  }

  lemma NothingMeant(strip: string -> string)
    ensures Positions([], [], (token: TokenRow) => token.meaning.Some? && strip(token.meaning.value) != "")
    ensures MeantAt(Meanings(strip, []), [], [])
  {
  }

  lemma MeaningsFirst(strip: string -> string, tokens: seq<TokenRow>)
    requires tokens != []
    ensures Meanings(strip, tokens) ==
            if tokens[0].meaning.Some? && strip(tokens[0].meaning.value) != "" then [tokens[0].meaning.value] + Meanings(strip, tokens[1..])
            else Meanings(strip, tokens[1..])
  {
    assert [] + Meanings(strip, tokens[1..]) == Meanings(strip, tokens[1..]);
  }

  lemma MeantLater(tokens: seq<TokenRow>, meanings: seq<string>, later: seq<nat>, shifted: seq<nat>)
    requires tokens != [] && MeantAt(meanings, tokens[1..], later)
    requires |shifted| == |later| && forall i :: 0 <= i < |later| ==> shifted[i] == later[i] + 1
    ensures MeantAt(meanings, tokens, shifted)
    ensures tokens[0].meaning.Some? ==> MeantAt([tokens[0].meaning.value] + meanings, tokens, [0] + shifted)
  {
  }

  lemma TranslationIsGlossed(p: Providers, translation: string, text: string, tokens: seq<TokenRow>)
    ensures GlossedFrom(p, text, translation, tokens, TranslationOrGloss(p, translation, text, tokens))
  {
    var at := MeaningsAre(p.strip, tokens);
    JoinIsSpaced(Meanings(p.strip, tokens), " / ");
    hide Meanings, JoinWith, Spaced, Positions, MeantAt;
  }

  lemma LineIsMade(p: Providers, row: SubtitleRow, translation: string, analysis: seq<Token>)
    ensures MakeLine(p, row, translation, analysis).Some? <==> AllKnown(p, row.text, Words(analysis))
    ensures MakeLine(p, row, translation, analysis).Some? ==>
              MadeFrom(p, row, translation, analysis, MakeLine(p, row, translation, analysis).value)
  {
    TokensKeepTheirOwnPinyin(p, row.text, analysis);
    hide EnrichAnalyzed, EnrichedFrom, TranslationOrGloss, GlossedFrom, OwnTokens, AllKnown, Located;
    if EnrichAnalyzed(p, row.text, analysis).Some? {
      TranslationIsGlossed(p, translation, row.text, EnrichAnalyzed(p, row.text, analysis).value);
    }
  }

  // ---------------------------------------------------------------- the batch as a whole

  lemma {:induction false} WithTextSelects(rows: seq<SubtitleRow>)
    ensures Selects(WithText(rows), rows, (row: SubtitleRow) => row.text != "")
  {
    hide Selects;
    if rows == [] {
      SelectsNone((row: SubtitleRow) => row.text != "");
    } else {
      WithTextSelects(rows[1..]);
      SelectsCons(WithText(rows[1..]), rows, (row: SubtitleRow) => row.text != "");
      assert [] + WithText(rows[1..]) == WithText(rows[1..]);
    }
  }

  lemma ColumnIs(rows: seq<SubtitleRow>)
    ensures TextsOf(rows) == TextColumn(rows)
  {
  }

  /**
   For every chunk size and every list of subtitles: when the providers answer one entry per text, a processed batch
   has one line per subtitle with text, in order; each line carries its subtitle's own number, times and text, and is made
   from the translation and analysis that its own text received.
   */
  lemma LinesKeepTheirOwnText(subtitles: seq<SubtitleRow>, p: Providers, size: Positive)
    requires KeepsLength(p.translate) && AnalyzerKeepsLength(p.analyzer)
    requires ProcessedLines(subtitles, p, size).Some?
    ensures var rows, lines := WithText(subtitles), ProcessedLines(subtitles, p, size).value;
            && Selects(rows, subtitles, (row: SubtitleRow) => row.text != "")
            && |lines| == |rows| && forall j :: 0 <= j < |rows| ==> OwnLine(rows, p, size, j, lines[j])
  {
    var rows, lines := WithText(subtitles), ProcessedLines(subtitles, p, size).value;
    var texts := TextsOf(rows);
    var translations := Collect(p.translate, texts, size, Starts(|texts|, size, 0)).value;
    var analyses := Analyses(p.analyzer, texts, size).value;
    WithTextSelects(subtitles);
    ColumnIs(rows);
    CollectAnswersEveryText(p.translate, texts, size);
    AnalysesAnswerEveryText(p.analyzer, texts, size);
    MakeLinesPerLine(p, rows, translations, analyses);
    hide MakeLine, MakeLines, Collect, Starts, Analyses, FromOwnCall, OwnAnalysis, MadeFrom, WithText, Selects;
    forall j | 0 <= j < |rows| ensures OwnLine(rows, p, size, j, lines[j]) {
      assert OwnTranslation(p, texts, size, j, translations[j]) && OwnAnalysis(p.analyzer, texts, size, j, analyses[j]);
      assert MakeLine(p, rows[j], translations[j], analyses[j]) == Some(lines[j]);
      LineIsMade(p, rows[j], translations[j], analyses[j]);
    }
  }

  /** Every lookup for a word of the text's own analysis returns. */
  ghost predicate OwnWordsKnown(p: Providers, texts: seq<string>, size: Positive, j: nat)
    requires j < |texts|
  {
    forall analysis :: OwnAnalysis(p.analyzer, texts, size, j, analysis) ==> AllKnown(p, texts[j], Words(analysis))
  }

  /** A text has received one analysis only, as far as its words go. */
  lemma OwnWordsUnique(analyzer: Analyzer, texts: seq<string>, size: Positive, j: nat, a: seq<Token>, b: seq<Token>)
    requires j < |texts| && OwnAnalysis(analyzer, texts, size, j, a) && OwnAnalysis(analyzer, texts, size, j, b)
    ensures Words(a) == Words(b)
  {
    match analyzer
    case Local(segment, pinyin) =>
      assert Words(a) == segment(texts[j]) == Words(b);
    case Batched(call) =>
      hide AskedFrom;
      var s: nat :| AnsweredIn(call, texts, size, s, j, a);
      var t: nat :| AnsweredIn(call, texts, size, t, j, b);
      if s < t {
        NextMultiple(s, size);
        assert false;
      }
      if t < s {
        NextMultiple(t, size);
        assert false;
      }
  }

  /**
   With such providers the strict zip never fails: a batch raises exactly when the call for some chunk of its texts does,
   or a local reading, or a dictionary lookup for a word of some text's own analysis.
   */
  lemma {:induction false} RaisesOnlyWithAProvider(subtitles: seq<SubtitleRow>, p: Providers, size: Positive)
    requires KeepsLength(p.translate) && AnalyzerKeepsLength(p.analyzer)
    ensures var texts := TextColumn(WithText(subtitles));
            ProcessedLines(subtitles, p, size).Some? <==>
              && AllReturn(p.translate, texts, size, 0)
              && AllAnalysed(p.analyzer, texts, size)
              && forall j :: 0 <= j < |texts| ==> OwnWordsKnown(p, texts, size, j)
  {
    var rows := WithText(subtitles);
    var texts := TextsOf(rows);
    var translations := Collect(p.translate, texts, size, Starts(|texts|, size, 0));
    var analyses := Analyses(p.analyzer, texts, size);
    ColumnIs(rows);
    CollectAnswersEveryText(p.translate, texts, size);
    AnalysesAnswerEveryText(p.analyzer, texts, size);
    hide Collect, Starts, MakeLine, MakeLines, Analyses, KeepsLength, AllReturn, AllAnalysed, OwnAnalysis, AllKnown, Words, WithText;
    if translations.Some? && analyses.Some? {
      MakeLinesPerLine(p, rows, translations.value, analyses.value);
      forall j | 0 <= j < |rows|
        ensures MakeLine(p, rows[j], translations.value[j], analyses.value[j]).Some? <==> OwnWordsKnown(p, texts, size, j)
      {
        LineIsMade(p, rows[j], translations.value[j], analyses.value[j]);
        OwnWordsAre(p, texts, size, j, analyses.value[j]);
      }
    }
  }

  lemma OwnWordsAre(p: Providers, texts: seq<string>, size: Positive, j: nat, analysis: seq<Token>)
    requires j < |texts| && OwnAnalysis(p.analyzer, texts, size, j, analysis)
    ensures OwnWordsKnown(p, texts, size, j) <==> AllKnown(p, texts[j], Words(analysis))
  {
    hide OwnAnalysis, AllKnown, Words;
    forall other | OwnAnalysis(p.analyzer, texts, size, j, other) ensures Words(other) == Words(analysis) {
      OwnWordsUnique(p.analyzer, texts, size, j, analysis, other);
    }
  }

  // ---------------------------------------------------------------- providers that never raise

  /** Every text is its own translation, and no text has tokens. */
  const ECHO := Providers((texts: seq<string>) => Some(texts),
                          Local((text: string) => [], (text: string) => Some(seq(|text|, i => None))),
                          None, (text: string) => text, "zh")

  /** There are providers with which no batch ever raises. */
  lemma EchoNeverRaises(subtitles: seq<SubtitleRow>, size: Positive)
    ensures ProcessedLines(subtitles, ECHO, size).Some?
  {
    hide OwnAnalysis;
    RaisesOnlyWithAProvider(subtitles, ECHO, size);
  }
}
