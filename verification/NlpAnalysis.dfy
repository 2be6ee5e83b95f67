/**
 Checking a model's linguistic analysis of several sentences before it is used
 (backend/app/services/subtitle_nlp_service.py).
 */
module NlpAnalysis {
  import opened Common
  import opened Segmentation

  datatype Token = Token(text: string, pinyin: Option<string>)

  datatype Sentence = Sentence(id: string, tokens: seq<Token>)

  datatype NlpError = IdsDoNotMatch | NotCovered(sentence: nat) | PinyinMissing(sentence: nat)

  /** What Unicode says: `lexical` is neither white space nor punctuation, `strip` trims white space. */
  datatype Charset = Charset(lexical: char -> bool, strip: string -> string)

  // ---------------------------------------------------------------- sentence ids

  function Digit(n: nat): char
    requires n < 10
  {
    ['0', '1', '2', '3', '4', '5', '6', '7', '8', '9'][n]
  }

  /** str(n). */
  function Decimal(n: nat): string {
    if n < 10 then [Digit(n)] else Decimal(n / 10) + [Digit(n % 10)]
  }

  lemma {:induction false} DecimalInjective(m: nat, n: nat)
    requires Decimal(m) == Decimal(n)
    ensures m == n
    decreases m
  {
    DecimalEnds(m);
    DecimalEnds(n);
    hide Decimal;
    if m >= 10 && n >= 10 {
      DecimalInjective(m / 10, n / 10);
    }
  }

  lemma DecimalEnds(n: nat)
    ensures var x := Decimal(n);
            && |x| > 0 && x[|x| - 1] == Digit(n % 10)
            && (n < 10 <==> |x| == 1)
            && (n >= 10 ==> x[..|x| - 1] == Decimal(n / 10))
  {
    assert |Decimal(n / 10)| > 0;
  }

  function ValueOf(digits: string): int {
    if digits == "" then 0 else 10 * ValueOf(digits[..|digits| - 1]) + (digits[|digits| - 1] as int - '0' as int)
  }

  lemma DigitIs(n: nat)
    requires n < 10
    ensures '0' <= Digit(n) <= '9' && Digit(n) as int - '0' as int == n
  {
  }

  /** An id is the number in decimal digits, without leading zeros. */
  lemma {:induction false} DecimalIsDecimal(n: nat)
    ensures Decimal(n) != "" && ValueOf(Decimal(n)) == n && (Decimal(n)[0] == '0' ==> n == 0)
    ensures forall c :: c in Decimal(n) ==> '0' <= c <= '9'
  {
    DigitIs(n % 10);
    hide Digit;
    if n >= 10 {
      DecimalIsDecimal(n / 10);
      assert Decimal(n)[..|Decimal(n)| - 1] == Decimal(n / 10);
    } else {
      assert Decimal(n)[..0] == "";
    }
  }

  function ExpectedIds(n: nat): set<string> {
    set i | 0 <= i < n :: Decimal(i)
  }

  lemma NewId(n: nat)
    ensures Decimal(n) !in ExpectedIds(n)
    ensures ExpectedIds(n + 1) == ExpectedIds(n) + {Decimal(n)}
  {
    forall i | 0 <= i < n ensures Decimal(i) != Decimal(n) {
      if Decimal(i) == Decimal(n) {
        DecimalInjective(i, n);
      }
    }
  }

  lemma {:induction false} ExpectedIdsCount(n: nat)
    ensures |ExpectedIds(n)| == n
  {
    if n > 0 {
      ExpectedIdsCount(n - 1);
      NewId(n - 1);
    }
  }

  // ---------------------------------------------------------------- validation

  predicate ContainsHan(text: string) {
    exists i :: 0 <= i < |text| && (0x3400 <= text[i] as int <= 0x9FFF || 0xF900 <= text[i] as int <= 0xFAFF)
  }

  function Texts(tokens: seq<Token>): seq<string> {
    seq(|tokens|, i requires 0 <= i < |tokens| => tokens[i].text)
  }

  /** The tokens spell the sentence, apart from white space and punctuation. */
  predicate Covers(chars: Charset, text: string, tokens: seq<Token>) {
    tokens != [] && Clean(text, chars.lexical) == Clean(Flatten(Texts(tokens)), chars.lexical)
  }

  predicate HasPinyin(chars: Charset, tokens: seq<Token>) {
    forall i :: 0 <= i < |tokens| && ContainsHan(tokens[i].text) ==>
      tokens[i].pinyin.Some? && chars.strip(tokens[i].pinyin.value) != ""
  }

  /** The last sentence of every id. */
  function ById(sentences: seq<Sentence>): map<string, Sentence> {
    if sentences == [] then map[]
    else
      var last := sentences[|sentences| - 1];
      ById(sentences[..|sentences| - 1])[last.id := last]
  }

  predicate IdsMatch(n: nat, sentences: seq<Sentence>) {
    |ById(sentences)| == |sentences| && ById(sentences).Keys == ExpectedIds(n)
  }

  /** The tokens answered for each requested sentence, in request order. */
  function InRequestOrder(n: nat, byId: map<string, Sentence>): (answers: seq<seq<Token>>)
    requires byId.Keys == ExpectedIds(n)
    ensures |answers| == n && forall i :: 0 <= i < n ==> Decimal(i) in byId && answers[i] == byId[Decimal(i)].tokens
  {
    seq(n, i requires 0 <= i < n => byId[Decimal(i)].tokens)
  }

  /** The first complaint about sentences from, from + 1, ..., if any. */
  function Complaint(chars: Charset, texts: seq<string>, answers: seq<seq<Token>>, from: nat): (complaint: Option<NlpError>)
    requires |answers| == |texts|
    ensures complaint != Some(IdsDoNotMatch)
    decreases |texts| - from
  {
    if from >= |texts| then None
    else if !Covers(chars, texts[from], answers[from]) then Some(NotCovered(from))
    else if !HasPinyin(chars, answers[from]) then Some(PinyinMissing(from))
    else Complaint(chars, texts, answers, from + 1)
  }

  function Validated(chars: Charset, texts: seq<string>, sentences: seq<Sentence>): Result<seq<seq<Token>>, NlpError> {
    if !IdsMatch(|texts|, sentences) then Err(IdsDoNotMatch)
    else
      var answers := InRequestOrder(|texts|, ById(sentences));
      var complaint := Complaint(chars, texts, answers, 0);
      if complaint.Some? then Err(complaint.value) else Ok(answers)
  }

  method ValidateResult(chars: Charset, texts: seq<string>, sentences: seq<Sentence>)
    returns (r: Result<seq<seq<Token>>, NlpError>)
    ensures r == Validated(chars, texts, sentences)
  {
    var byId: map<string, Sentence> := map[];
    for i := 0 to |sentences|
      invariant byId == ById(sentences[..i])
    {
      assert sentences[..i + 1][..i] == sentences[..i];
      byId := byId[sentences[i].id := sentences[i]];
    }
    assert sentences[..|sentences|] == sentences;
    if |byId| != |sentences| || byId.Keys != ExpectedIds(|texts|) {
      return Err(IdsDoNotMatch);
    }
    r := CheckSentences(chars, texts, byId);
  }

  /** The loop over the requested sentences. */
  method CheckSentences(chars: Charset, texts: seq<string>, byId: map<string, Sentence>)
    returns (r: Result<seq<seq<Token>>, NlpError>)
    requires byId.Keys == ExpectedIds(|texts|)
    ensures var answers := InRequestOrder(|texts|, byId);
            var complaint := Complaint(chars, texts, answers, 0);
            r == if complaint.Some? then Err(complaint.value) else Ok(answers)
  {
    hide Complaint, Covers, HasPinyin, ExpectedIds, Decimal, InRequestOrder;
    ghost var answers := InRequestOrder(|texts|, byId);
    NothingLeftToCheck(chars, texts, answers);
    var analyzed: seq<seq<Token>> := [];
    for i := 0 to |texts|
      invariant analyzed == answers[..i]
      invariant Complaint(chars, texts, answers, 0) == Complaint(chars, texts, answers, i)
    {
      ComplaintAt(chars, texts, answers, i);
      var tokens := byId[Decimal(i)].tokens;
      if !Covers(chars, texts[i], tokens) {
        return Err(NotCovered(i));
      }
      if !HasPinyin(chars, tokens) {
        return Err(PinyinMissing(i));
      }
      analyzed := analyzed + [tokens];
    }
    assert answers[..|texts|] == answers;
    return Ok(analyzed);
  }

  lemma NothingLeftToCheck(chars: Charset, texts: seq<string>, answers: seq<seq<Token>>)
    requires |answers| == |texts|
    ensures Complaint(chars, texts, answers, |texts|) == None
  {
  }

  lemma ComplaintAt(chars: Charset, texts: seq<string>, answers: seq<seq<Token>>, i: nat)
    requires |answers| == |texts| && i < |texts|
    ensures Complaint(chars, texts, answers, i) ==
            if !Covers(chars, texts[i], answers[i]) then Some(NotCovered(i))
            else if !HasPinyin(chars, answers[i]) then Some(PinyinMissing(i))
            else Complaint(chars, texts, answers, i + 1)
  {
    hide Covers, HasPinyin;
  }

  // ---------------------------------------------------------------- what an accepted answer is

  lemma {:induction false} ByIdKeys(sentences: seq<Sentence>)
    ensures ById(sentences).Keys == set s | s in sentences :: s.id
    ensures |ById(sentences)| <= |sentences|
    ensures forall id :: id in ById(sentences) ==> ById(sentences)[id] in sentences && ById(sentences)[id].id == id
  {
    hide ById;
    if sentences == [] {
      ByIdNone();
    } else {
      var n := |sentences| - 1;
      assert sentences == sentences[..n] + [sentences[n]];
      ByIdKeys(sentences[..n]);
      ByIdSnoc(sentences[..n], sentences[n]);
      assert ById(sentences).Keys == ById(sentences[..n]).Keys + {sentences[n].id};
    }
  }

  lemma ByIdNone()
    ensures ById([]) == map[]
  {
  }

  /** With as many keys as sentences, no two sentences share an id, so none was overwritten. */
  lemma {:induction false} ByIdExact(sentences: seq<Sentence>)
    requires |ById(sentences)| == |sentences|
    ensures forall s :: s in sentences ==> s.id in ById(sentences) && ById(sentences)[s.id] == s
  {
    hide ById;
    if sentences != [] {
      var n := |sentences| - 1;
      assert sentences == sentences[..n] + [sentences[n]];
      ByIdKeys(sentences[..n]);
      ByIdSnoc(sentences[..n], sentences[n]);
      var before := ById(sentences[..n]);
      assert ById(sentences).Keys == before.Keys + {sentences[n].id};
      assert sentences[n].id !in before;
      ByIdExact(sentences[..n]);
    }
  }

  lemma ByIdSnoc(sentences: seq<Sentence>, last: Sentence)
    ensures ById(sentences + [last]) == ById(sentences)[last.id := last]
  {
    assert (sentences + [last])[..|sentences|] == sentences;
  }

  /** There are tokens, and their word characters, one token after the other, are those of the sentence. */
  ghost predicate SpellSentence(chars: Charset, text: string, tokens: seq<Token>) {
    && tokens != []
    && Clean(text, chars.lexical)
       == Clean(Flatten(seq(|tokens|, i requires 0 <= i < |tokens| => tokens[i].text)), chars.lexical)
  }

  /** A token with a Chinese character has pinyin that is more than white space. */
  ghost predicate Pronounced(chars: Charset, token: Token) {
    (exists c :: c in token.text && ('\U{3400}' <= c <= '\U{9FFF}' || '\U{F900}' <= c <= '\U{FAFF}')) ==>
      token.pinyin.Some? && chars.strip(token.pinyin.value) != ""
  }

  ghost predicate AllPronounced(chars: Charset, tokens: seq<Token>) {
    forall k :: 0 <= k < |tokens| ==> Pronounced(chars, tokens[k])
  }

  ghost predicate Acceptable(chars: Charset, text: string, tokens: seq<Token>) {
    SpellSentence(chars, text, tokens) && AllPronounced(chars, tokens)
  }

  lemma AcceptableIffChecked(chars: Charset, text: string, tokens: seq<Token>)
    ensures Covers(chars, text, tokens) <==> SpellSentence(chars, text, tokens)
    ensures HasPinyin(chars, tokens) <==> AllPronounced(chars, tokens)
  {
    assert Texts(tokens) == seq(|tokens|, i requires 0 <= i < |tokens| => tokens[i].text);
    forall k | 0 <= k < |tokens|
      ensures ContainsHan(tokens[k].text) <==>
              exists c :: c in tokens[k].text && ('\U{3400}' <= c <= '\U{9FFF}' || '\U{F900}' <= c <= '\U{FAFF}')
    {
      if c :| c in tokens[k].text && ('\U{3400}' <= c <= '\U{9FFF}' || '\U{F900}' <= c <= '\U{FAFF}') {
        var i :| 0 <= i < |tokens[k].text| && tokens[k].text[i] == c;
        assert ContainsHan(tokens[k].text);
      }
      if ContainsHan(tokens[k].text) {
        var i :| 0 <= i < |tokens[k].text| && (0x3400 <= tokens[k].text[i] as int <= 0x9FFF || 0xF900 <= tokens[k].text[i] as int <= 0xFAFF);
        assert tokens[k].text[i] in tokens[k].text;
      }
    }
  }

  /** An accepted list of tokens is one the answer gives under the sentence's own id, covering and complete. */
  ghost predicate Answered(chars: Charset, text: string, i: nat, tokens: seq<Token>, sentences: seq<Sentence>) {
    && Sentence(Decimal(i), tokens) in sentences
    && Acceptable(chars, text, tokens)
  }

  lemma {:induction false} NoComplaint(chars: Charset, texts: seq<string>, answers: seq<seq<Token>>, from: nat)
    requires |answers| == |texts|
    ensures Complaint(chars, texts, answers, from).None? <==>
            forall i :: from <= i < |texts| ==> Acceptable(chars, texts[i], answers[i])
    decreases |texts| - from
  {
    hide Covers, HasPinyin, SpellSentence, AllPronounced;
    if from < |texts| {
      AcceptableIffChecked(chars, texts[from], answers[from]);
      NoComplaint(chars, texts, answers, from + 1);
      assert Complaint(chars, texts, answers, from).None? <==>
             Acceptable(chars, texts[from], answers[from]) && Complaint(chars, texts, answers, from + 1).None?;
    }
  }

  lemma {:induction false} AllAnsweredMatchesIds(chars: Charset, texts: seq<string>, sentences: seq<Sentence>, values: seq<seq<Token>>)
    requires |sentences| == |texts| == |values|
    requires forall i :: 0 <= i < |texts| ==> Answered(chars, texts[i], i, values[i], sentences)
    ensures IdsMatch(|texts|, sentences) && InRequestOrder(|texts|, ById(sentences)) == values
  {
    ByIdKeys(sentences);
    ExpectedIdsCount(|texts|);
    var keys := ById(sentences).Keys;
    forall id | id in ExpectedIds(|texts|) ensures id in keys {
      var i :| 0 <= i < |texts| && id == Decimal(i);
      assert Answered(chars, texts[i], i, values[i], sentences);
      assert Sentence(id, values[i]).id == id;
    }
    SubsetOfSameSize(ExpectedIds(|texts|), keys);
    ByIdExact(sentences);
    forall i | 0 <= i < |texts| ensures InRequestOrder(|texts|, ById(sentences))[i] == values[i] {
      assert Answered(chars, texts[i], i, values[i], sentences);
      assert ById(sentences)[Sentence(Decimal(i), values[i]).id] == Sentence(Decimal(i), values[i]);
    }
  }

  lemma AcceptedIsAnswered(chars: Charset, texts: seq<string>, sentences: seq<Sentence>)
    requires Validated(chars, texts, sentences).Ok?
    ensures var values := Validated(chars, texts, sentences).value;
            && |sentences| == |texts| == |values|
            && forall i :: 0 <= i < |texts| ==> Answered(chars, texts[i], i, values[i], sentences)
  {
    ExpectedIdsCount(|texts|);
    ByIdKeys(sentences);
    var values := InRequestOrder(|texts|, ById(sentences));
    NoComplaint(chars, texts, values, 0);
    forall i | 0 <= i < |texts| ensures Answered(chars, texts[i], i, values[i], sentences) {
      assert ById(sentences)[Decimal(i)] == Sentence(Decimal(i), values[i]);
    }
  }

  lemma SubsetOfSameSize<T>(a: set<T>, b: set<T>)
    requires a <= b && |b| <= |a|
    ensures a == b
  {
    assert |b - a| == |b| - |a|;
  }

  ghost predicate AllAnswered(chars: Charset, texts: seq<string>, sentences: seq<Sentence>, values: seq<seq<Token>>) {
    && |sentences| == |texts| == |values|
    && forall i :: 0 <= i < |texts| ==> Answered(chars, texts[i], i, values[i], sentences)
  }

  /**
   An answer is accepted, with these token lists, exactly when it has as many sentences as asked for and the i-th list
   belongs to the answer's sentence with id i, spells that very sentence and leaves out no pinyin. The order of the
   answer does not matter; a duplicate, missing or unknown id leads to rejection.
   */
  lemma AcceptedIffEverySentenceAnswered(chars: Charset, texts: seq<string>, sentences: seq<Sentence>,
                                         values: seq<seq<Token>>)
    ensures Validated(chars, texts, sentences) == Ok(values) <==> AllAnswered(chars, texts, sentences, values)
  {
    if Validated(chars, texts, sentences) == Ok(values) {
      AcceptedIsAnswered(chars, texts, sentences);
    }
    if && |sentences| == |texts| == |values|
       && forall i :: 0 <= i < |texts| ==> Answered(chars, texts[i], i, values[i], sentences) {
      AllAnsweredMatchesIds(chars, texts, sentences, values);
      assert forall i :: 0 <= i < |texts| ==> Answered(chars, texts[i], i, values[i], sentences);
      NoComplaint(chars, texts, values, 0);
    }
  }

  /** There are as many sentences as asked for, and one for every id. */
  ghost predicate IdsAnswered(n: nat, sentences: seq<Sentence>) {
    |sentences| == n && forall i :: 0 <= i < n ==> HasSentence(i, sentences)
  }

  ghost predicate HasSentence(i: nat, sentences: seq<Sentence>) {
    exists tokens :: Sentence(Decimal(i), tokens) in sentences
  }

  lemma IdsMatchIff(n: nat, sentences: seq<Sentence>)
    ensures IdsMatch(n, sentences) <==> IdsAnswered(n, sentences)
  {
    ByIdKeys(sentences);
    ExpectedIdsCount(n);
    var keys := ById(sentences).Keys;
    assert |ById(sentences)| == |keys|;
    if IdsMatch(n, sentences) {
      forall i | 0 <= i < n ensures HasSentence(i, sentences) {
        assert Decimal(i) in ById(sentences);
        assert Sentence(Decimal(i), ById(sentences)[Decimal(i)].tokens) in sentences;
      }
    }
    if IdsAnswered(n, sentences) {
      forall id | id in ExpectedIds(n) ensures id in keys {
        var i :| 0 <= i < n && id == Decimal(i);
        assert HasSentence(i, sentences);
        var tokens :| Sentence(Decimal(i), tokens) in sentences;
        assert Sentence(id, tokens).id == id;
      }
      SubsetOfSameSize(ExpectedIds(n), keys);
      assert |keys| == n;
    }
  }

  /** Where the first complaint is, and what it is about. */
  lemma {:induction false} FirstComplaint(chars: Charset, texts: seq<string>, answers: seq<seq<Token>>, from: nat, i: nat)
    requires |answers| == |texts| && from <= i < |texts|
    ensures var complaint := Complaint(chars, texts, answers, from);
            var before := forall j :: from <= j < i ==> Acceptable(chars, texts[j], answers[j]);
            && (complaint == Some(NotCovered(i)) <==> before && !SpellSentence(chars, texts[i], answers[i]))
            && (complaint == Some(PinyinMissing(i)) <==>
                  before && SpellSentence(chars, texts[i], answers[i]) && !AllPronounced(chars, answers[i]))
    decreases i - from
  {
    hide Covers, HasPinyin, SpellSentence, AllPronounced, Complaint;
    ComplaintAt(chars, texts, answers, from);
    AcceptableIffChecked(chars, texts[from], answers[from]);
    if from < i {
      FirstComplaint(chars, texts, answers, from + 1, i);
    } else {
      LaterComplaint(chars, texts, answers, from + 1, i);
    }
  }

  lemma {:induction false} LaterComplaint(chars: Charset, texts: seq<string>, answers: seq<seq<Token>>, from: nat, i: nat)
    requires |answers| == |texts| && i < from
    ensures Complaint(chars, texts, answers, from) != Some(NotCovered(i))
    ensures Complaint(chars, texts, answers, from) != Some(PinyinMissing(i))
    decreases |texts| - from
  {
    if from < |texts| {
      LaterComplaint(chars, texts, answers, from + 1, i);
    }
  }

  ghost predicate AllAnsweredBefore(chars: Charset, texts: seq<string>, sentences: seq<Sentence>, i: nat)
    requires i <= |texts|
  {
    forall j :: 0 <= j < i ==> IsAnswered(chars, texts[j], j, sentences)
  }

  ghost predicate IsAnswered(chars: Charset, text: string, i: nat, sentences: seq<Sentence>) {
    exists tokens :: Answered(chars, text, i, tokens, sentences)
  }

  /**
   A refusal is about the ids if there is not exactly one sentence for each, and otherwise about the first sentence that is
   not acceptable: that it does not spell its text, or else that pinyin is missing.
   */
  lemma RefusalNamesTheFirst(chars: Charset, texts: seq<string>, sentences: seq<Sentence>, i: nat, tokens: seq<Token>)
    requires i < |texts| && Sentence(Decimal(i), tokens) in sentences
    ensures var verdict := Validated(chars, texts, sentences);
            var ids := IdsAnswered(|texts|, sentences);
            var before := AllAnsweredBefore(chars, texts, sentences, i);
            && (verdict == Err(IdsDoNotMatch) <==> !ids)
            && (verdict == Err(NotCovered(i)) <==> ids && before && !SpellSentence(chars, texts[i], tokens))
            && (verdict == Err(PinyinMissing(i)) <==>
                  ids && before && SpellSentence(chars, texts[i], tokens) && !AllPronounced(chars, tokens))
  {
    hide SpellSentence, AllPronounced, Complaint, Decimal, ExpectedIds, IdsAnswered, IsAnswered, Acceptable;
    IdsMatchIff(|texts|, sentences);
    if IdsMatch(|texts|, sentences) {
      var answers := InRequestOrder(|texts|, ById(sentences));
      ByIdExact(sentences);
      ByIdKeys(sentences);
      assert ById(sentences)[Sentence(Decimal(i), tokens).id] == Sentence(Decimal(i), tokens);
      FirstComplaint(chars, texts, answers, 0, i);
      forall j | 0 <= j < i
        ensures Acceptable(chars, texts[j], answers[j]) <==> IsAnswered(chars, texts[j], j, sentences)
      {
        AnswerOfId(chars, texts[j], j, sentences);
      }
    }
  }

  lemma AnswerOfId(chars: Charset, text: string, j: nat, sentences: seq<Sentence>)
    requires Decimal(j) in ById(sentences) && |ById(sentences)| == |sentences|
    ensures Acceptable(chars, text, ById(sentences)[Decimal(j)].tokens) <==> IsAnswered(chars, text, j, sentences)
  {
    hide Acceptable, Decimal;
    ByIdExact(sentences);
    ByIdKeys(sentences);
    var tokens := ById(sentences)[Decimal(j)].tokens;
    assert Sentence(Decimal(j), tokens) in sentences;
    forall other | Answered(chars, text, j, other, sentences) ensures other == tokens {
      assert ById(sentences)[Sentence(Decimal(j), other).id] == Sentence(Decimal(j), other);
    }
    if Acceptable(chars, text, tokens) {
      assert Answered(chars, text, j, tokens, sentences);
    }
  }

  /** Two orders of the same sentences get the same verdict, errors included. */
  lemma AnswerOrderDoesNotMatter(chars: Charset, texts: seq<string>, a: seq<Sentence>, b: seq<Sentence>)
    requires multiset(a) == multiset(b)
    ensures Validated(chars, texts, a) == Validated(chars, texts, b)
  {
    assert |a| == |multiset(a)| == |multiset(b)| == |b|;
    forall s ensures s in a <==> s in b {
      assert s in a <==> s in multiset(a);
      assert s in b <==> s in multiset(b);
    }
    ByIdKeys(a);
    ByIdKeys(b);
    assert ById(a).Keys == ById(b).Keys;
    assert |ById(a)| == |ById(a).Keys| == |ById(b).Keys| == |ById(b)|;
    if |ById(a)| == |a| {
      ByIdExact(a);
      ByIdExact(b);
      assert ById(a) == ById(b);
    }
  }

  // ---------------------------------------------------------------- two attempts, then the local fallback

  /** Received is a parsed answer, Failed an HTTP or parsing error, Crashed any other exception. */
  datatype Attempt = Received(sentences: seq<Sentence>) | Failed | Crashed

  predicate Usable(chars: Charset, texts: seq<string>, attempt: Attempt) {
    attempt.Received? && Validated(chars, texts, attempt.sentences).Ok?
  }

  /** The outcome from this attempt on, None when it raises, and the number of requests made in all. */
  function Tried(chars: Charset, texts: seq<string>, request: nat -> Attempt, fallback: seq<string> -> Option<seq<seq<Token>>>,
                 attempt: nat): (Option<seq<seq<Token>>>, nat)
    requires attempt <= 2
    decreases 2 - attempt
  {
    if attempt == 2 then (fallback(texts), 2)
    else if request(attempt).Crashed? then (None, attempt + 1)
    else if Usable(chars, texts, request(attempt))
    then (Some(Validated(chars, texts, request(attempt).sentences).value), attempt + 1)
    else Tried(chars, texts, request, fallback, attempt + 1)
  }

  function Analyzed(chars: Charset, hasKey: bool, texts: seq<string>, request: nat -> Attempt,
                    fallback: seq<string> -> Option<seq<seq<Token>>>): (Option<seq<seq<Token>>>, nat)
  {
    if texts == [] then (Some([]), 0)
    else if !hasKey then (fallback(texts), 0)
    else Tried(chars, texts, request, fallback, 0)
  }

  method AnalyzeBatch(chars: Charset, hasKey: bool, texts: seq<string>, request: nat -> Attempt,
                      fallback: seq<string> -> Option<seq<seq<Token>>>)
    returns (r: Option<seq<seq<Token>>>, requests: nat)
    ensures (r, requests) == Analyzed(chars, hasKey, texts, request, fallback)
  {
    if texts == [] {
      return Some([]), 0;
    }
    if !hasKey {
      return fallback(texts), 0;
    }
    for attempt := 0 to 2
      invariant Tried(chars, texts, request, fallback, 0) == Tried(chars, texts, request, fallback, attempt)
    {
      TriedAt(chars, texts, request, fallback, attempt);
      hide Tried, Validated;
      var reply := request(attempt);
      match reply
      case Crashed =>
        return None, attempt + 1;
      case Received(sentences) =>
        var verdict := ValidateResult(chars, texts, sentences);
        if verdict.Ok? {
          return Some(verdict.value), attempt + 1;
        }
      case Failed =>
    }
    return fallback(texts), 2;
  }

  lemma TriedAt(chars: Charset, texts: seq<string>, request: nat -> Attempt, fallback: seq<string> -> Option<seq<seq<Token>>>,
                attempt: nat)
    requires attempt < 2
    ensures Tried(chars, texts, request, fallback, attempt) ==
            if request(attempt).Crashed? then (None, attempt + 1)
            else if Usable(chars, texts, request(attempt))
            then (Some(Validated(chars, texts, request(attempt).sentences).value), attempt + 1)
            else Tried(chars, texts, request, fallback, attempt + 1)
  {
    hide Validated;
  }

  /**
   At most two requests, the second only after an unusable first. The first answer that answers every sentence is taken;
   otherwise the local analysis is, with what it returns or raises. Besides, only an unexpected exception escapes.
   */
  lemma FirstUsableAnswerOrFallback(chars: Charset, hasKey: bool, texts: seq<string>, request: nat -> Attempt,
                                    fallback: seq<string> -> Option<seq<seq<Token>>>)
    ensures var (r, requests) := Analyzed(chars, hasKey, texts, request, fallback);
            var asked := texts != [] && hasKey;
            && requests == (if !asked then 0
                            else if AnswersEverySentence(chars, texts, request(0)) || request(0).Crashed? then 1 else 2)
            && (asked ==>
                  var last := request(requests - 1);
                  if last.Crashed? then r == None
                  else if AnswersEverySentence(chars, texts, last)
                  then r.Some? && AllAnswered(chars, texts, last.sentences, r.value)
                  else r == fallback(texts))
            && (!asked ==> r == if texts == [] then Some([]) else fallback(texts))
  {
    UsableIff(chars, texts, request(0));
    UsableIff(chars, texts, request(1));
    hide AllAnswered, Validated, AnswersEverySentence;
  }

  ghost predicate AnswersEverySentence(chars: Charset, texts: seq<string>, attempt: Attempt) {
    attempt.Received? && exists values :: AllAnswered(chars, texts, attempt.sentences, values)
  }

  lemma UsableIff(chars: Charset, texts: seq<string>, attempt: Attempt)
    ensures Usable(chars, texts, attempt) <==> AnswersEverySentence(chars, texts, attempt)
    ensures Usable(chars, texts, attempt) ==>
              AllAnswered(chars, texts, attempt.sentences, Validated(chars, texts, attempt.sentences).value)
  {
    hide AllAnswered, Validated;
    if Usable(chars, texts, attempt) {
      AcceptedIffEverySentenceAnswered(chars, texts, attempt.sentences, Validated(chars, texts, attempt.sentences).value);
    }
    if attempt.Received? {
      forall values | AllAnswered(chars, texts, attempt.sentences, values) ensures Usable(chars, texts, attempt) {
        AcceptedIffEverySentenceAnswered(chars, texts, attempt.sentences, values);
      }
    }
  }

  /** With a fallback that analyses every text, so does the provider. */
  lemma {:induction false} AnalyzedKeepsLength(chars: Charset, hasKey: bool, texts: seq<string>, request: nat -> Attempt,
                                               fallback: seq<string> -> Option<seq<seq<Token>>>)
    requires fallback(texts).Some? ==> |fallback(texts).value| == |texts|
    ensures var r := Analyzed(chars, hasKey, texts, request, fallback).0;
            r.Some? ==> |r.value| == |texts|
  {
    FirstUsableAnswerOrFallback(chars, hasKey, texts, request, fallback);
    hide Analyzed, Answered;
  }
}
