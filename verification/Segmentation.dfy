/**
 Word segmentation of one subtitle line, and the search that gives every token its place in the line
 (segmentation_service.py). `lexical` is any classification: Unicode categories are not modelled.

 - The fallback segmenter takes the longest known word at every place, and that fixes the segmentation.
 - The search finds every token right after the one before it, if the tokens fit into the line at all.
 - Its spans tile the word characters of the line exactly when no token reaches over a removed character.
 */
module Segmentation {
  import opened Common

  datatype Span = Span(text: string, start: nat, end: nat)

  /** The characters of the text that are words rather than white space or punctuation. */
  function Clean(text: string, lexical: char -> bool): string {
    if text == [] then []
    else (if lexical(text[0]) then [text[0]] else []) + Clean(text[1..], lexical)
  }

  // ---------------------------------------------------------------- fallback segmentation

  predicate StartsWith(text: string, word: string, index: nat) {
    index + |word| <= |text| && forall i :: 0 <= i < |word| ==> text[index + i] == word[i]
  }

  /** Stable sort, longest word first. */
  function LongestFirst(words: seq<string>): seq<string> {
    if words == [] then [] else InsertByLength(words[0], LongestFirst(words[1..]))
  }

  function InsertByLength(word: string, words: seq<string>): seq<string> {
    if words == [] || |words[0]| <= |word| then [word] + words
    else [words[0]] + InsertByLength(word, words[1..])
  }

  ghost predicate LengthsDescend(words: seq<string>) {
    forall i, j :: 0 <= i < j < |words| ==> |words[i]| >= |words[j]|
  }

  lemma {:induction false} InsertByLengthKeeps(word: string, words: seq<string>)
    requires LengthsDescend(words)
    ensures LengthsDescend(InsertByLength(word, words))
    ensures forall w :: w in InsertByLength(word, words) <==> w == word || w in words
  {
    if words != [] && |words[0]| > |word| {
      InsertByLengthKeeps(word, words[1..]);
      var rest := InsertByLength(word, words[1..]);
      assert forall w :: w in rest ==> |w| <= |words[0]|;
      assert forall j :: 0 <= j < |rest| ==> rest[j] in rest;
    }
  }

  lemma {:induction false} LongestFirstSorts(words: seq<string>)
    ensures LengthsDescend(LongestFirst(words))
    ensures forall w :: w in LongestFirst(words) <==> w in words
  {
    if words != [] {
      LongestFirstSorts(words[1..]);
      InsertByLengthKeeps(words[0], LongestFirst(words[1..]));
    }
  }

  function FirstMatch(words: seq<string>, text: string, index: nat): (r: Option<string>)
    ensures r.None? ==> forall w :: w in words ==> !StartsWith(text, w, index)
    ensures r.Some? ==> r.value in words && StartsWith(text, r.value, index)
    ensures r.Some? && LengthsDescend(words) ==>
              forall w :: w in words && StartsWith(text, w, index) ==> |w| <= |r.value|
  {
    if words == [] then None
    else if StartsWith(text, words[0], index) then Some(words[0])
    else FirstMatch(words[1..], text, index)
  }

  /** What a token at `index` has to be: the longest known word there, or one character when none is. */
  ghost predicate LongestAt(words: seq<string>, text: string, token: string, index: nat) {
    && token != ""
    && StartsWith(text, token, index)
    && (forall w :: w in words && StartsWith(text, w, index) ==> |w| <= |token|)
    && (token in words || (|token| == 1 && forall w :: w in words && w != "" ==> !StartsWith(text, w, index)))
  }

  /** Every token is the longest known word at its own place, the first one at `index`. */
  ghost predicate LongestWords(words: seq<string>, text: string, tokens: seq<string>, index: nat) {
    tokens != [] ==>
      && LongestAt(words, text, tokens[0], index)
      && LongestWords(words, text, tokens[1..], index + |tokens[0]|)
  }

  lemma {:induction false} LongestWordsSnoc(words: seq<string>, text: string, tokens: seq<string>, token: string, index: nat)
    requires LongestWords(words, text, tokens, index)
    requires LongestAt(words, text, token, index + |Flatten(tokens)|)
    ensures LongestWords(words, text, tokens + [token], index)
  {
    hide LongestAt;
    if tokens == [] {
      assert (tokens + [token])[1..] == [];
    } else {
      LongestWordsSnoc(words, text, tokens[1..], token, index + |tokens[0]|);
      assert (tokens + [token])[1..] == tokens[1..] + [token];
    }
  }

  /** The next token of the fallback segmenter. */
  function NextToken(words: seq<string>, text: string, index: nat): (token: string)
    requires index < |text|
    ensures LongestAt(words, text, token, index)
  {
    var known := FirstMatch(LongestFirst(words), text, index);
    LongestFirstSorts(words);
    assert text[index..index + 1] == [text[index]];
    assert forall w :: w in words ==> w in LongestFirst(words);
    if known.Some? && known.value != "" then known.value else [text[index]]
  }

  lemma SegmentStep(words: seq<string>, text: string, tokens: seq<string>, token: string, index: nat)
    requires index <= |text| && Flatten(tokens) == text[..index]
    requires LongestWords(words, text, tokens, 0) && LongestAt(words, text, token, index)
    ensures index + |token| <= |text| && Flatten(tokens + [token]) == text[..index + |token|]
    ensures LongestWords(words, text, tokens + [token], 0)
  {
    FlattenSnoc(tokens, token);
    LongestWordsSnoc(words, text, tokens, token, 0);
    assert text[..index] + text[index..index + |token|] == text[..index + |token|];
  }

  /** Greedy longest-word segmentation: nothing of the text is lost, and every token is the longest known word. */
  method FallbackSegment(words: seq<string>, text: string) returns (tokens: seq<string>)
    ensures Flatten(tokens) == text
    ensures LongestWords(words, text, tokens, 0)
  {
    tokens := [];
    var index: nat := 0;
    while index < |text|
      invariant index <= |text|
      invariant Flatten(tokens) == text[..index]
      invariant LongestWords(words, text, tokens, 0)
    {
      var token := NextToken(words, text, index);
      SegmentStep(words, text, tokens, token, index);
      tokens := tokens + [token];
      index := index + |token|;
    }
    assert text[..index] == text;
  }

  lemma OneLongestAt(words: seq<string>, text: string, x: string, y: string, index: nat)
    requires LongestAt(words, text, x, index) && LongestAt(words, text, y, index)
    ensures x == y
  {
  }

  /** The two promises of FallbackSegment leave exactly one segmentation. */
  lemma {:induction false} LongestSegmentationIsUnique(words: seq<string>, text: string, a: seq<string>, b: seq<string>,
                                                       index: nat)
    requires LongestWords(words, text, a, index) && LongestWords(words, text, b, index)
    requires |Flatten(a)| == |Flatten(b)|
    ensures a == b
  {
    if a != [] && b != [] {
      OneLongestAt(words, text, a[0], b[0], index);
      LongestSegmentationIsUnique(words, text, a[1..], b[1..], index + |a[0]|);
    }
  }

  // ---------------------------------------------------------------- locating tokens

  /** str.find(token, from): the least occurrence at or after `from`, or -1. */
  function Find(text: string, token: string, from: nat): (r: int)
    ensures r == -1 || from <= r
    ensures r != -1 ==> StartsWith(text, token, r)
    ensures forall i :: from <= i && (r == -1 || i < r) ==> !StartsWith(text, token, i)
    decreases |text| - from
  {
    if from + |token| > |text| then -1
    else if StartsWith(text, token, from) then from
    else Find(text, token, from + 1)
  }

  function Locate(text: string, token: string, cursor: nat): Span {
    var found := Find(text, token, cursor);
    var start := if found == -1 then cursor else found;
    Span(token, start, start + |token|)
  }

  function Located(text: string, tokens: seq<string>, cursor: nat): seq<Span> {
    if tokens == [] then []
    else
      var span := Locate(text, tokens[0], cursor);
      [span] + Located(text, tokens[1..], span.end)
  }

  method LocateTokens(text: string, tokens: seq<string>) returns (located: seq<Span>)
    ensures located == Located(text, tokens, 0)
  {
    located := [];
    var cursor: nat := 0;
    for i := 0 to |tokens|
      invariant located + Located(text, tokens[i..], cursor) == Located(text, tokens, 0)
    {
      var start: int := Find(text, tokens[i], cursor);
      if start == -1 {
        start := cursor;
      }
      var end := start + |tokens[i]|;
      assert tokens[i..][0] == tokens[i] && tokens[i..][1..] == tokens[i + 1..];
      located := located + [Span(tokens[i], start, end)];
      cursor := end;
    }
  }

  /** Spans follow one another without overlap, whatever the text and whichever branch was taken. */
  ghost predicate InOrder(spans: seq<Span>, cursor: nat) {
    && (forall k :: 0 <= k < |spans| ==> cursor <= spans[k].start <= spans[k].end)
    && (forall j, k :: 0 <= j < k < |spans| ==> spans[j].end <= spans[k].start)
  }

  lemma {:induction false} LocatedInOrder(text: string, tokens: seq<string>, cursor: nat)
    ensures var spans := Located(text, tokens, cursor);
            && |spans| == |tokens|
            && InOrder(spans, cursor)
            && (forall k :: 0 <= k < |tokens| ==> spans[k].text == tokens[k] && spans[k].end == spans[k].start + |tokens[k]|)
  {
    if tokens != [] {
      hide Find;
      LocatedInOrder(text, tokens[1..], Locate(text, tokens[0], cursor).end);
    }
  }

  /** The token is the slice of the text at this place. */
  ghost predicate Occurs(text: string, token: string, at: nat) {
    at + |token| <= |text| && text[at..at + |token|] == token
  }

  /** str.find from `from` on, or `from` itself when the token does not occur any more. */
  ghost predicate FoundFrom(text: string, token: string, from: nat, start: nat) {
    && from <= start
    && (forall i :: from <= i < start ==> !Occurs(text, token, i))
    && (Occurs(text, token, start) || (start == from && forall i :: from <= i ==> !Occurs(text, token, i)))
  }

  /** Each token where it is found after the one before it. */
  ghost predicate FoundInTurn(text: string, tokens: seq<string>, spans: seq<Span>, cursor: nat) {
    |spans| == |tokens| && forall k :: 0 <= k < |tokens| ==> SpanFound(text, tokens[k], EndBefore(spans, k, cursor), spans[k])
  }

  ghost function EndBefore(spans: seq<Span>, k: nat, cursor: nat): nat
    requires k <= |spans|
  {
    if k == 0 then cursor else spans[k - 1].end
  }

  ghost predicate SpanFound(text: string, token: string, from: nat, span: Span) {
    span.text == token && span.end == span.start + |token| && FoundFrom(text, token, from, span.start)
  }

  lemma LocateFinds(text: string, token: string, cursor: nat)
    ensures SpanFound(text, token, cursor, Locate(text, token, cursor))
  {
    hide StartsWith, Occurs;
    forall i: nat ensures Occurs(text, token, i) <==> StartsWith(text, token, i) {
      OccursIff(text, token, i);
    }
  }

  lemma OccursIff(text: string, token: string, i: nat)
    ensures Occurs(text, token, i) <==> StartsWith(text, token, i)
  {
  }

  /** The whole search: every token is where it is first found after the end of the one before it. */
  lemma {:induction false} LocatedInTurn(text: string, tokens: seq<string>, cursor: nat)
    ensures FoundInTurn(text, tokens, Located(text, tokens, cursor), cursor)
  {
    hide SpanFound, Locate, EndBefore;
    if tokens != [] {
      var span := Locate(text, tokens[0], cursor);
      LocateFinds(text, tokens[0], cursor);
      LocatedInTurn(text, tokens[1..], span.end);
      InTurnCons(text, tokens, span, Located(text, tokens[1..], span.end), cursor);
    }
  }

  lemma InTurnCons(text: string, tokens: seq<string>, span: Span, rest: seq<Span>, cursor: nat)
    requires tokens != [] && SpanFound(text, tokens[0], cursor, span) && FoundInTurn(text, tokens[1..], rest, span.end)
    ensures FoundInTurn(text, tokens, [span] + rest, cursor)
  {
    hide SpanFound;
    var spans := [span] + rest;
    forall k | 1 <= k < |tokens| ensures SpanFound(text, tokens[k], EndBefore(spans, k, cursor), spans[k]) {
      var later := tokens[1..];
      assert SpanFound(text, later[k - 1], EndBefore(rest, k - 1, span.end), rest[k - 1]);
      assert EndBefore(spans, k, cursor) == EndBefore(rest, k - 1, span.end);
    }
  }

  /** One way to put the tokens into the text, in order and without overlap, from `cursor` on. */
  ghost predicate Places(text: string, tokens: seq<string>, at: seq<nat>, cursor: nat) {
    && |at| == |tokens|
    && (tokens != [] ==>
          && cursor <= at[0]
          && StartsWith(text, tokens[0], at[0])
          && Places(text, tokens[1..], at[1..], at[0] + |tokens[0]|))
  }

  ghost predicate Exact(text: string, spans: seq<Span>) {
    forall k :: 0 <= k < |spans| ==> StartsWith(text, spans[k].text, spans[k].start)
  }

  /** If some placement exists, the greedy search succeeds everywhere and ends every span no later. */
  lemma {:induction false} GreedyIsComplete(text: string, tokens: seq<string>, at: seq<nat>, cursor: nat, later: nat)
    requires cursor <= later
    requires Places(text, tokens, at, later)
    ensures |Located(text, tokens, cursor)| == |tokens|
    ensures Exact(text, Located(text, tokens, cursor))
    ensures forall k :: 0 <= k < |tokens| ==> Located(text, tokens, cursor)[k].end <= at[k] + |tokens[k]|
  {
    if tokens != [] {
      GreedyIsComplete(text, tokens[1..], at[1..], Find(text, tokens[0], cursor) + |tokens[0]|, at[0] + |tokens[0]|);
    }
  }

  lemma {:induction false} ExactSpansPlace(text: string, tokens: seq<string>, cursor: nat)
    requires Exact(text, Located(text, tokens, cursor))
    ensures exists at :: Places(text, tokens, at, cursor)
  {
    if tokens == [] {
      assert Places(text, tokens, [], cursor);
    } else {
      var spans := Located(text, tokens, cursor);
      var span := Locate(text, tokens[0], cursor);
      assert spans[0] == span;
      assert forall k :: 0 <= k < |spans| - 1 ==> spans[1..][k] == spans[k + 1];
      ExactSpansPlace(text, tokens[1..], span.end);
      var rest :| Places(text, tokens[1..], rest, span.end);
      var at := [span.start] + rest;
      assert at[1..] == rest;
      assert Places(text, tokens, at, cursor);
    }
  }

  /** The located spans all show their token exactly when the tokens fit into the text at all. */
  lemma LocateExactIffPlaceable(text: string, tokens: seq<string>)
    ensures Exact(text, Located(text, tokens, 0)) <==> exists at :: Places(text, tokens, at, 0)
  {
    if Exact(text, Located(text, tokens, 0)) {
      ExactSpansPlace(text, tokens, 0);
    }
    if exists at :: Places(text, tokens, at, 0) {
      var at :| Places(text, tokens, at, 0);
      GreedyIsComplete(text, tokens, at, 0, 0);
    }
  }

  // ---------------------------------------------------------------- tiling the lexical characters

  /** Positions of the lexical characters at or after `from`. */
  function LexFrom(text: string, lexical: char -> bool, from: nat): seq<nat>
    decreases |text| - from
  {
    if from >= |text| then []
    else (if lexical(text[from]) then [from] else []) + LexFrom(text, lexical, from + 1)
  }

  function Range(start: nat, end: nat): seq<nat> {
    if start <= end then seq(end - start, i requires 0 <= i => start + i) else []
  }

  /** Every position covered by the spans, in the order of the spans. */
  function Covered(spans: seq<Span>): seq<nat> {
    if spans == [] then [] else Range(spans[0].start, spans[0].end) + Covered(spans[1..])
  }

  ghost predicate Consecutive(positions: seq<nat>) {
    forall i :: 0 <= i < |positions| ==> positions[i] == positions[0] + i
  }

  /** No token reaches over a removed character, when the tokens take the positions in order. */
  ghost predicate NoStraddle(positions: seq<nat>, tokens: seq<string>) {
    tokens != [] ==>
      && |tokens[0]| <= |positions|
      && Consecutive(positions[..|tokens[0]|])
      && NoStraddle(positions[|tokens[0]|..], tokens[1..])
  }

  /** The listed positions are exactly those of the lexical characters from `from` on, in order. */
  ghost predicate AreLexical(text: string, lexical: char -> bool, from: nat, positions: seq<nat>) {
    && (forall i :: 0 <= i < |positions| ==> from <= positions[i] < |text| && lexical(text[positions[i]]))
    && (forall i, j :: 0 <= i < j < |positions| ==> positions[i] < positions[j])
    && (forall p :: from <= p < |text| && lexical(text[p]) ==> p in positions)
  }

  ghost predicate SpellsAt(text: string, positions: seq<nat>, letters: string) {
    && |positions| == |letters|
    && forall i :: 0 <= i < |positions| ==> positions[i] < |text| && text[positions[i]] == letters[i]
  }

  lemma {:induction false} LexFromSound(text: string, lexical: char -> bool, from: nat)
    ensures AreLexical(text, lexical, from, LexFrom(text, lexical, from))
    decreases |text| - from
  {
    hide AreLexical;
    if from < |text| {
      var rest := LexFrom(text, lexical, from + 1);
      LexFromSound(text, lexical, from + 1);
      LexicalBefore(text, lexical, from, rest);
      assert [] + rest == rest;
    } else {
      NoneLexical(text, lexical, from);
    }
  }

  lemma NoneLexical(text: string, lexical: char -> bool, from: nat)
    ensures from >= |text| ==> AreLexical(text, lexical, from, [])
  {
  }

  lemma LexicalBefore(text: string, lexical: char -> bool, from: nat, rest: seq<nat>)
    requires from < |text| && AreLexical(text, lexical, from + 1, rest)
    ensures AreLexical(text, lexical, from, if lexical(text[from]) then [from] + rest else rest)
  {
    if lexical(text[from]) {
      var all := [from] + rest;
      assert all[0] == from && forall i :: 1 <= i < |all| ==> all[i] == rest[i - 1];
      forall p | from <= p < |text| && lexical(text[p]) ensures p in all {
        assert p > from ==> p in rest;
      }
    }
  }

  lemma {:induction false} LexFromSpellsClean(text: string, lexical: char -> bool, from: nat)
    requires from <= |text|
    ensures SpellsAt(text, LexFrom(text, lexical, from), Clean(text[from..], lexical))
    decreases |text| - from
  {
    if from < |text| {
      LexFromSpellsClean(text, lexical, from + 1);
      assert text[from..][1..] == text[from + 1..];
    }
  }

  /** Dropping the first m lexical positions is starting just after the m-th. */
  lemma {:induction false} LexFromDrop(text: string, lexical: char -> bool, from: nat, m: nat)
    requires from <= |text| && 0 < m <= |LexFrom(text, lexical, from)|
    ensures LexFrom(text, lexical, LexFrom(text, lexical, from)[m - 1] + 1) == LexFrom(text, lexical, from)[m..]
    decreases |text| - from
  {
    LexFromStep(text, lexical, from);
    hide LexFrom;
    var rest := LexFrom(text, lexical, from + 1);
    if lexical(text[from]) {
      assert ([from] + rest)[m..] == rest[m - 1..];
      if m > 1 {
        LexFromDrop(text, lexical, from + 1, m - 1);
      }
    } else {
      LexFromDrop(text, lexical, from + 1, m);
    }
  }

  lemma LexFromStep(text: string, lexical: char -> bool, from: nat)
    requires from <= |text| && LexFrom(text, lexical, from) != []
    ensures from < |text|
    ensures LexFrom(text, lexical, from)
         == if lexical(text[from]) then [from] + LexFrom(text, lexical, from + 1) else LexFrom(text, lexical, from + 1)
  {
  }

  lemma ConsecutiveSlice(text: string, positions: seq<nat>, token: string)
    requires token != "" && SpellsAt(text, positions, token) && Consecutive(positions)
    ensures StartsWith(text, token, positions[0])
  {
    assert positions[|token| - 1] == positions[0] + |token| - 1;
    forall i | 0 <= i < |token| ensures text[positions[0] + i] == token[i] {
      assert positions[i] == positions[0] + i;
    }
  }

  lemma FirstLetter(text: string, token: string)
    requires token != ""
    ensures forall i: nat :: StartsWith(text, token, i) ==> i < |text| && text[i] == token[0]
  {
    forall i: nat | StartsWith(text, token, i) ensures i < |text| && text[i] == token[0] {
      assert text[i + 0] == token[0];
    }
  }

  /** A token without removed characters inside is found exactly at the next lexical position. */
  lemma FindsNextLexical(text: string, lexical: char -> bool, token: string, cursor: nat, positions: seq<nat>)
    requires AreLexical(text, lexical, cursor, positions)
    requires token != "" && |token| <= |positions|
    requires SpellsAt(text, positions[..|token|], token)
    requires Consecutive(positions[..|token|])
    ensures Find(text, token, cursor) == positions[0]
  {
    ConsecutiveSlice(text, positions[..|token|], token);
    var p := positions[0];
    assert positions[..|token|][0] == p;
    FirstLetter(text, token);
    assert forall i :: cursor <= i < p ==> i !in positions;
  }

  lemma SpellsSplit(text: string, positions: seq<nat>, tokens: seq<string>)
    requires tokens != [] && |tokens[0]| <= |positions|
    requires SpellsAt(text, positions, Flatten(tokens))
    ensures SpellsAt(text, positions[..|tokens[0]|], tokens[0])
    ensures SpellsAt(text, positions[|tokens[0]|..], Flatten(tokens[1..]))
  {
    var m := |tokens[0]|;
    assert forall i :: 0 <= i < m ==> Flatten(tokens)[i] == tokens[0][i];
    assert forall i :: 0 <= i < |positions| - m ==> Flatten(tokens[1..])[i] == Flatten(tokens)[m + i];
  }

  lemma LexFromAfterToken(text: string, lexical: char -> bool, cursor: nat, m: nat)
    requires cursor <= |text| && 0 < m <= |LexFrom(text, lexical, cursor)|
    requires Consecutive(LexFrom(text, lexical, cursor)[..m])
    ensures LexFrom(text, lexical, LexFrom(text, lexical, cursor)[0] + m) == LexFrom(text, lexical, cursor)[m..]
  {
    LexFromDrop(text, lexical, cursor, m);
    assert LexFrom(text, lexical, cursor)[..m][m - 1] == LexFrom(text, lexical, cursor)[m - 1];
  }

  lemma ConsecutiveIsRange(positions: seq<nat>, m: nat)
    requires 0 < m <= |positions| && Consecutive(positions[..m])
    ensures positions == Range(positions[0], positions[0] + m) + positions[m..]
  {
    assert positions == positions[..m] + positions[m..];
    assert positions[..m] == Range(positions[0], positions[0] + m);
  }

  lemma TileStep(text: string, lexical: char -> bool, token: string, cursor: nat, positions: seq<nat>)
    requires cursor <= |text| && positions == LexFrom(text, lexical, cursor)
    requires token != "" && |token| <= |positions|
    requires SpellsAt(text, positions[..|token|], token) && Consecutive(positions[..|token|])
    ensures positions[0] + |token| <= |text|
    ensures Locate(text, token, cursor) == Span(token, positions[0], positions[0] + |token|)
    ensures positions == Range(positions[0], positions[0] + |token|) + positions[|token|..]
  {
    LexFromSound(text, lexical, cursor);
    FindsNextLexical(text, lexical, token, cursor, positions);
    ConsecutiveIsRange(positions, |token|);
  }

  lemma CoveredCons(span: Span, spans: seq<Span>)
    ensures Covered([span] + spans) == Range(span.start, span.end) + Covered(spans)
  {
    assert ([span] + spans)[1..] == spans;
  }

  /** The first token takes the first positions; what is left is the same problem after its end. */
  lemma {:induction false} TileHead(text: string, lexical: char -> bool, tokens: seq<string>, cursor: nat, positions: seq<nat>)
    returns (next: nat, left: seq<nat>)
    requires cursor <= |text| && positions == LexFrom(text, lexical, cursor)
    requires tokens != [] && tokens[0] != ""
    requires SpellsAt(text, positions, Flatten(tokens)) && NoStraddle(positions, tokens)
    ensures next <= |text| && left == LexFrom(text, lexical, next)
    ensures SpellsAt(text, left, Flatten(tokens[1..])) && NoStraddle(left, tokens[1..])
    ensures positions != [] && positions == Range(positions[0], next) + left
    ensures Located(text, tokens, cursor) == [Span(tokens[0], positions[0], next)] + Located(text, tokens[1..], next)
  {
    hide Find, StartsWith, Locate, LexFrom, Flatten, SpellsAt, Range, Consecutive;
    SpellsSplit(text, positions, tokens);
    TileStep(text, lexical, tokens[0], cursor, positions);
    LexFromAfterToken(text, lexical, cursor, |tokens[0]|);
    next, left := positions[0] + |tokens[0]|, positions[|tokens[0]|..];
  }

  lemma {:induction false} UnbrokenTokensTile(text: string, lexical: char -> bool, tokens: seq<string>, cursor: nat,
                                              positions: seq<nat>)
    requires cursor <= |text| && positions == LexFrom(text, lexical, cursor)
    requires forall k :: 0 <= k < |tokens| ==> tokens[k] != ""
    requires SpellsAt(text, positions, Flatten(tokens))
    requires NoStraddle(positions, tokens)
    ensures Covered(Located(text, tokens, cursor)) == positions
  {
    if tokens != [] {
      var next, left := TileHead(text, lexical, tokens, cursor, positions);
      var rest := tokens[1..];
      UnbrokenTokensTile(text, lexical, rest, next, left);
      CoveredCons(Span(tokens[0], positions[0], next), Located(text, rest, next));
    }
  }

  lemma {:induction false} TilingDoesNotStraddle(spans: seq<Span>, tokens: seq<string>, positions: seq<nat>)
    requires |spans| == |tokens|
    requires forall k :: 0 <= k < |spans| ==> spans[k].end == spans[k].start + |tokens[k]|
    requires Covered(spans) == positions
    ensures NoStraddle(positions, tokens)
  {
    if tokens != [] {
      var first := Range(spans[0].start, spans[0].end);
      assert positions[..|tokens[0]|] == first;
      assert positions[|tokens[0]|..] == Covered(spans[1..]);
      TilingDoesNotStraddle(spans[1..], tokens[1..], positions[|tokens[0]|..]);
    }
  }

  /**
   For non-empty tokens that concatenate to the cleaned line, the located spans cover every lexical character
   exactly once, in order, and nothing else, if and only if no token reaches over a removed character.
   */
  lemma {:induction false} TilesIffNoStraddle(text: string, lexical: char -> bool, tokens: seq<string>)
    requires forall k :: 0 <= k < |tokens| ==> tokens[k] != ""
    requires Flatten(tokens) == Clean(text, lexical)
    ensures Covered(Located(text, tokens, 0)) == LexFrom(text, lexical, 0)
            <==> NoStraddle(LexFrom(text, lexical, 0), tokens)
  {
    LocatedInOrder(text, tokens, 0);
    LexFromSpellsClean(text, lexical, 0);
    assert text[0..] == text;
    if NoStraddle(LexFrom(text, lexical, 0), tokens) {
      UnbrokenTokensTile(text, lexical, tokens, 0, LexFrom(text, lexical, 0));
    }
    if Covered(Located(text, tokens, 0)) == LexFrom(text, lexical, 0) {
      TilingDoesNotStraddle(Located(text, tokens, 0), tokens, LexFrom(text, lexical, 0));
    }
  }

  /** "ab" of "a-bb" reaches over the dash: it is not found, and its span covers the dash instead of the "b". */
  lemma StraddlingTokenMissesPlace(lexical: char -> bool)
    requires lexical('a') && lexical('b') && !lexical('-')
    ensures Clean("a-bb", lexical) == "abb" == Flatten(["ab", "b"])
    ensures Located("a-bb", ["ab", "b"], 0)[0] == Span("ab", 0, 2)
    ensures Covered(Located("a-bb", ["ab", "b"], 0)) != LexFrom("a-bb", lexical, 0)
  {
    StraddlingExampleIsClean(lexical);
    StraddlingExampleSpan();
    hide Located, Clean;
    var spans := Located("a-bb", ["ab", "b"], 0);
    CoveredCons(spans[0], spans[1..]);
    assert spans == [spans[0]] + spans[1..];
    assert Covered(spans)[1] == 1;
    LexFromSound("a-bb", lexical, 0);
    assert 1 !in LexFrom("a-bb", lexical, 0);
  }

  lemma StraddlingExampleIsClean(lexical: char -> bool)
    requires lexical('a') && lexical('b') && !lexical('-')
    ensures Clean("a-bb", lexical) == "abb" == Flatten(["ab", "b"])
  {
    assert "a-bb"[1..] == "-bb" && "-bb"[1..] == "bb" && "bb"[1..] == "b" && "b"[1..] == "";
    assert Clean("bb", lexical) == "bb";
    assert ["ab", "b"][1..] == ["b"] && Flatten(["b"]) == "b";
  }

  lemma StraddlingExampleSpan()
    ensures |Located("a-bb", ["ab", "b"], 0)| == 2 && Located("a-bb", ["ab", "b"], 0)[0] == Span("ab", 0, 2)
  {
    var text, tokens := "a-bb", ["ab", "b"];
    assert !StartsWith(text, "ab", 0) by { assert text[0 + 1] != "ab"[1]; }
    assert !StartsWith(text, "ab", 1) by { assert text[1 + 0] != "ab"[0]; }
    assert !StartsWith(text, "ab", 2) by { assert text[2 + 0] != "ab"[0]; }
    assert tokens[1..] == ["b"] && ["b"][1..] == [];
    assert Located(text, tokens, 0) == [Locate(text, "ab", 0)] + Located(text, ["b"], 2);
  }
}
