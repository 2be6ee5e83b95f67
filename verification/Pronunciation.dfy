/**
 Pinyin for one subtitle line: one slot per character, gathered token by token
 (backend/app/services/pronunciation_service.py).
 */
module Pronunciation {
  import opened Common
  import opened Segmentation

  type Slot = Option<string>

  datatype PinyinError = LengthMismatch(results: nat, text: nat)

  predicate IsHan(c: char) {
    var point := c as int;
    || 0x3400 <= point <= 0x4DBF
    || 0x4E00 <= point <= 0x9FFF
    || 0xF900 <= point <= 0xFAFF
    || 0x20000 <= point <= 0x323AF
  }

  /** One slot per character; only Han characters keep a (stripped, non-empty) reading. */
  function AlignSentencePinyin(text: string, results: seq<Slot>, strip: string -> string): (r: Result<seq<Slot>, PinyinError>)
    ensures r.Ok? <==> |results| == |text|
    ensures r.Ok? ==> |r.value| == |text|
    ensures r.Ok? ==> forall i :: 0 <= i < |text| ==>
              (r.value[i].Some? <==> IsHan(text[i]) && results[i].Some? && strip(results[i].value) != "")
    ensures r.Ok? ==> forall i :: 0 <= i < |text| && r.value[i].Some? ==> r.value[i].value == strip(results[i].value) != ""
  {
    if |results| != |text| then Err(LengthMismatch(|results|, |text|))
    else Ok(seq(|text|, i requires 0 <= i < |text| =>
      if IsHan(text[i]) && results[i].Some? && strip(results[i].value) != ""
      then Some(strip(results[i].value)) else None))
  }

  function Syllables(slots: seq<Slot>): seq<string> {
    if slots == [] then []
    else (if slots[0].Some? && slots[0].value != "" then [slots[0].value] else []) + Syllables(slots[1..])
  }

  /** A slice that stops at the end of the list, as Python's does. */
  function Slice(slots: seq<Slot>, start: nat, end: nat): seq<Slot> {
    if start <= end <= |slots| then slots[start..end]
    else if start <= |slots| < end then slots[start..]
    else []
  }

  function JoinWith(parts: seq<string>, separator: string): string {
    if parts == [] then ""
    else if |parts| == 1 then parts[0]
    else parts[0] + separator + JoinWith(parts[1..], separator)
  }

  function TokenPinyin(slots: seq<Slot>, start: nat, end: nat): Option<string> {
    var syllables := Syllables(Slice(slots, start, end));
    if syllables == [] then None
    else if |syllables| == 2 then Some(JoinWith(syllables, ""))
    else Some(JoinWith(syllables, " "))
  }

  /** The syllables each token's pinyin is made of. */
  function TokenSyllables(slots: seq<Slot>, spans: seq<Span>): seq<seq<string>> {
    if spans == [] then []
    else [Syllables(Slice(slots, spans[0].start, spans[0].end))] + TokenSyllables(slots, spans[1..])
  }

  // ---------------------------------------------------------------- what a token's pinyin is

  /** All parts after one another, the separator in front of every part but the first. */
  ghost function Spaced(parts: seq<string>, separator: string): string {
    Flatten(seq(|parts|, i requires 0 <= i < |parts| => if i == 0 then parts[0] else separator + parts[i]))
  }

  lemma {:induction false} JoinIsSpaced(parts: seq<string>, separator: string)
    ensures JoinWith(parts, separator) == Spaced(parts, separator)
  {
    if |parts| >= 1 {
      var rest := parts[1..];
      var all := seq(|parts|, i requires 0 <= i < |parts| => if i == 0 then parts[0] else separator + parts[i]);
      var later := seq(|rest|, i requires 0 <= i < |rest| => if i == 0 then rest[0] else separator + rest[i]);
      assert Spaced(parts, separator) == parts[0] + Flatten(all[1..]);
      if rest == [] {
        assert all[1..] == [];
      } else {
        JoinIsSpaced(rest, separator);
        assert all[1..] == [separator + rest[0]] + later[1..];
        FlattenCons(separator + rest[0], later[1..]);
        assert Spaced(rest, separator) == rest[0] + Flatten(later[1..]);
        Associates(separator, rest[0], Flatten(later[1..]));
        Associates(parts[0], separator, rest[0] + Flatten(later[1..]));
      }
    }
  }

  /** The readings at these positions. */
  ghost predicate ReadAt(readings: seq<string>, slots: seq<Slot>, at: seq<nat>) {
    |readings| == |at| && forall i :: 0 <= i < |at| ==> at[i] < |slots| && slots[at[i]] == Some(readings[i])
  }

  /** The slots of a place that reaches from `start` to `end`, as far as there are slots. */
  ghost function SlotsOf(slots: seq<Slot>, start: nat, end: nat): seq<Slot> {
    var stop := if end <= |slots| then end else |slots|;
    if start <= stop then slots[start..stop] else []
  }

  /** The readings found at the place, in order: two are written as one word, others are spaced. */
  ghost predicate SpokenAs(slots: seq<Slot>, start: nat, end: nat, pinyin: Option<string>) {
    exists at, readings ::
      && Positions(at, SlotsOf(slots, start, end), (slot: Slot) => slot.Some? && slot.value != "")
      && ReadAt(readings, SlotsOf(slots, start, end), at)
      && pinyin == if |readings| == 0 then None
                   else if |readings| == 2 then Some(readings[0] + readings[1])
                   else Some(Spaced(readings, " "))
  }

  lemma {:induction false} SyllablesRead(slots: seq<Slot>) returns (at: seq<nat>)
    ensures Positions(at, slots, (slot: Slot) => slot.Some? && slot.value != "") && ReadAt(Syllables(slots), slots, at)
  {
    if slots == [] {
      at := [];
      NothingRead();
    } else {
      hide Positions, ReadAt, Syllables;
      SyllablesFirst(slots);
      var later := SyllablesRead(slots[1..]);
      var shifted := seq(|later|, i requires 0 <= i < |later| => later[i] + 1);
      LaterPositions(later, shifted, slots, (slot: Slot) => slot.Some? && slot.value != "");
      at := if slots[0].Some? && slots[0].value != "" then [0] + shifted else shifted;
      ReadLater(slots, Syllables(slots[1..]), later, shifted);
    }
  }

  lemma NothingRead()
    ensures Positions([], [], (slot: Slot) => slot.Some? && slot.value != "") && ReadAt(Syllables([]), [], [])
  {
  }

  lemma SyllablesFirst(slots: seq<Slot>)
    requires slots != []
    ensures Syllables(slots) == if slots[0].Some? && slots[0].value != "" then [slots[0].value] + Syllables(slots[1..])
                                else Syllables(slots[1..])
  {
    assert [] + Syllables(slots[1..]) == Syllables(slots[1..]);
  }

  lemma ReadLater(slots: seq<Slot>, readings: seq<string>, later: seq<nat>, shifted: seq<nat>)
    requires slots != [] && ReadAt(readings, slots[1..], later)
    requires |shifted| == |later| && forall i :: 0 <= i < |later| ==> shifted[i] == later[i] + 1
    ensures ReadAt(readings, slots, shifted)
    ensures slots[0].Some? ==> ReadAt([slots[0].value] + readings, slots, [0] + shifted)
  {
  }

  /** A token's pinyin is made of the readings at its place. */
  lemma TokenIsSpoken(slots: seq<Slot>, start: nat, end: nat)
    ensures SpokenAs(slots, start, end, TokenPinyin(slots, start, end))
  {
    assert Slice(slots, start, end) == SlotsOf(slots, start, end);
    var at := SyllablesRead(Slice(slots, start, end));
    var readings := Syllables(Slice(slots, start, end));
    JoinIsSpaced(readings, " ");
    if |readings| == 2 {
      assert readings[1..] == [readings[1]];
      assert JoinWith(readings, "") == readings[0] + readings[1];
    }
  }

  // ---------------------------------------------------------------- no syllable lost or repeated

  /** The syllables found at the listed positions. */
  ghost function Pick(slots: seq<Slot>, positions: seq<nat>): seq<string>
    requires forall i :: 0 <= i < |positions| ==> positions[i] < |slots|
  {
    if positions == [] then []
    else Syllables([slots[positions[0]]]) + Pick(slots, positions[1..])
  }

  lemma {:induction false} PickAppend(slots: seq<Slot>, a: seq<nat>, b: seq<nat>)
    requires forall i :: 0 <= i < |a| ==> a[i] < |slots|
    requires forall i :: 0 <= i < |b| ==> b[i] < |slots|
    ensures Pick(slots, a + b) == Pick(slots, a) + Pick(slots, b)
  {
    if a == [] {
      assert a + b == b;
    } else {
      PickAppend(slots, a[1..], b);
      assert (a + b)[1..] == a[1..] + b;
    }
  }

  lemma SyllablesCons(slots: seq<Slot>, start: nat, end: nat)
    requires start < end <= |slots|
    ensures Syllables(slots[start..end]) == Syllables([slots[start]]) + Syllables(slots[start + 1..end])
  {
    assert slots[start..end][1..] == slots[start + 1..end];
    assert [slots[start]][1..] == [];
  }

  lemma {:induction false} PickRange(slots: seq<Slot>, start: nat, end: nat)
    requires start <= end <= |slots|
    ensures Pick(slots, Range(start, end)) == Syllables(slots[start..end])
    decreases end - start
  {
    if start < end {
      PickRange(slots, start + 1, end);
      SyllablesCons(slots, start, end);
      assert Range(start, end)[1..] == Range(start + 1, end);
    }
  }

  lemma {:induction false} PickCovered(slots: seq<Slot>, spans: seq<Span>)
    requires forall k :: 0 <= k < |spans| ==> spans[k].start < spans[k].end
    requires forall i :: 0 <= i < |Covered(spans)| ==> Covered(spans)[i] < |slots|
    ensures Flatten(TokenSyllables(slots, spans)) == Pick(slots, Covered(spans))
  {
    if spans != [] {
      var first, rest := Range(spans[0].start, spans[0].end), Covered(spans[1..]);
      assert Covered(spans)[..|first|] == first && Covered(spans)[|first|..] == rest;
      assert forall i :: 0 <= i < |rest| ==> rest[i] == Covered(spans)[|first| + i];
      assert forall i :: 0 <= i < |first| ==> first[i] == Covered(spans)[i];
      assert first[|first| - 1] == spans[0].end - 1;
      PickCovered(slots, spans[1..]);
      PickRange(slots, spans[0].start, spans[0].end);
      PickAppend(slots, first, rest);
      assert TokenSyllables(slots, spans)[1..] == TokenSyllables(slots, spans[1..]);
    }
  }

  lemma PickNone(slots: seq<Slot>)
    ensures Pick(slots, []) == Syllables([])
  {
  }

  lemma {:induction false} PickLexical(text: string, lexical: char -> bool, slots: seq<Slot>, from: nat)
    requires |slots| == |text| && from <= |text|
    requires forall i :: 0 <= i < |text| && slots[i].Some? ==> lexical(text[i])
    requires forall i :: 0 <= i < |LexFrom(text, lexical, from)| ==> LexFrom(text, lexical, from)[i] < |slots|
    ensures Pick(slots, LexFrom(text, lexical, from)) == Syllables(slots[from..])
    decreases |text| - from
  {
    hide Pick, Syllables;
    if from == |text| {
      assert slots[from..] == [] && LexFrom(text, lexical, from) == [];
      PickNone(slots);
    } else {
      var head, rest := if lexical(text[from]) then [from] else [], LexFrom(text, lexical, from + 1);
      LexFromSound(text, lexical, from + 1);
      PickLexical(text, lexical, slots, from + 1);
      PickAppend(slots, head, rest);
      PickHead(slots, from, head);
    }
  }

  /** A position without a reading may be left out. */
  lemma PickHead(slots: seq<Slot>, from: nat, head: seq<nat>)
    requires from < |slots|
    requires head == [from] || (head == [] && slots[from].None?)
    ensures Pick(slots, head) + Syllables(slots[from + 1..]) == Syllables(slots[from..])
  {
    SyllablesCons(slots, from, |slots|);
    assert slots[from..] == slots[from..|slots|] && slots[from + 1..] == slots[from + 1..|slots|];
    assert head[|head|..] == [];
    if head == [] {
      assert Syllables([slots[from]]) == [] + Syllables([slots[from]][1..]);
    }
  }

  /**
   For tokens that concatenate to the cleaned line and do not reach over a removed character, the syllables taken
   token by token are the syllables of the line: none lost, none repeated, in order.
   */
  lemma {:induction false} TokensKeepEverySyllable(text: string, results: seq<Slot>, strip: string -> string, lexical: char -> bool,
                                tokens: seq<string>)
    requires |results| == |text|
    requires forall c :: IsHan(c) ==> lexical(c)
    requires forall k :: 0 <= k < |tokens| ==> tokens[k] != ""
    requires Flatten(tokens) == Clean(text, lexical) && NoStraddle(LexFrom(text, lexical, 0), tokens)
    ensures var slots := AlignSentencePinyin(text, results, strip).value;
            Flatten(TokenSyllables(slots, Located(text, tokens, 0))) == Syllables(slots)
  {
    var slots := AlignSentencePinyin(text, results, strip).value;
    var spans := Located(text, tokens, 0);
    TilesIffNoStraddle(text, lexical, tokens);
    LocatedInOrder(text, tokens, 0);
    LexFromSound(text, lexical, 0);
    PickCovered(slots, spans);
    PickLexical(text, lexical, slots, 0);
    assert slots[0..] == slots;
  }
}
