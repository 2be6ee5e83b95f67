/**
 Agent requests: an administrator approves or rejects them, executors carry them out, crashes interrupt them, and a
 restart resumes them (backend/app/services/agent_request_service.py).
 */
module Approval {
  import opened Common

  datatype RequestKind = VideoImport | VocabularyImport | CookieUpdate

  datatype Status = Pending | Approved | Rejected | Executing | Completed | Failed | Expired

  // ---------------------------------------------------------------- importing vocabulary

  datatype Word = Word(simplified: string, traditional: Option<string>)

  datatype DictionaryEntry = DictionaryEntry(simplified: string, traditional: string)

  /** A missing or empty traditional form is the simplified one. */
  function EntryOf(word: Word): DictionaryEntry {
    DictionaryEntry(word.simplified,
                    if word.traditional.Some? && word.traditional.value != "" then word.traditional.value else word.simplified)
  }

  predicate Spells(entry: DictionaryEntry, form: string) {
    entry.simplified == form || entry.traditional == form
  }

  predicate HasForm(dictionary: seq<DictionaryEntry>, form: string) {
    exists i :: 0 <= i < |dictionary| && Spells(dictionary[i], form)
  }

  /** Some entry has one of the word's forms. */
  predicate Knows(dictionary: seq<DictionaryEntry>, word: Word) {
    HasForm(dictionary, word.simplified) || (word.traditional.Some? && HasForm(dictionary, word.traditional.value))
  }

  function ImportWords(dictionary: seq<DictionaryEntry>, words: seq<Word>): seq<DictionaryEntry> {
    if words == [] then dictionary
    else
      var before := ImportWords(dictionary, words[..|words| - 1]);
      before + Added(before, words[|words| - 1])
  }

  /** A word of which no form is known gets an entry. */
  function Added(dictionary: seq<DictionaryEntry>, word: Word): seq<DictionaryEntry> {
    if Knows(dictionary, word) then [] else [EntryOf(word)]
  }

  function Forms(dictionary: seq<DictionaryEntry>): set<string> {
    (set i | 0 <= i < |dictionary| :: dictionary[i].simplified) + (set i | 0 <= i < |dictionary| :: dictionary[i].traditional)
  }

  lemma FormsAre(dictionary: seq<DictionaryEntry>, form: string)
    ensures form in Forms(dictionary) <==> HasForm(dictionary, form)
  {
    if HasForm(dictionary, form) {
      var i :| 0 <= i < |dictionary| && Spells(dictionary[i], form);
      assert dictionary[i].simplified in Forms(dictionary) && dictionary[i].traditional in Forms(dictionary);
    }
    if form in Forms(dictionary) {
      var i :| 0 <= i < |dictionary| && (dictionary[i].simplified == form || dictionary[i].traditional == form);
      assert Spells(dictionary[i], form);
    }
  }

  lemma FormsOfMore(dictionary: seq<DictionaryEntry>, entry: DictionaryEntry)
    ensures Forms(dictionary + [entry]) == Forms(dictionary) + {entry.simplified, entry.traditional}
  {
    var more := dictionary + [entry];
    assert more[|dictionary|] == entry;
    forall form ensures form in Forms(more) <==> form in Forms(dictionary) || form == entry.simplified || form == entry.traditional {
      FormsAre(more, form);
      FormsAre(dictionary, form);
      if i :| 0 <= i < |dictionary| && Spells(dictionary[i], form) {
        assert Spells(more[i], form);
      }
      if HasForm(more, form) {
        var i :| 0 <= i < |more| && Spells(more[i], form);
        assert i < |dictionary| ==> Spells(dictionary[i], form);
      }
      if Spells(entry, form) {
        assert Spells(more[|dictionary|], form);
      }
    }
  }

  method ExecuteVocabulary(dictionary: seq<DictionaryEntry>, words: seq<Word>) returns (after: seq<DictionaryEntry>)
    ensures after == ImportWords(dictionary, words)
  {
    after := dictionary;
    var existing := Forms(dictionary);
    for i := 0 to |words|
      invariant after == ImportWords(dictionary, words[..i]) && existing == Forms(after)
    {
      assert words[..i + 1][..i] == words[..i];
      var item := words[i];
      FormsAre(after, item.simplified);
      if item.traditional.Some? {
        FormsAre(after, item.traditional.value);
      }
      if item.simplified in existing || (item.traditional.Some? && item.traditional.value in existing) {
        continue;
      }
      var simplified := item.simplified;
      var traditional := if item.traditional.Some? && item.traditional.value != "" then item.traditional.value else simplified;
      FormsOfMore(after, DictionaryEntry(simplified, traditional));
      after := after + [DictionaryEntry(simplified, traditional)];
      existing := existing + {simplified, traditional};
    }
    assert words[..|words|] == words;
  }

  ghost predicate KnowsAll(dictionary: seq<DictionaryEntry>, words: seq<Word>) {
    forall i :: 0 <= i < |words| ==> Knows(dictionary, words[i])
  }

  lemma KnowsStill(dictionary: seq<DictionaryEntry>, more: seq<DictionaryEntry>, word: Word)
    requires Knows(dictionary, word)
    ensures Knows(dictionary + more, word)
  {
    forall form | HasForm(dictionary, form) ensures HasForm(dictionary + more, form) {
      var i :| 0 <= i < |dictionary| && Spells(dictionary[i], form);
      assert Spells((dictionary + more)[i], form);
    }
  }

  /** The dictionary grows, and afterwards knows every word. */
  lemma {:induction false} ImportTeachesAll(dictionary: seq<DictionaryEntry>, words: seq<Word>)
    ensures dictionary <= ImportWords(dictionary, words)
    ensures KnowsAll(ImportWords(dictionary, words), words)
  {
    hide Knows, ImportWords, Added;
    if words == [] {
      ImportSome(dictionary, []);
    } else {
      var n := |words| - 1;
      ImportTeachesAll(dictionary, words[..n]);
      var before := ImportWords(dictionary, words[..n]);
      ImportSome(dictionary, words);
      ImportTeaches(before, words[n]);
      forall i | 0 <= i < n ensures Knows(before + Added(before, words[n]), words[i]) {
        assert words[..n][i] == words[i];
        KnowsStill(before, Added(before, words[n]), words[i]);
      }
    }
  }

  ghost predicate SharesForm(entry: DictionaryEntry, word: Word) {
    || word.simplified in [entry.simplified, entry.traditional]
    || (word.traditional.Some? && word.traditional.value in [entry.simplified, entry.traditional])
  }

  /**
   Word by word: it gets one entry, under its traditional form or for lack of one its simplified form, unless an entry has
   one of its forms already.
   */
  lemma ImportAddsExactly(dictionary: seq<DictionaryEntry>, words: seq<Word>, i: nat)
    requires i < |words|
    ensures var before, word := ImportWords(dictionary, words[..i]), words[i];
            var known := exists k :: 0 <= k < |before| && SharesForm(before[k], word);
            var traditional := if word.traditional == None || word.traditional == Some("") then word.simplified
                               else word.traditional.value;
            ImportWords(dictionary, words[..i + 1])
            == if known then before else before + [DictionaryEntry(word.simplified, traditional)]
  {
    var before, word := ImportWords(dictionary, words[..i]), words[i];
    assert words[..i + 1][..i] == words[..i];
    ImportSome(dictionary, words[..i + 1]);
    hide ImportWords;
    assert Knows(before, word) <==> exists k :: 0 <= k < |before| && SharesForm(before[k], word);
    assert before + [] == before;
  }

  lemma ImportSome(dictionary: seq<DictionaryEntry>, words: seq<Word>)
    ensures ImportWords(dictionary, words) ==
            if words == [] then dictionary
            else ImportWords(dictionary, words[..|words| - 1]) + Added(ImportWords(dictionary, words[..|words| - 1]), words[|words| - 1])
  {
  }

  lemma ImportTeaches(dictionary: seq<DictionaryEntry>, word: Word)
    ensures Knows(dictionary + Added(dictionary, word), word)
  {
    if Knows(dictionary, word) {
      assert dictionary + [] == dictionary;
    } else {
      assert Spells((dictionary + [EntryOf(word)])[|dictionary|], word.simplified);
    }
  }

  /** A dictionary that knows the words, however else it has grown, is left as it is. */
  lemma {:induction false} NothingToImport(dictionary: seq<DictionaryEntry>, words: seq<Word>)
    requires KnowsAll(dictionary, words)
    ensures ImportWords(dictionary, words) == dictionary
  {
    if words != [] {
      NothingToImport(dictionary, words[..|words| - 1]);
    }
  }

  lemma ImportIsIdempotent(dictionary: seq<DictionaryEntry>, words: seq<Word>)
    ensures ImportWords(ImportWords(dictionary, words), words) == ImportWords(dictionary, words)
  {
    ImportTeachesAll(dictionary, words);
    NothingToImport(ImportWords(dictionary, words), words);
  }

  // ---------------------------------------------------------------- one request

  datatype Request = Request(kind: RequestKind, expiresAt: int, words: seq<Word>)

  /**
   The committed state of a request and its surroundings: how many executors have read it as approved, how many have
   claimed it, how many have done its work and not yet recorded it, how many have recorded it and not yet sent the
   message, and the dictionary.
   */
  datatype State = State(status: Status, loaded: nat, working: nat, done: nat, recorded: nat, dictionary: seq<DictionaryEntry>)

  /**
   What can happen next. Approving and rejecting look at the clock twice. An executor loads the request, claims it, does
   the work and records the outcome, each in a commit of its own, and then sends a message; a message that fails turns a
   recorded success into a failure. An import that raises has added `imported` of its words by then, and recording the
   failure commits them. A crash ends all executors; a restart is more loading. OthersAdd is the rest of the system
   writing to the dictionary.
   */
  datatype Event =
    | Approve(now: int, later: int)
    | Reject(now: int, later: int)
    | CompleteCookieExport(success: bool)
    | Load
    | Claim
    | Work
    | RecordSuccess
    | RecordFailure(afterWork: bool, imported: nat)
    | Announce(sent: bool)
    | Crash
    | OthersAdd(entries: seq<DictionaryEntry>)

  /** The status and success of deciding a request. */
  function Decide(request: Request, status: Status, decision: Status, now: int, later: int): (Status, bool) {
    if request.expiresAt <= now then (Expired, false)
    else if request.expiresAt <= later || status != Pending then (status, false)
    else (decision, true)
  }

  function FirstWords(request: Request, imported: nat): seq<Word> {
    if imported <= |request.words| then request.words[..imported] else request.words
  }

  function Next(request: Request, state: State, event: Event): State {
    match event
    case Approve(now, later) => state.(status := Decide(request, state.status, Approved, now, later).0)
    case Reject(now, later) => state.(status := Decide(request, state.status, Rejected, now, later).0)
    case CompleteCookieExport(success) =>
      if request.kind != CookieUpdate || state.status != Approved then state
      else state.(status := if success then Completed else Failed)
    case Load =>
      if request.kind == CookieUpdate then state
      else if state.status == Approved then state.(loaded := state.loaded + 1)
      else if state.status == Executing then state.(working := state.working + 1)
      else state
    case Claim =>
      if state.loaded == 0 then state
      else state.(status := Executing, loaded := state.loaded - 1, working := state.working + 1)
    case Work =>
      if state.working == 0 then state
      else
        state.(working := state.working - 1, done := state.done + 1,
               dictionary := if request.kind == VocabularyImport then ImportWords(state.dictionary, request.words)
                             else state.dictionary)
    case RecordSuccess =>
      if state.done == 0 then state else state.(status := Completed, done := state.done - 1, recorded := state.recorded + 1)
    case RecordFailure(afterWork, imported) =>
      if afterWork then (if state.done == 0 then state else state.(status := Failed, done := state.done - 1))
      else if state.working == 0 then state
      else
        state.(status := Failed, working := state.working - 1,
               dictionary := if request.kind == VocabularyImport then ImportWords(state.dictionary, FirstWords(request, imported))
                             else state.dictionary)
    case Announce(sent) =>
      if state.recorded == 0 then state
      else state.(status := if sent then state.status else Failed, recorded := state.recorded - 1)
    case Crash => state.(loaded := 0, working := 0, done := 0, recorded := 0)
    case OthersAdd(entries) => state.(dictionary := state.dictionary + entries)
  }

  /** A request row; its methods commit. */
  class AgentRequest {
    const request: Request
    var status: Status

    constructor (request: Request)
      ensures this.request == request && status == Pending
    {
      this.request := request;
      status := Pending;
    }

    method Decided(decision: Status, now: int, later: int) returns (ok: bool)
      modifies this
      ensures (status, ok) == Decide(request, old(status), decision, now, later)
    {
      if request.expiresAt <= now {
        status := Expired;
        return false;
      }
      if request.expiresAt <= later || status != Pending {
        return false;
      }
      status := decision;
      return true;
    }

    method Approve(now: int, later: int) returns (ok: bool)
      modifies this
      ensures (status, ok) == Decide(request, old(status), Approved, now, later)
      ensures ok <==> old(status) == Pending && now < request.expiresAt && later < request.expiresAt
      ensures status == if now >= request.expiresAt then Expired else if ok then Approved else old(status)
    {
      ok := Decided(Approved, now, later);
    }

    method Reject(now: int, later: int) returns (ok: bool)
      modifies this
      ensures (status, ok) == Decide(request, old(status), Rejected, now, later)
      ensures ok <==> old(status) == Pending && now < request.expiresAt && later < request.expiresAt
      ensures status == if now >= request.expiresAt then Expired else if ok then Rejected else old(status)
    {
      ok := Decided(Rejected, now, later);
    }

    method CompleteExport(success: bool) returns (ok: bool)
      modifies this
      ensures ok <==> request.kind == CookieUpdate && old(status) == Approved
      ensures status == if !ok then old(status) else if success then Completed else Failed
      ensures forall state: State :: state.status == old(status) ==>
                Next(request, state, CompleteCookieExport(success)) == state.(status := status)
    {
      if request.kind != CookieUpdate || status != Approved {
        return false;
      }
      status := if success then Completed else Failed;
      return true;
    }

    /**
     An executor that is not interrupted: `work` says whether the import succeeds, `imported` how many words of a
     vocabulary have been added when it raises, and `sent` whether the message afterwards does not.
     */
    method Execute(dictionary: seq<DictionaryEntry>, work: bool, imported: nat, sent: bool) returns (after: seq<DictionaryEntry>)
      modifies this
      ensures State(status, 0, 0, 0, 0, after)
           == Run(request, State(old(status), 0, 0, 0, 0, dictionary), ExecutionOf(request, old(status), work, imported, sent))
      ensures var runs := request.kind != CookieUpdate && (old(status) == Approved || old(status) == Executing);
              && (!runs ==> status == old(status) && after == dictionary)
              && (runs ==> status == if sent && work then Completed else Failed)
              && (runs && request.kind == VocabularyImport ==>
                    after == ImportWords(dictionary, if work || imported > |request.words| then request.words
                                                     else request.words[..imported]))
              && (request.kind != VocabularyImport ==> after == dictionary)
    {
      Executed(request, status, dictionary, work, imported, sent);
      hide Run, ImportWords, ExecutionOf;
      after := dictionary;
      if (status != Approved && status != Executing) || request.kind == CookieUpdate {
        return;
      }
      if status == Approved {
        status := Executing;
      }
      if request.kind == VocabularyImport {
        after := ExecuteVocabulary(dictionary, if work then request.words else FirstWords(request, imported));
      }
      if !work {
        status := Failed;
        return;
      }
      status := Completed;
      if !sent {
        status := Failed;
      }
    }
  }

  // ---------------------------------------------------------------- runs

  function Run(request: Request, state: State, events: seq<Event>): State {
    if events == [] then state
    else Next(request, Run(request, state, events[..|events| - 1]), events[|events| - 1])
  }

  lemma RunMore(request: Request, state: State, events: seq<Event>, event: Event)
    ensures Run(request, state, events + [event]) == Next(request, Run(request, state, events), event)
  {
    assert (events + [event])[..|events|] == events;
  }

  lemma RunOne(request: Request, state: State, event: Event)
    ensures Run(request, state, [event]) == Next(request, state, event)
  {
    hide Next;
    assert [event] == [] + [event];
    RunMore(request, state, [], event);
  }

  lemma RunTwo(request: Request, state: State, first: Event, second: Event)
    ensures Run(request, state, [first, second]) == Next(request, Next(request, state, first), second)
  {
    hide Next;
    RunOne(request, state, first);
    assert [first, second] == [first] + [second];
    RunMore(request, state, [first], second);
  }

  lemma RunFour(request: Request, state: State, first: Event, second: Event, third: Event, fourth: Event)
    ensures Run(request, state, [first, second, third, fourth])
         == Next(request, Next(request, Next(request, Next(request, state, first), second), third), fourth)
  {
    hide Next, Run;
    RunTwo(request, state, first, second);
    assert [first, second, third] == [first, second] + [third];
    RunMore(request, state, [first, second], third);
    assert [first, second, third, fourth] == [first, second, third] + [fourth];
    RunMore(request, state, [first, second, third], fourth);
  }

  predicate Executable(request: Request, status: Status) {
    request.kind != CookieUpdate && (status == Approved || status == Executing)
  }

  /** What an executor that is not interrupted does. */
  function ExecutionOf(request: Request, status: Status, work: bool, imported: nat, sent: bool): seq<Event> {
    if !Executable(request, status) then []
    else
      (if status == Approved then [Load, Claim] else [Load])
      + (if work then [Work, RecordSuccess, Announce(sent)] else [RecordFailure(false, imported)])
  }

  /** Where that leads when no other executor is around. */
  lemma Executed(request: Request, status: Status, dictionary: seq<DictionaryEntry>, work: bool, imported: nat, sent: bool)
    ensures Run(request, State(status, 0, 0, 0, 0, dictionary), ExecutionOf(request, status, work, imported, sent)) ==
            if !Executable(request, status) then State(status, 0, 0, 0, 0, dictionary)
            else
              var words := if work then request.words else FirstWords(request, imported);
              State(if work && sent then Completed else Failed, 0, 0, 0, 0,
                    if request.kind == VocabularyImport then ImportWords(dictionary, words) else dictionary)
  {
    hide Run, ImportWords;
    if !Executable(request, status) {
      RunNothing(request, State(status, 0, 0, 0, 0, dictionary));
    } else {
      ClaimedFirst(request, status, dictionary);
      var first := if status == Approved then [Load, Claim] else [Load];
      if work {
        ThreeMore(request, State(status, 0, 0, 0, 0, dictionary), first, Work, RecordSuccess, Announce(sent));
      } else {
        RunMore(request, State(status, 0, 0, 0, 0, dictionary), first, RecordFailure(false, imported));
      }
    }
  }

  lemma ThreeMore(request: Request, state: State, events: seq<Event>, first: Event, second: Event, third: Event)
    ensures Run(request, state, events + [first, second, third])
         == Next(request, Next(request, Next(request, Run(request, state, events), first), second), third)
  {
    hide Next, Run;
    assert events + [first, second, third] == events + [first] + [second] + [third];
    RunMore(request, state, events, first);
    RunMore(request, state, events + [first], second);
    RunMore(request, state, events + [first] + [second], third);
  }

  lemma ClaimedFirst(request: Request, status: Status, dictionary: seq<DictionaryEntry>)
    requires Executable(request, status)
    ensures Run(request, State(status, 0, 0, 0, 0, dictionary), if status == Approved then [Load, Claim] else [Load])
         == State(Executing, 0, 1, 0, 0, dictionary)
  {
    var before := State(status, 0, 0, 0, 0, dictionary);
    RunOne(request, before, Load);
    RunTwo(request, before, Load, Claim);
    hide Run, ImportWords;
  }

  function Fresh(dictionary: seq<DictionaryEntry>): State {
    State(Pending, 0, 0, 0, 0, dictionary)
  }

  /** The event is an approval that succeeds in this state. */
  predicate Approves(request: Request, state: State, event: Event) {
    event.Approve? && Decide(request, state.status, Approved, event.now, event.later).1
  }

  predicate Rejects(request: Request, state: State, event: Event) {
    event.Reject? && Decide(request, state.status, Rejected, event.now, event.later).1
  }

  /** How many approvals succeeded. */
  function Approvals(request: Request, state: State, events: seq<Event>): nat {
    if events == [] then 0
    else
      var n := |events| - 1;
      Approvals(request, state, events[..n]) + if Approves(request, Run(request, state, events[..n]), events[n]) then 1 else 0
  }

  function Rejections(request: Request, state: State, events: seq<Event>): nat {
    if events == [] then 0
    else
      var n := |events| - 1;
      Rejections(request, state, events[..n]) + if Rejects(request, Run(request, state, events[..n]), events[n]) then 1 else 0
  }

  ghost predicate Idle(state: State) {
    state == State(state.status, 0, 0, 0, 0, state.dictionary)
  }

  /** What the number of successful decisions says about the state. */
  ghost predicate Consistent(state: State, approvals: nat, rejections: nat) {
    && approvals + rejections <= 1
    && (approvals + rejections == 1 ==> state.status != Pending)
    && (approvals == 0 ==> Idle(state) && (state.status == Pending || state.status == Rejected || state.status == Expired))
    && (state.status == Rejected ==> rejections == 1)
  }

  /**
   Over every run at most one approval or rejection succeeds. Without a successful approval the request is pending,
   rejected or expired and nothing ever executes it.
   */
  lemma {:induction false} AtMostOneDecision(request: Request, dictionary: seq<DictionaryEntry>, events: seq<Event>)
    ensures Consistent(Run(request, Fresh(dictionary), events), Approvals(request, Fresh(dictionary), events),
                       Rejections(request, Fresh(dictionary), events))
  {
    if events != [] {
      AtMostOneDecision(request, dictionary, events[..|events| - 1]);
    }
  }

  /** A decision that comes before the expiry, at both looks at the clock. */
  ghost predicate InTime(request: Request, event: Event) {
    (event.Approve? || event.Reject?) && event.now < request.expiresAt && event.later < request.expiresAt
  }

  /** A decision that comes after the expiry; it fails, and marks the request expired. */
  ghost predicate Late(request: Request, event: Event) {
    (event.Approve? || event.Reject?) && event.now >= request.expiresAt
  }

  lemma {:induction false} UndecidedStaysPending(request: Request, dictionary: seq<DictionaryEntry>, events: seq<Event>)
    requires forall j :: 0 <= j < |events| ==> !InTime(request, events[j]) && !Late(request, events[j])
    ensures var state := Run(request, Fresh(dictionary), events); state.status == Pending && Idle(state)
  {
    if events != [] {
      var n := |events| - 1;
      UndecidedStaysPending(request, dictionary, events[..n]);
    }
  }

  /** The first decision in time succeeds, whichever it is, if none came late before it. */
  lemma FirstDecisionWins(request: Request, dictionary: seq<DictionaryEntry>, events: seq<Event>, decision: Event)
    requires forall j :: 0 <= j < |events| ==> !InTime(request, events[j]) && !Late(request, events[j])
    requires InTime(request, decision)
    ensures Run(request, Fresh(dictionary), events + [decision]).status == if decision.Approve? then Approved else Rejected
  {
    UndecidedStaysPending(request, dictionary, events);
    RunMore(request, Fresh(dictionary), events, decision);
    hide Run;
  }

  /** A cookie request that is approved and exported ends as the first export says, unless a late decision comes. */
  lemma {:induction false} CookieEndsAsExported(request: Request, state: State, events: seq<Event>, k: nat)
    requires request.kind == CookieUpdate && state.status == Approved && Idle(state)
    requires k < |events| && events[k].CompleteCookieExport?
    requires forall j :: 0 <= j < |events| ==> !Late(request, events[j]) && (j < k ==> !events[j].CompleteCookieExport?)
    ensures var after := Run(request, state, events);
            Idle(after) && after.status == if events[k].success then Completed else Failed
  {
    var n := |events| - 1;
    if k < n {
      CookieEndsAsExported(request, state, events[..n], k);
    } else {
      CookieStaysApproved(request, state, events[..n]);
    }
  }

  lemma {:induction false} CookieStaysApproved(request: Request, state: State, events: seq<Event>)
    requires request.kind == CookieUpdate && state.status == Approved && Idle(state)
    requires forall j :: 0 <= j < |events| ==> !Late(request, events[j]) && !events[j].CompleteCookieExport?
    ensures Run(request, state, events).status == Approved && Idle(Run(request, state, events))
  {
    if events != [] {
      CookieStaysApproved(request, state, events[..|events| - 1]);
    }
  }

  /** A crash leaves no executor, and a restart takes an executing request up again and completes it. */
  lemma CrashIsMadeGood(request: Request, state: State)
    requires request.kind != CookieUpdate && state.status == Executing
    ensures !Underway(Run(request, state, [Crash])) && Run(request, state, [Crash]).status == Executing
    ensures var after := Run(request, state, [Crash, Load, Work, RecordSuccess]);
            after.status == Completed && (request.kind == VocabularyImport ==> KnowsAll(after.dictionary, request.words))
  {
    RunOne(request, state, Crash);
    RunFour(request, state, Crash, Load, Work, RecordSuccess);
    ImportTeachesAll(state.dictionary, request.words);
    hide Run, ImportWords, KnowsAll;
  }

  /** A closed request: rejected, or expired before anyone approved it. */
  ghost predicate Closed(state: State) {
    (state.status == Rejected || state.status == Expired) && Idle(state)
  }

  lemma {:induction false} ClosedStaysClosed(request: Request, state: State, events: seq<Event>)
    requires Closed(state)
    ensures Closed(Run(request, state, events))
    ensures request.kind == VocabularyImport && (forall i :: 0 <= i < |events| ==> !events[i].OthersAdd?) ==>
              Run(request, state, events).dictionary == state.dictionary
  {
    if events != [] {
      ClosedStaysClosed(request, state, events[..|events| - 1]);
    }
  }

  lemma {:induction false} RunSplit(request: Request, state: State, events: seq<Event>, i: nat)
    requires i <= |events|
    ensures Run(request, state, events) == Run(request, Run(request, state, events[..i]), events[i..])
    decreases |events|
  {
    hide Next;
    if i == |events| {
      assert events[..i] == events;
    } else {
      var n := |events| - 1;
      RunSplit(request, state, events[..n], i);
      assert events[..n][..i] == events[..i] && events[..n][i..] == events[i..][..n - i];
    }
  }

  /** Once rejected, or expired while nobody had approved it, a request is never approved, executed or completed. */
  lemma ClosedForGood(request: Request, dictionary: seq<DictionaryEntry>, events: seq<Event>, i: nat)
    requires i <= |events|
    requires var reached := Run(request, Fresh(dictionary), events[..i]);
             reached.status == Rejected || (reached.status == Expired && Approvals(request, Fresh(dictionary), events[..i]) == 0)
    ensures Closed(Run(request, Fresh(dictionary), events))
  {
    AtMostOneDecision(request, dictionary, events[..i]);
    RunSplit(request, Fresh(dictionary), events, i);
    ClosedStaysClosed(request, Run(request, Fresh(dictionary), events[..i]), events[i..]);
  }

  /** An approval in time, for the record: what is executed or completed was approved, exactly once. */
  lemma OnlyApprovedRequestsRun(request: Request, dictionary: seq<DictionaryEntry>, events: seq<Event>)
    ensures var state := Run(request, Fresh(dictionary), events);
            !Idle(state) || state.status in {Approved, Executing, Completed, Failed} ==>
              Approvals(request, Fresh(dictionary), events) == 1 && Rejections(request, Fresh(dictionary), events) == 0
  {
    AtMostOneDecision(request, dictionary, events);
  }

  /** Expiry does not stop an executor: a late approval overwrites the status, and the executor overwrites it again. */
  lemma ExpiryCanBeOverwritten(request: Request, dictionary: seq<DictionaryEntry>)
    requires request.kind != CookieUpdate
    ensures var t := request.expiresAt;
            var start := [Approve(t - 1, t - 1), Load, Claim, Approve(t, t)];
            && Run(request, Fresh(dictionary), start).status == Expired
            && Run(request, Fresh(dictionary), start + [Work] + [RecordSuccess]).status == Completed
  {
    var t := request.expiresAt;
    var start := [Approve(t - 1, t - 1), Load, Claim, Approve(t, t)];
    RunFour(request, Fresh(dictionary), Approve(t - 1, t - 1), Load, Claim, Approve(t, t));
    hide Run, ImportWords;
    assert Run(request, Fresh(dictionary), start) == State(Expired, 0, 1, 0, 0, dictionary);
    RunMore(request, Fresh(dictionary), start, Work);
    RunMore(request, Fresh(dictionary), start + [Work], RecordSuccess);
  }

  /** An executor that can still bring the request to an end: it has read it as approved, claimed it or done the work. */
  predicate Underway(state: State) {
    state.loaded > 0 || state.working > 0 || state.done > 0
  }

  ghost predicate CanComplete(request: Request, state: State) {
    exists events: seq<Event> :: Run(request, state, events).status == Completed
  }

  lemma {:induction false} NothingUnderway(request: Request, state: State, events: seq<Event>)
    requires (state.status == Expired || state.status == Failed) && !Underway(state)
    ensures var after := Run(request, state, events);
            (after.status == Expired || after.status == Failed) && !Underway(after)
  {
    hide Run, Next;
    if events == [] {
      RunNothing(request, state);
    } else {
      var n := |events| - 1;
      NothingUnderway(request, state, events[..n]);
      RunMore(request, state, events[..n], events[n]);
      assert events == events[..n] + [events[n]];
      NothingStarts(request, Run(request, state, events[..n]), events[n]);
    }
  }

  lemma NothingStarts(request: Request, state: State, event: Event)
    requires (state.status == Expired || state.status == Failed) && !Underway(state)
    ensures var after := Next(request, state, event);
            (after.status == Expired || after.status == Failed) && !Underway(after)
  {
    hide ImportWords;
  }

  lemma UnderwayCompletes(request: Request, state: State)
    requires Underway(state)
    ensures CanComplete(request, state)
  {
    hide ImportWords, Run;
    if state.done > 0 {
      RunMore(request, state, [], RecordSuccess);
      RunNothing(request, state);
      assert Run(request, state, [] + [RecordSuccess]).status == Completed;
    } else if state.working > 0 {
      RunTwo(request, state, Work, RecordSuccess);
    } else {
      RunTwo(request, state, Claim, Work);
      RunMore(request, state, [Claim, Work], RecordSuccess);
      assert Run(request, state, [Claim, Work] + [RecordSuccess]).status == Completed;
    }
  }

  lemma RunNothing(request: Request, state: State)
    ensures Run(request, state, []) == state
  {
  }

  /**
   When expiry is final: an expired request can still be completed if and only if some executor has loaded it, is
   working on it or has done the work.
   */
  lemma ExpiredCompletesIff(request: Request, state: State)
    requires state.status == Expired
    ensures CanComplete(request, state) <==> Underway(state)
  {
    if Underway(state) {
      UnderwayCompletes(request, state);
    }
    if !Underway(state) {
      forall events: seq<Event> ensures Run(request, state, events).status != Completed {
        NothingUnderway(request, state, events);
      }
    }
  }

  // ---------------------------------------------------------------- executed at least once, effective once

  lemma {:induction false} DictionaryGrows(request: Request, state: State, events: seq<Event>)
    ensures state.dictionary <= Run(request, state, events).dictionary
  {
    if events != [] {
      hide Next;
      DictionaryGrows(request, state, events[..|events| - 1]);
      NextGrows(request, Run(request, state, events[..|events| - 1]), events[|events| - 1]);
    }
  }

  lemma NextGrows(request: Request, state: State, event: Event)
    ensures state.dictionary <= Next(request, state, event).dictionary
  {
    hide ImportWords, KnowsAll;
    ImportTeachesAll(state.dictionary, request.words);
    if event.RecordFailure? {
      ImportTeachesAll(state.dictionary, FirstWords(request, event.imported));
    }
  }

  lemma GrownKnowsAll(dictionary: seq<DictionaryEntry>, grown: seq<DictionaryEntry>, words: seq<Word>)
    requires dictionary <= grown && KnowsAll(dictionary, words)
    ensures KnowsAll(grown, words)
  {
    assert grown == dictionary + grown[|dictionary|..];
    forall i | 0 <= i < |words| ensures Knows(grown, words[i]) {
      KnowsStill(dictionary, grown[|dictionary|..], words[i]);
    }
  }

  /** Work that is done, and a completed request, have left all the words in the dictionary. */
  lemma {:induction false} DoneMeansImported(request: Request, dictionary: seq<DictionaryEntry>, events: seq<Event>)
    requires request.kind == VocabularyImport
    ensures var state := Run(request, Fresh(dictionary), events);
            state.done > 0 || state.status == Completed ==> KnowsAll(state.dictionary, request.words)
  {
    if events != [] {
      hide Next, KnowsAll;
      DoneMeansImported(request, dictionary, events[..|events| - 1]);
      NextDoneMeansImported(request, Run(request, Fresh(dictionary), events[..|events| - 1]), events[|events| - 1]);
    }
  }

  lemma NextDoneMeansImported(request: Request, state: State, event: Event)
    requires request.kind == VocabularyImport
    requires state.done > 0 || state.status == Completed ==> KnowsAll(state.dictionary, request.words)
    ensures var next := Next(request, state, event);
            next.done > 0 || next.status == Completed ==> KnowsAll(next.dictionary, request.words)
  {
    ImportTeachesAll(state.dictionary, request.words);
    NextGrows(request, state, event);
    if KnowsAll(state.dictionary, request.words) {
      GrownKnowsAll(state.dictionary, Next(request, state, event).dictionary, request.words);
    }
    hide KnowsAll, ImportWords;
  }

  /**
   Exactly once in effect: after some executor has done the work, no later execution changes the dictionary, whether it
   succeeds or fails midway, whatever crashed in between, whatever was resumed, and whatever others added.
   */
  lemma LaterWorkChangesNothing(request: Request, state: State, events: seq<Event>, imported: nat)
    requires request.kind == VocabularyImport && state.working > 0
    ensures var worked := Next(request, state, Work);
            var before := Run(request, worked, events);
            && Next(request, before, Work).dictionary == before.dictionary
            && Next(request, before, RecordFailure(false, imported)).dictionary == before.dictionary
  {
    hide Run, ImportWords, Knows;
    var worked := Next(request, state, Work);
    var before := Run(request, worked, events);
    ImportTeachesAll(state.dictionary, request.words);
    DictionaryGrows(request, worked, events);
    GrownKnowsAll(worked.dictionary, before.dictionary, request.words);
    NothingToImport(before.dictionary, request.words);
    NothingToImport(before.dictionary, FirstWords(request, imported));
  }

  /** An import that failed midway and is executed again ends as if it had succeeded the first time. */
  lemma {:induction false} FailedImportIsMadeGood(dictionary: seq<DictionaryEntry>, words: seq<Word>, n: nat)
    requires n <= |words|
    ensures ImportWords(ImportWords(dictionary, words[..n]), words) == ImportWords(dictionary, words)
    decreases |words|
  {
    hide Added;
    if n == |words| {
      assert words[..n] == words;
      ImportIsIdempotent(dictionary, words);
    } else {
      var m := |words| - 1;
      FailedImportIsMadeGood(dictionary, words[..m], n);
      assert words[..m][..n] == words[..n];
    }
  }
}
