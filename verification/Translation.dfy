/**
 Translating texts by divide and conquer with a model that may answer badly or fail, each time anew (translation_service.py).
 */
module Translation {
  import opened Common

  /**
   What one request comes back with. Unusable stands for the four messages that count as recoverable, Refused for
   every other provider error (HTTP failures), Crashed for an exception that is not a provider error at all, such as
   a response body that is not JSON.
   */
  datatype Reply = Answer(translations: seq<string>) | Unusable | Refused | Crashed

  type Model = (nat, seq<string>) -> Reply

  /** A request for the texts numbered from, from + 1, ... of the original list. */
  datatype Request = Request(from: nat, texts: seq<string>, reply: Reply)

  datatype Failure = MissingKey | RequestRefused | ProgramError

  datatype Outcome = Done(translations: seq<string>) | Raised(failure: Failure)

  datatype Run = Run(outcome: Outcome, requests: seq<Request>)

  function Placeholder(target: string, text: string): string {
    "[" + target + "] " + text
  }

  /** One request. An answer of the wrong length is a recoverable error. */
  function Ask(model: Model, from: nat, texts: seq<string>, sent: nat): Request {
    var reply := model(sent, texts);
    Request(from, texts, if reply.Answer? && |reply.translations| != |texts| then Unusable else reply)
  }

  function TranslateBatch(model: Model, hasKey: bool, target: string, texts: seq<string>): Run {
    if texts == [] then Run(Done([]), [])
    else if !hasKey then Run(Raised(MissingKey), [])
    else
      var request := Ask(model, 0, texts, 0);
      match request.reply
      case Answer(translations) => Run(Done(translations), [request])
      case Crashed => Run(Raised(ProgramError), [request])
      case _ =>
        if |texts| == 1 then Run(Done([Placeholder(target, texts[0])]), [request])
        else if request.reply.Refused? then Run(Raised(RequestRefused), [request])
        else
          var rest := Recovering(model, target, 0, texts, 1);
          Run(rest.outcome, [request] + rest.requests)
  }

  function Recovering(model: Model, target: string, from: nat, texts: seq<string>, sent: nat): Run
    requires texts != []
    decreases |texts|, 0
  {
    if |texts| == 1 then
      var request := Ask(model, from, texts, sent);
      match request.reply
      case Answer(translations) => Run(Done(translations), [request])
      case Crashed => Run(Raised(ProgramError), [request])
      case _ => Run(Done([Placeholder(target, texts[0])]), [request])
    else
      var midpoint := |texts| / 2;
      var left := WithRecovery(model, target, from, texts[..midpoint], sent);
      if left.outcome.Raised? then left
      else
        var right := WithRecovery(model, target, from + midpoint, texts[midpoint..], sent + |left.requests|);
        Run(if right.outcome.Raised? then right.outcome
            else Done(left.outcome.translations + right.outcome.translations),
            left.requests + right.requests)
  }

  function WithRecovery(model: Model, target: string, from: nat, texts: seq<string>, sent: nat): Run
    requires texts != []
    decreases |texts|, 1
  {
    var request := Ask(model, from, texts, sent);
    match request.reply
    case Answer(translations) => Run(Done(translations), [request])
    case Crashed => Run(Raised(ProgramError), [request])
    case Unusable =>
      var rest := Recovering(model, target, from, texts, sent + 1);
      Run(rest.outcome, [request] + rest.requests)
    case Refused =>
      if |texts| == 1 then Run(Done([Placeholder(target, texts[0])]), [request])
      else Run(Raised(RequestRefused), [request])
  }

  // ---------------------------------------------------------------- what a run promises

  ghost predicate Covers(request: Request, i: int) {
    request.from <= i < request.from + |request.texts|
  }

  /** Nothing can be done about this reply: a crash, or a refusal of more than one text. */
  ghost predicate Fatal(request: Request) {
    request.reply.Crashed? || (request.reply.Refused? && |request.texts| >= 2)
  }

  /** The request asks for texts of the list that starts at number `from`, and an answer has one entry per text. */
  ghost predicate Honest(request: Request, from: nat, texts: seq<string>) {
    && from <= request.from
    && request.from + |request.texts| <= from + |texts|
    && (forall i :: 0 <= i < |request.texts| ==> request.texts[i] == texts[request.from - from + i])
    && (request.reply.Answer? ==> |request.reply.translations| == |request.texts|)
  }

  /** The last request that covers text i. */
  function Latest(requests: seq<Request>, i: nat): Option<Request> {
    if requests == [] then None
    else
      var later := Latest(requests[1..], i);
      if later.Some? then later
      else if requests[0].from <= i < requests[0].from + |requests[0].texts| then Some(requests[0])
      else None
  }

  /** What a request makes of text i: its own entry, or the placeholder if it failed; None when it does not say. */
  function Given(request: Request, i: nat, target: string, text: string): Option<string> {
    if !(request.from <= i < request.from + |request.texts|) then None
    else if !request.reply.Answer? then Some("[" + target + "] " + text)
    else if |request.reply.translations| == |request.texts| then Some(request.reply.translations[i - request.from])
    else None
  }

  function Decided(requests: seq<Request>, i: nat, target: string, text: string): Option<string> {
    match Latest(requests, i) case None => None case Some(last) => Given(last, i, target, text)
  }

  /** The last request that covers text i gives its value; no other request that covers it was answered. */
  ghost predicate Sourced(requests: seq<Request>, i: nat, target: string, text: string, value: string) {
    && Decided(requests, i, target, text) == Some(value)
    && forall q :: q in requests && Covers(q, i) && q.reply.Answer? ==> Latest(requests, i) == Some(q)
  }

  ghost predicate AllHonest(requests: seq<Request>, from: nat, texts: seq<string>) {
    forall q :: q in requests ==> Honest(q, from, texts)
  }

  ghost predicate AllSourced(requests: seq<Request>, from: nat, target: string, texts: seq<string>, values: seq<string>) {
    && |values| == |texts|
    && forall i :: 0 <= i < |texts| ==> Sourced(requests, from + i, target, texts[i], values[i])
  }

  /** The program gives up exactly on a fatal reply, at once, and says why. */
  ghost predicate GivesUp(run: Run) {
    && (run.outcome.Raised? <==> exists q :: q in run.requests && Fatal(q))
    && (run.outcome.Raised? ==>
          && run.requests != []
          && var last := run.requests[|run.requests| - 1];
             Fatal(last) && run.outcome.failure == if last.reply.Crashed? then ProgramError else RequestRefused)
  }

  ghost predicate Sound(run: Run, target: string, from: nat, texts: seq<string>) {
    && AllHonest(run.requests, from, texts)
    && GivesUp(run)
    && (run.outcome.Done? ==> AllSourced(run.requests, from, target, texts, run.outcome.translations))
  }

  lemma {:induction false} LatestOfBoth(earlier: seq<Request>, later: seq<Request>, i: nat)
    ensures Latest(earlier + later, i) == if Latest(later, i).Some? then Latest(later, i) else Latest(earlier, i)
  {
    if earlier == [] {
      assert earlier + later == later;
    } else {
      LatestOfBoth(earlier[1..], later, i);
      assert (earlier + later)[1..] == earlier[1..] + later;
    }
  }

  lemma {:induction false} LatestCovers(requests: seq<Request>, i: nat)
    ensures Latest(requests, i).Some? ==> Latest(requests, i).value in requests && Covers(Latest(requests, i).value, i)
  {
    if requests != [] {
      LatestCovers(requests[1..], i);
    }
  }

  lemma SourcedBefore(requests: seq<Request>, later: seq<Request>, i: nat, target: string, text: string, value: string)
    requires Sourced(requests, i, target, text, value)
    requires forall q :: q in later ==> !Covers(q, i)
    ensures Sourced(requests + later, i, target, text, value)
  {
    LatestOfBoth(requests, later, i);
    LatestCovers(later, i);
  }

  lemma SourcedAfter(earlier: seq<Request>, requests: seq<Request>, i: nat, target: string, text: string, value: string)
    requires Sourced(requests, i, target, text, value)
    requires forall q :: q in earlier && Covers(q, i) ==> !q.reply.Answer?
    ensures Sourced(earlier + requests, i, target, text, value)
  {
    LatestOfBoth(earlier, requests, i);
  }

  lemma LatestOfOne(request: Request, i: nat)
    ensures Latest([request], i) == if Covers(request, i) then Some(request) else None
  {
    assert [request][1..] == [];
  }

  lemma SingleGivesUp(run: Run, request: Request)
    requires run.requests == [request] && (run.outcome.Raised? <==> Fatal(request))
    requires run.outcome.Raised? ==> run.outcome.failure == if request.reply.Crashed? then ProgramError else RequestRefused
    ensures GivesUp(run)
  {
    assert request in run.requests;
  }

  /** A run made of one request that settles everything. */
  lemma SingleRequestSound(run: Run, target: string, from: nat, texts: seq<string>, request: Request)
    requires run.requests == [request] && request.from == from && request.texts == texts
    requires request.reply.Answer? ==> |request.reply.translations| == |texts|
    requires run.outcome.Raised? <==> Fatal(request)
    requires run.outcome.Raised? ==> run.outcome.failure == if request.reply.Crashed? then ProgramError else RequestRefused
    requires run.outcome.Done? && request.reply.Answer? ==> run.outcome == Done(request.reply.translations)
    requires run.outcome.Done? && !request.reply.Answer? ==>
               |texts| == 1 && run.outcome == Done([Placeholder(target, texts[0])])
    ensures Sound(run, target, from, texts)
  {
    hide GivesUp, Fatal, Sourced, Given;
    SingleGivesUp(run, request);
    if run.outcome.Done? {
      forall i | 0 <= i < |texts| ensures Sourced(run.requests, from + i, target, texts[i], run.outcome.translations[i]) {
        SingleGives(request, i, target, texts[i]);
        SingleSourced(request, from + i, target, texts[i], run.outcome.translations[i]);
      }
    }
  }

  lemma SingleGives(request: Request, i: nat, target: string, text: string)
    requires i < |request.texts| && (request.reply.Answer? ==> |request.reply.translations| == |request.texts|)
    ensures Covers(request, request.from + i)
    ensures Given(request, request.from + i, target, text)
         == Some(if request.reply.Answer? then request.reply.translations[i] else Placeholder(target, text))
  {
  }

  lemma SingleSourced(request: Request, i: nat, target: string, text: string, value: string)
    requires Covers(request, i) && Given(request, i, target, text) == Some(value)
    ensures Sourced([request], i, target, text, value)
  {
    hide Latest, Given;
    LatestOfOne(request, i);
  }

  /** A request in vain before a sound run. */
  lemma RetriedSound(run: Run, rest: Run, target: string, from: nat, texts: seq<string>, request: Request)
    requires run == Run(rest.outcome, [request] + rest.requests)
    requires request.from == from && request.texts == texts && request.reply.Unusable?
    requires Sound(rest, target, from, texts)
    ensures Sound(run, target, from, texts)
  {
    assert forall q :: q in run.requests <==> q == request || q in rest.requests;
    if run.outcome.Done? {
      forall i | 0 <= i < |texts| ensures Sourced(run.requests, from + i, target, texts[i], run.outcome.translations[i]) {
        SourcedAfter([request], rest.requests, from + i, target, texts[i], run.outcome.translations[i]);
      }
    }
  }

  lemma SourcedLeft(left: seq<Request>, right: seq<Request>, from: nat, target: string, texts: seq<string>,
                    values: seq<string>, midpoint: nat)
    requires midpoint <= |texts|
    requires AllSourced(left, from, target, texts[..midpoint], values)
    requires forall q, i :: q in right && Covers(q, i) ==> from + midpoint <= i
    ensures forall i :: 0 <= i < midpoint ==> Sourced(left + right, from + i, target, texts[i], values[i])
  {
    forall i | 0 <= i < midpoint ensures Sourced(left + right, from + i, target, texts[i], values[i]) {
      assert texts[..midpoint][i] == texts[i];
      SourcedBefore(left, right, from + i, target, texts[i], values[i]);
    }
  }

  lemma SourcedRight(left: seq<Request>, right: seq<Request>, from: nat, target: string, texts: seq<string>,
                     values: seq<string>, midpoint: nat)
    requires midpoint <= |texts|
    requires AllSourced(right, from + midpoint, target, texts[midpoint..], values)
    requires forall q, i :: q in left && Covers(q, i) ==> i < from + midpoint
    ensures forall i :: 0 <= i < |texts| - midpoint ==>
              Sourced(left + right, from + midpoint + i, target, texts[midpoint + i], values[i])
  {
    forall i | 0 <= i < |texts| - midpoint
      ensures Sourced(left + right, from + midpoint + i, target, texts[midpoint + i], values[i])
    {
      assert texts[midpoint..][i] == texts[midpoint + i];
      SourcedAfter(left, right, from + midpoint + i, target, texts[midpoint + i], values[i]);
    }
  }

  /** Two sound halves make a sound whole. */
  lemma HalvesSound(left: Run, right: Run, target: string, from: nat, texts: seq<string>, midpoint: nat, whole: Run)
    requires midpoint <= |texts|
    requires Sound(left, target, from, texts[..midpoint]) && left.outcome.Done?
    requires Sound(right, target, from + midpoint, texts[midpoint..])
    requires whole.requests == left.requests + right.requests
    requires whole.outcome == if right.outcome.Raised? then right.outcome
                              else Done(left.outcome.translations + right.outcome.translations)
    ensures Sound(whole, target, from, texts)
  {
    assert texts[..midpoint] == texts[0..midpoint] && texts[midpoint..] == texts[midpoint..|texts|];
    assert forall q :: q in whole.requests <==> q in left.requests || q in right.requests;
    if right.outcome.Done? {
      SourcedLeft(left.requests, right.requests, from, target, texts, left.outcome.translations, midpoint);
      SourcedRight(left.requests, right.requests, from, target, texts, right.outcome.translations, midpoint);
      var values := whole.outcome.translations;
      forall i | 0 <= i < |texts| ensures Sourced(whole.requests, from + i, target, texts[i], values[i]) {
        assert i >= midpoint ==> Sourced(whole.requests, from + midpoint + (i - midpoint), target,
                                         texts[midpoint + (i - midpoint)], right.outcome.translations[i - midpoint]);
      }
    }
  }

  /** A failed left half ends the whole. */
  lemma LeftFailureSound(left: Run, target: string, from: nat, texts: seq<string>, midpoint: nat)
    requires midpoint <= |texts|
    requires Sound(left, target, from, texts[..midpoint]) && left.outcome.Raised?
    ensures Sound(left, target, from, texts)
  {
    assert texts[..midpoint] == texts[0..midpoint];
  }

  lemma RecoveringHalves(model: Model, target: string, from: nat, texts: seq<string>, sent: nat)
    requires |texts| > 1
    ensures var midpoint, run := |texts| / 2, Recovering(model, target, from, texts, sent);
            var left := WithRecovery(model, target, from, texts[..midpoint], sent);
            if left.outcome.Raised? then run == left
            else
              var right := WithRecovery(model, target, from + midpoint, texts[midpoint..], sent + |left.requests|);
              && run.requests == left.requests + right.requests
              && run.outcome == if right.outcome.Raised? then right.outcome
                                else Done(left.outcome.translations + right.outcome.translations)
  {
    hide WithRecovery;
  }

  lemma LoneTextSound(model: Model, target: string, from: nat, texts: seq<string>, sent: nat)
    requires |texts| == 1
    ensures Sound(Recovering(model, target, from, texts, sent), target, from, texts)
    ensures |Recovering(model, target, from, texts, sent).requests| == 1
  {
    hide Sound;
    SingleRequestSound(Recovering(model, target, from, texts, sent), target, from, texts, Ask(model, from, texts, sent));
  }

  lemma {:induction false} RecoveringSound(model: Model, target: string, from: nat, texts: seq<string>, sent: nat)
    requires texts != []
    ensures Sound(Recovering(model, target, from, texts, sent), target, from, texts)
    ensures |Recovering(model, target, from, texts, sent).requests| <= 3 * |texts| - 2
    decreases |texts|, 0
  {
    hide WithRecovery, Recovering, Sound;
    var run := Recovering(model, target, from, texts, sent);
    if |texts| == 1 {
      LoneTextSound(model, target, from, texts, sent);
    } else {
      RecoveringHalves(model, target, from, texts, sent);
      var midpoint := |texts| / 2;
      WithRecoverySound(model, target, from, texts[..midpoint], sent);
      var left := WithRecovery(model, target, from, texts[..midpoint], sent);
      if left.outcome.Raised? {
        LeftFailureSound(left, target, from, texts, midpoint);
      } else {
        WithRecoverySound(model, target, from + midpoint, texts[midpoint..], sent + |left.requests|);
        var right := WithRecovery(model, target, from + midpoint, texts[midpoint..], sent + |left.requests|);
        HalvesSound(left, right, target, from, texts, midpoint, run);
      }
    }
  }

  lemma {:induction false} WithRecoverySound(model: Model, target: string, from: nat, texts: seq<string>, sent: nat)
    requires texts != []
    ensures Sound(WithRecovery(model, target, from, texts, sent), target, from, texts)
    ensures |WithRecovery(model, target, from, texts, sent).requests| <= 3 * |texts| - 1
    decreases |texts|, 1
  {
    hide Recovering, Sound;
    var run := WithRecovery(model, target, from, texts, sent);
    var request := Ask(model, from, texts, sent);
    if request.reply.Unusable? {
      RecoveringSound(model, target, from, texts, sent + 1);
      RetriedSound(run, Recovering(model, target, from, texts, sent + 1), target, from, texts, request);
    } else {
      SingleRequestSound(run, target, from, texts, request);
    }
  }

  // ---------------------------------------------------------------- replies are the model's

  /** What the program takes a model's answer for: one of another length than asked counts as unusable. */
  ghost predicate TakenAs(said: Reply, asked: nat, reply: Reply) {
    reply == if said.Answer? && |said.translations| != asked then Unusable else said
  }

  /** The requests numbered from `sent` on got these replies from the model. */
  ghost predicate AllTaken(model: Model, sent: nat, requests: seq<Request>) {
    forall k :: 0 <= k < |requests| ==>
      TakenAs(model(sent + k, requests[k].texts), |requests[k].texts|, requests[k].reply)
  }

  lemma TakenBoth(model: Model, sent: nat, a: seq<Request>, b: seq<Request>)
    requires AllTaken(model, sent, a) && AllTaken(model, sent + |a|, b)
    ensures AllTaken(model, sent, a + b)
  {
    hide TakenAs;
    forall k | 0 <= k < |a + b|
      ensures TakenAs(model(sent + k, (a + b)[k].texts), |(a + b)[k].texts|, (a + b)[k].reply)
    {
      if k >= |a| {
        assert (a + b)[k] == b[k - |a|] && sent + k == (sent + |a|) + (k - |a|);
      }
    }
  }

  lemma {:induction false} RecoveringTaken(model: Model, target: string, from: nat, texts: seq<string>, sent: nat)
    requires texts != []
    ensures AllTaken(model, sent, Recovering(model, target, from, texts, sent).requests)
    decreases |texts|, 0
  {
    hide WithRecovery;
    if |texts| > 1 {
      var midpoint := |texts| / 2;
      WithRecoveryTaken(model, target, from, texts[..midpoint], sent);
      var left := WithRecovery(model, target, from, texts[..midpoint], sent);
      WithRecoveryTaken(model, target, from + midpoint, texts[midpoint..], sent + |left.requests|);
      var right := WithRecovery(model, target, from + midpoint, texts[midpoint..], sent + |left.requests|);
      TakenBoth(model, sent, left.requests, right.requests);
    }
  }

  lemma {:induction false} WithRecoveryTaken(model: Model, target: string, from: nat, texts: seq<string>, sent: nat)
    requires texts != []
    ensures AllTaken(model, sent, WithRecovery(model, target, from, texts, sent).requests)
    decreases |texts|, 1
  {
    hide Recovering;
    RecoveringTaken(model, target, from, texts, sent + 1);
    TakenBoth(model, sent, [Ask(model, from, texts, sent)], Recovering(model, target, from, texts, sent + 1).requests);
  }

  lemma BatchTaken(model: Model, hasKey: bool, target: string, texts: seq<string>)
    ensures AllTaken(model, 0, TranslateBatch(model, hasKey, target, texts).requests)
  {
    hide Recovering;
    if texts != [] {
      RecoveringTaken(model, target, 0, texts, 1);
      TakenBoth(model, 0, [Ask(model, 0, texts, 0)], Recovering(model, target, 0, texts, 1).requests);
    }
  }

  // ---------------------------------------------------------------- the main result

  /**
   For every model: the replies are the model's own, in order, with answers of another length taken for unusable ones. A
   translation of n texts makes at most 3n - 1 requests, and none without texts or key; it fails exactly when the key is
   missing or some request met a fatal reply, which is then its last; otherwise it has one entry per text, in order, each
   taken from the last request that covers the text, or the text's own placeholder when that request failed too.
   */
  lemma TranslationIsSound(model: Model, hasKey: bool, target: string, texts: seq<string>)
    ensures var run := TranslateBatch(model, hasKey, target, texts);
            && AllHonest(run.requests, 0, texts)
            && AllTaken(model, 0, run.requests)
            && (if texts != [] && hasKey then |run.requests| <= 3 * |texts| - 1 else run.requests == [])
            && (if texts != [] && !hasKey then run.outcome == Raised(MissingKey) else GivesUp(run))
            && (run.outcome.Done? ==> AllSourced(run.requests, 0, target, texts, run.outcome.translations))
  {
    BatchTaken(model, hasKey, target, texts);
    if texts != [] && hasKey {
      var run := TranslateBatch(model, hasKey, target, texts);
      var request := Ask(model, 0, texts, 0);
      if request.reply.Unusable? && |texts| > 1 {
        RecoveringSound(model, target, 0, texts, 1);
        RetriedSound(run, Recovering(model, target, 0, texts, 1), target, 0, texts, request);
      } else {
        SingleRequestSound(run, target, 0, texts, request);
      }
    }
  }

  // ---------------------------------------------------------------- how often a text is asked about

  /** How often n things can be halved, the larger half being kept. */
  function Halvings(n: nat): nat {
    if n <= 1 then 0 else 1 + Halvings((n + 1) / 2)
  }

  /** How many requests ask about text i. */
  function TimesAsked(requests: seq<Request>, i: nat): nat {
    if requests == [] then 0
    else (if requests[0].from <= i < requests[0].from + |requests[0].texts| then 1 else 0) + TimesAsked(requests[1..], i)
  }

  lemma {:induction false} TimesAskedBoth(a: seq<Request>, b: seq<Request>, i: nat)
    ensures TimesAsked(a + b, i) == TimesAsked(a, i) + TimesAsked(b, i)
  {
    if a == [] {
      assert a + b == b;
    } else {
      TimesAskedBoth(a[1..], b, i);
      assert (a + b)[1..] == a[1..] + b;
    }
  }

  lemma TimesAskedOne(request: Request, i: nat)
    ensures TimesAsked([request], i) == if request.from <= i < request.from + |request.texts| then 1 else 0
  {
    assert [request][1..] == [];
  }

  lemma {:induction false} HalvingsGrow(m: nat, n: nat)
    requires m <= n
    ensures Halvings(m) <= Halvings(n)
  {
    if m > 1 {
      HalvingsGrow((m + 1) / 2, (n + 1) / 2);
    }
  }

  lemma {:induction false} RecoveringAsks(model: Model, target: string, from: nat, texts: seq<string>, sent: nat, i: nat)
    requires texts != []
    ensures TimesAsked(Recovering(model, target, from, texts, sent).requests, i)
         <= if from <= i < from + |texts| then 1 + Halvings(|texts|) else 0
    decreases |texts|, 0
  {
    hide WithRecovery, TimesAsked;
    if |texts| == 1 {
      TimesAskedOne(Ask(model, from, texts, sent), i);
    } else {
      var midpoint := |texts| / 2;
      WithRecoveryAsks(model, target, from, texts[..midpoint], sent, i);
      var left := WithRecovery(model, target, from, texts[..midpoint], sent);
      WithRecoveryAsks(model, target, from + midpoint, texts[midpoint..], sent + |left.requests|, i);
      var right := WithRecovery(model, target, from + midpoint, texts[midpoint..], sent + |left.requests|);
      TimesAskedBoth(left.requests, right.requests, i);
      HalvingsGrow(midpoint, (|texts| + 1) / 2);
      assert |texts| - midpoint == (|texts| + 1) / 2;
    }
  }

  lemma {:induction false} WithRecoveryAsks(model: Model, target: string, from: nat, texts: seq<string>, sent: nat, i: nat)
    requires texts != []
    ensures TimesAsked(WithRecovery(model, target, from, texts, sent).requests, i)
         <= if from <= i < from + |texts| then 2 + Halvings(|texts|) else 0
    decreases |texts|, 1
  {
    hide Recovering, TimesAsked;
    var request, rest := Ask(model, from, texts, sent), Recovering(model, target, from, texts, sent + 1);
    RecoveringAsks(model, target, from, texts, sent + 1, i);
    TimesAskedOne(request, i);
    TimesAskedBoth([request], rest.requests, i);
  }

  /** However the model behaves, a text is asked about at most 2 + log2(n) times, rounded up. */
  lemma TextIsAskedSeldom(model: Model, hasKey: bool, target: string, texts: seq<string>, i: nat)
    requires i < |texts|
    ensures TimesAsked(TranslateBatch(model, hasKey, target, texts).requests, i) <= 2 + Halvings(|texts|)
  {
    hide Recovering, TimesAsked;
    var request, rest := Ask(model, 0, texts, 0), Recovering(model, target, 0, texts, 1);
    RecoveringAsks(model, target, 0, texts, 1, i);
    TimesAskedOne(request, i);
    TimesAskedBoth([request], rest.requests, i);
    NothingAsked(i);
  }

  lemma NothingAsked(i: nat)
    ensures TimesAsked([], i) == 0
  {
  }

  // ---------------------------------------------------------------- the bound is reached

  lemma {:induction false} WorstCase(target: string, from: nat, texts: seq<string>, sent: nat, model: Model)
    requires texts != [] && forall n, asked :: model(n, asked) == Unusable
    ensures |Recovering(model, target, from, texts, sent).requests| == 3 * |texts| - 2
    ensures Recovering(model, target, from, texts, sent).outcome.Done?
    decreases |texts|, 0
  {
    if |texts| > 1 {
      hide WithRecovery;
      var midpoint := |texts| / 2;
      WorstHalf(target, from, texts[..midpoint], sent, model);
      var left := WithRecovery(model, target, from, texts[..midpoint], sent);
      WorstHalf(target, from + midpoint, texts[midpoint..], sent + |left.requests|, model);
    }
  }

  lemma {:induction false} WorstHalf(target: string, from: nat, texts: seq<string>, sent: nat, model: Model)
    requires texts != [] && forall n, asked :: model(n, asked) == Unusable
    ensures |WithRecovery(model, target, from, texts, sent).requests| == 3 * |texts| - 1
    ensures WithRecovery(model, target, from, texts, sent).outcome.Done?
    decreases |texts|, 1
  {
    hide Recovering;
    WorstCase(target, from, texts, sent + 1, model);
  }

  /** A model that never gives a usable answer is asked exactly 3n - 1 times for n >= 2 texts. */
  lemma RequestBoundIsTight(target: string, texts: seq<string>)
    requires |texts| >= 2
    ensures |TranslateBatch((n, asked) => Unusable, true, target, texts).requests| == 3 * |texts| - 1
  {
    var model: Model := (n, asked) => Unusable;
    WorstCase(target, 0, texts, 1, model);
    assert TranslateBatch(model, true, target, texts).requests
        == [Ask(model, 0, texts, 0)] + Recovering(model, target, 0, texts, 1).requests;
  }
}
