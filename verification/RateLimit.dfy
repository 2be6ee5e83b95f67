/**
 The fixed-window rate limiter in front of the API (go-api/internal/httpapi/rate_limit.go). Times are milliseconds, windows
 are cut at whole seconds, Redis rounds a time to live to the nearest second; hashing of identities is not modelled.
 */
module RateLimit {
  import opened Common

  datatype Kind = Ip | Guest

  /** A counter's name: the identity and the number of the window. */
  datatype Key = Key(group: string, kind: Kind, identity: string, window: nat)

  datatype Entry = Entry(count: nat, expireAt: nat)

  type Store = map<Key, Entry>

  // ---------------------------------------------------------------- the script

  /** INCR, and EXPIRE when the counter is new: an expired counter starts again. */
  function Touch(store: Store, now: nat, key: Key, seconds: nat): Store {
    if key in store && now < store[key].expireAt
    then store[key := Entry(store[key].count + 1, store[key].expireAt)]
    else store[key := Entry(1, now + 1000 * seconds)]
  }

  /** TTL: what is left in milliseconds, rounded to seconds. */
  function TimeToLive(left: int): int {
    (left + 500) / 1000
  }

  function MaxInt(a: int, b: int): int {
    if b > a then b else a
  }

  datatype Count = Count(store: Store, exceeded: bool, retryAfter: int)

  function CountKey(before: Count, now: nat, key: Key, limit: int, seconds: nat): Count {
    var store := Touch(before.store, now, key, seconds);
    var ttl := TimeToLive(store[key].expireAt - now);
    Count(store, before.exceeded || store[key].count > limit, MaxInt(before.retryAfter, ttl))
  }

  function CountKeys(store: Store, now: nat, keys: seq<Key>, limit: int, seconds: nat): Count {
    if keys == [] then Count(store, false, 0)
    else CountKey(CountKeys(store, now, keys[..|keys| - 1], limit, seconds), now, keys[|keys| - 1], limit, seconds)
  }

  class RedisCounter {
    var store: Store

    constructor ()
      ensures store == map[]
    {
      store := map[];
    }

    method Eval(now: nat, keys: seq<Key>, limits: seq<int>, seconds: nat, ghost limit: int)
      returns (exceeded: bool, retryAfter: int)
      requires |limits| == |keys| && forall i :: 0 <= i < |limits| ==> limits[i] == limit
      modifies this
      ensures Count(store, exceeded, retryAfter) == CountKeys(old(store), now, keys, limit, seconds)
    {
      hide CountKeys, TimeToLive;
      exceeded, retryAfter := false, 0;
      CountNoKeys(store, now, limit, seconds);
      for index := 0 to |keys|
        invariant Count(store, exceeded, retryAfter) == CountKeys(old(store), now, keys[..index], limit, seconds)
      {
        var key := keys[index];
        CountKeysSnoc(old(store), now, keys[..index], key, limit, seconds);
        assert keys[..index + 1] == keys[..index] + [key];
        var current, expireAt := 1, now + 1000 * seconds;
        if key in store && now < store[key].expireAt {
          current, expireAt := store[key].count + 1, store[key].expireAt;
        }
        store := store[key := Entry(current, expireAt)];
        var ttl := TimeToLive(expireAt - now);
        if current > limits[index] {
          exceeded := true;
        }
        if ttl > retryAfter {
          retryAfter := ttl;
        }
      }
      assert keys[..|keys|] == keys;
    }
  }

  lemma CountNoKeys(store: Store, now: nat, limit: int, seconds: nat)
    ensures CountKeys(store, now, [], limit, seconds) == Count(store, false, 0)
  {
  }

  // ---------------------------------------------------------------- the rules

  datatype Settings = Settings(hasCounter: bool, enabled: bool, chatbotEnabled: bool, adminLimit: int,
                               expensiveLimit: int, readLimit: int, writeLimit: int)

  /** A request with the identities found in it. */
  datatype Request = Request(verb: string, path: string, ip: string, guest: Option<string>)

  datatype Rule = Rule(name: string, limit: int, window: nat, seconds: nat)

  predicate HasPrefix(text: string, prefix: string) {
    prefix <= text
  }

  predicate HasSuffix(text: string, suffix: string) {
    |suffix| <= |text| && text[|text| - |suffix|..] == suffix
  }

  predicate HasPart(text: string, part: string) {
    exists i :: 0 <= i <= |text| && part <= text[i..]
  }

  function RuleFor(request: Request, settings: Settings): Option<Rule> {
    if request.path == "/health" || request.path == "/ready" then None
    else if request.path == "/api/agent/chat" then
      Some(Rule("chat", if settings.chatbotEnabled then 10 else 1, 60, 60))
    else if HasPrefix(request.path, "/api/agent/integrations/telegram/") then Some(Rule("webhook", 30, 60, 60))
    else if HasPrefix(request.path, "/api/agent/requests/") || request.path == "/api/agent/requests"
            || request.path == "/api/dev/verify" then
      Some(Rule("admin", settings.adminLimit, 60, 60))
    else if request.path == "/api/videos/cookies" || request.path == "/api/videos/process"
            || (request.verb == "POST" && HasPart(request.path, "/batches/") && HasSuffix(request.path, "/retry")) then
      Some(Rule("expensive", settings.expensiveLimit, 600, 600))
    else if request.verb == "GET" then Some(Rule("read", settings.readLimit, 60, 60))
    else Some(Rule("write", settings.writeLimit, 60, 60))
  }

  /** The window of a group's counters. */
  function WindowOf(group: string): nat {
    if group == "expensive" then 600 else 60
  }

  function LimitOf(group: string, settings: Settings): int {
    if group == "chat" then (if settings.chatbotEnabled then 10 else 1)
    else if group == "webhook" then 30
    else if group == "admin" then settings.adminLimit
    else if group == "expensive" then settings.expensiveLimit
    else if group == "read" then settings.readLimit
    else settings.writeLimit
  }

  /** A group has one window and one limit, so its counters are never used with different ones. */
  lemma RuleOfGroup(request: Request, settings: Settings)
    ensures RuleFor(request, settings).Some? ==>
              var rule := RuleFor(request, settings).value;
              rule.window == rule.seconds == WindowOf(rule.name) && rule.limit == LimitOf(rule.name, settings)
  {
    assert |"chat"| == 4 && |"webhook"| == 7 && |"admin"| == 5 && |"expensive"| == 9 && |"read"| == 4 && |"write"| == 5;
    assert "chat"[0] == 'c' && "read"[0] == 'r' && "admin"[0] == 'a' && "write"[0] == 'w';
  }

  lemma PartIsInside(text: string, part: string)
    ensures HasPart(text, part) <==> exists before, after :: text == before + part + after
  {
    if i :| 0 <= i <= |text| && part <= text[i..] {
      assert text == text[..i] + part + text[i + |part|..];
    }
    if before, after :| text == before + part + after {
      assert text[|before|..] == part + after;
    }
  }

  lemma SuffixIsLast(text: string, suffix: string)
    ensures HasSuffix(text, suffix) <==> exists before :: text == before + suffix
  {
    if HasSuffix(text, suffix) {
      assert text == text[..|text| - |suffix|] + suffix;
    }
  }

  /** The path of a retry: "/batches/" inside it and "/retry" at its end. */
  ghost predicate RetryPath(path: string) {
    (exists before, after :: path == before + "/batches/" + after) && exists before :: path == before + "/retry"
  }

  /** Which requests belong to which group. */
  lemma GroupOfRequest(request: Request, settings: Settings)
    ensures var path, rule := request.path, RuleFor(request, settings);
            var chat, webhook := path == "/api/agent/chat", "/api/agent/integrations/telegram/" <= path;
            var admin := "/api/agent/requests/" <= path || path == "/api/agent/requests" || path == "/api/dev/verify";
            var expensive := || path == "/api/videos/cookies" || path == "/api/videos/process"
                             || (request.verb == "POST" && RetryPath(path) && !webhook && !admin);
            && (rule == None <==> path == "/health" || path == "/ready")
            && (rule.Some? ==>
                  && (rule.value.name == "chat" <==> chat)
                  && (rule.value.name == "webhook" <==> webhook)
                  && (rule.value.name == "admin" <==> admin)
                  && (rule.value.name == "expensive" <==> expensive)
                  && (rule.value.name == "read" <==> !chat && !webhook && !admin && !expensive && request.verb == "GET")
                  && (rule.value.name == "write" <==> !chat && !webhook && !admin && !expensive && request.verb != "GET"))
  {
    var path := request.path;
    PartIsInside(path, "/batches/");
    SuffixIsLast(path, "/retry");
    hide HasPart, HasSuffix;
    PathsDiffer(path);
    assert |"chat"| == 4 && |"webhook"| == 7 && |"admin"| == 5 && |"expensive"| == 9 && |"read"| == 4 && |"write"| == 5;
    assert "chat"[0] == 'c' && "read"[0] == 'r' && "admin"[0] == 'a' && "write"[0] == 'w';
  }

  /** No path belongs to two of these groups: they differ in their second, sixth or twelfth character. */
  lemma PathsDiffer(path: string)
    ensures path == "/health" ==> path[1] == 'h'
    ensures path == "/ready" ==> path[1] == 'r'
    ensures path == "/api/agent/chat" ==> |path| > 11 && path[1] == 'a' && path[5] == 'a' && path[11] == 'c'
    ensures "/api/agent/integrations/telegram/" <= path ==> |path| > 11 && path[1] == 'a' && path[5] == 'a' && path[11] == 'i'
    ensures "/api/agent/requests/" <= path ==> |path| > 11 && path[1] == 'a' && path[5] == 'a' && path[11] == 'r'
    ensures path == "/api/agent/requests" ==> |path| > 11 && path[1] == 'a' && path[5] == 'a' && path[11] == 'r'
    ensures path == "/api/dev/verify" ==> |path| > 11 && path[1] == 'a' && path[5] == 'd'
    ensures path == "/api/videos/cookies" || path == "/api/videos/process" ==> |path| > 11 && path[1] == 'a' && path[5] == 'v'
  {
    var webhook, admin := "/api/agent/integrations/telegram/", "/api/agent/requests/";
    assert |webhook| == 33 && webhook[1] == 'a' && webhook[5] == 'a' && webhook[11] == 'i';
    assert |admin| == 20 && admin[1] == 'a' && admin[5] == 'a' && admin[11] == 'r';
  }

  // ---------------------------------------------------------------- the middleware

  /** What becomes of the call to the counter: it may fail before or after it took effect. */
  datatype Fault = NoFault | LostRequest | LostAnswer

  datatype Arrival = Arrival(now: nat, request: Request, fault: Fault)

  datatype Decision = Served | Gone | Unavailable | TooMany(retryAfter: int)

  datatype Answer = Answer(decision: Decision, store: Store)

  /** The rule the limiter applies, if any. */
  function Limited(settings: Settings, request: Request): Option<Rule> {
    if !settings.hasCounter || !settings.enabled || request.verb == "OPTIONS" then None else RuleFor(request, settings)
  }

  /** The number of the window that a time is in: the whole seconds so far, by the length of a window. */
  function WindowAt(now: nat, seconds: nat): nat {
    if seconds == 0 then 0 else now / 1000 / seconds
  }

  function KeyOf(rule: Rule, kind: Kind, identity: string, now: nat): Key {
    Key(rule.name, kind, identity, WindowAt(now, rule.window))
  }

  function KeysOf(rule: Rule, arrival: Arrival): seq<Key> {
    [KeyOf(rule, Ip, arrival.request.ip, arrival.now)] +
    match arrival.request.guest
    case None => []
    case Some(guest) => [KeyOf(rule, Guest, guest, arrival.now)]
  }

  /** Groups that refuse service while the counter is out of order. */
  predicate FailsClosed(group: string) {
    group == "expensive" || group == "admin"
  }

  function Serve(settings: Settings, store: Store, arrival: Arrival): Answer {
    var limited := Limited(settings, arrival.request);
    if limited.None? then Answer(Served, store)
    else if limited.value.name == "chat" && !settings.chatbotEnabled then Answer(Gone, store)
    else
      var rule := limited.value;
      var counted := CountKeys(store, arrival.now, KeysOf(rule, arrival), rule.limit, rule.seconds);
      if arrival.fault != NoFault then
        Answer(if FailsClosed(rule.name) then Unavailable else Served,
               if arrival.fault == LostAnswer then counted.store else store)
      else if counted.exceeded then
        Answer(TooMany(if counted.retryAfter < 1 then 1 else counted.retryAfter), counted.store)
      else Answer(Served, counted.store)
  }

  method ServeHTTP(settings: Settings, counter: RedisCounter, arrival: Arrival) returns (decision: Decision)
    modifies counter
    ensures Answer(decision, counter.store) == Serve(settings, old(counter.store), arrival)
  {
    var request := arrival.request;
    if !settings.hasCounter || !settings.enabled || request.verb == "OPTIONS" {
      return Served;
    }
    var applies := RuleFor(request, settings);
    if applies.None? {
      return Served;
    }
    var rule := applies.value;
    if rule.name == "chat" && !settings.chatbotEnabled {
      return Gone;
    }
    var keys := [KeyOf(rule, Ip, request.ip, arrival.now)];
    var limits := [rule.limit];
    if request.guest.Some? {
      keys := keys + [KeyOf(rule, Guest, request.guest.value, arrival.now)];
      limits := limits + [rule.limit];
    }
    assert keys == KeysOf(rule, arrival);
    var exceeded, retryAfter := false, 0;
    if arrival.fault != LostRequest {
      exceeded, retryAfter := counter.Eval(arrival.now, keys, limits, rule.seconds, rule.limit);
    }
    if arrival.fault != NoFault {
      if rule.name == "expensive" || rule.name == "admin" {
        return Unavailable;
      }
      return Served;
    }
    if exceeded {
      if retryAfter < 1 {
        retryAfter := 1;
      }
      return TooMany(retryAfter);
    }
    return Served;
  }

  // ---------------------------------------------------------------- runs

  /** The counters after the arrivals, which may come with any times at all. */
  function StoreAfter(settings: Settings, arrivals: seq<Arrival>): Store {
    if arrivals == [] then map[]
    else Serve(settings, StoreAfter(settings, arrivals[..|arrivals| - 1]), arrivals[|arrivals| - 1]).store
  }

  function DecisionAt(settings: Settings, arrivals: seq<Arrival>, i: nat): Decision
    requires i < |arrivals|
  {
    Serve(settings, StoreAfter(settings, arrivals[..i]), arrivals[i]).decision
  }

  /** The rule under which the arrival is counted, unless it never reaches the counter. */
  function CountedBy(settings: Settings, arrival: Arrival): Option<Rule> {
    var limited := Limited(settings, arrival.request);
    if limited.Some? && !(limited.value.name == "chat" && !settings.chatbotEnabled) then limited else None
  }

  predicate Hits(settings: Settings, arrival: Arrival, key: Key) {
    var rule := CountedBy(settings, arrival);
    rule.Some? && key in KeysOf(rule.value, arrival)
  }

  /** Who is counted: in the rule's group and the window of the moment, the address and, if there is one, the guest. */
  lemma HitsIff(settings: Settings, arrival: Arrival, key: Key)
    ensures Hits(settings, arrival, key) <==>
            && CountedBy(settings, arrival).Some?
            && key.group == CountedBy(settings, arrival).value.name
            && (if CountedBy(settings, arrival).value.window == 0 then key.window == 0
                else key.window == arrival.now / 1000 / CountedBy(settings, arrival).value.window)
            && (|| (key.kind == Ip && key.identity == arrival.request.ip)
                || (key.kind == Guest && arrival.request.guest == Some(key.identity)))
  {
    hide CountedBy;
  }

  /** Requests that pass without being counted, and what a failing counter makes of the others. */
  lemma OtherDecisions(settings: Settings, store: Store, arrival: Arrival)
    ensures var request, answer := arrival.request, Serve(settings, store, arrival);
            var free := !settings.hasCounter || !settings.enabled || request.verb == "OPTIONS"
                        || request.path == "/health" || request.path == "/ready";
            var gone := !free && request.path == "/api/agent/chat" && !settings.chatbotEnabled;
            && (free ==> answer == Answer(Served, store))
            && (gone ==> answer == Answer(Gone, store))
            && (CountedBy(settings, arrival).Some? <==> !free && !gone)
            && (!free && !gone ==> CountedBy(settings, arrival) == RuleFor(request, settings))
            && (!free && !gone && arrival.fault != NoFault ==>
                  && answer.decision == (if CountedBy(settings, arrival).value.name in ["expensive", "admin"] then Unavailable else Served)
                  && (arrival.fault == LostRequest ==> answer.store == store))
  {
    hide CountKeys, KeysOf;
    GroupOfRequest(arrival.request, settings);
    hide RuleFor;
  }

  predicate Counts(settings: Settings, arrival: Arrival, key: Key) {
    Hits(settings, arrival, key) && arrival.fault != LostRequest
  }

  /** How many arrivals were counted under the key. */
  function HitCount(settings: Settings, arrivals: seq<Arrival>, key: Key): nat {
    if arrivals == [] then 0
    else
      var last := arrivals[|arrivals| - 1];
      HitCount(settings, arrivals[..|arrivals| - 1], key) + (if Counts(settings, last, key) then 1 else 0)
  }

  /** When the first arrival was counted under the key. */
  function FirstHit(settings: Settings, arrivals: seq<Arrival>, key: Key): Option<nat> {
    if arrivals == [] then None
    else
      var before, last := FirstHit(settings, arrivals[..|arrivals| - 1], key), arrivals[|arrivals| - 1];
      if before.None? && Counts(settings, last, key) then Some(last.now) else before
  }

  /** When the key's counter was started, if one more arrival is counted now. */
  function StartOf(settings: Settings, arrivals: seq<Arrival>, key: Key, now: nat): nat {
    var first := FirstHit(settings, arrivals, key);
    if first.Some? then first.value else now
  }

  /** When the last of the keys' counters was started. */
  function LatestStart(settings: Settings, arrivals: seq<Arrival>, keys: seq<Key>, now: nat): nat {
    if keys == [] then 0
    else
      var n := |keys| - 1;
      MaxInt(LatestStart(settings, arrivals, keys[..n], now), StartOf(settings, arrivals, keys[n], now))
  }

  /** The end of the window a key counts for. */
  function EndOf(key: Key): nat {
    1000 * ((key.window + 1) * WindowOf(key.group))
  }

  /** The counter that a key's history calls for: all its arrivals, for the length of a window from the first of them. */
  function CounterFor(settings: Settings, arrivals: seq<Arrival>, key: Key): Option<Entry> {
    var first := FirstHit(settings, arrivals, key);
    if first.None? then None
    else Some(Entry(HitCount(settings, arrivals, key), first.value + 1000 * WindowOf(key.group)))
  }

  function Stored(store: Store, key: Key): Option<Entry> {
    if key in store then Some(store[key]) else None
  }

  ghost predicate Counting(settings: Settings, store: Store, arrivals: seq<Arrival>, key: Key) {
    Stored(store, key) == CounterFor(settings, arrivals, key)
  }

  /** A key's counter when one more arrival has been counted now. */
  function OneMore(settings: Settings, arrivals: seq<Arrival>, key: Key, now: nat): Entry {
    Entry(HitCount(settings, arrivals, key) + 1, StartOf(settings, arrivals, key, now) + 1000 * WindowOf(key.group))
  }

  lemma WindowEnd(now: nat, window: nat)
    requires window == 60 || window == 600
    ensures 1000 * (WindowAt(now, window) * window) <= now < 1000 * ((WindowAt(now, window) + 1) * window)
  {
  }

  lemma {:induction false} FirstHitInWindow(settings: Settings, arrivals: seq<Arrival>, key: Key)
    ensures var first := FirstHit(settings, arrivals, key);
            if first.None? then HitCount(settings, arrivals, key) == 0
            else WindowAt(first.value, WindowOf(key.group)) == key.window
  {
    if arrivals != [] {
      hide RuleFor, WindowAt, WindowOf, LimitOf;
      FirstHitInWindow(settings, arrivals[..|arrivals| - 1], key);
      RuleOfGroup(arrivals[|arrivals| - 1].request, settings);
    }
  }

  /** A counter does not expire before its window has ended. */
  lemma OutlivesItsWindow(settings: Settings, arrivals: seq<Arrival>, key: Key)
    ensures var counter := CounterFor(settings, arrivals, key);
            counter.Some? ==> counter.value.expireAt >= EndOf(key)
  {
    hide HitCount, FirstHit, WindowAt;
    FirstHitInWindow(settings, arrivals, key);
    var first := FirstHit(settings, arrivals, key);
    if first.Some? {
      WindowEnd(first.value, WindowOf(key.group));
    }
  }

  lemma TouchCounts(settings: Settings, store: Store, arrivals: seq<Arrival>, key: Key, now: nat)
    requires Counting(settings, store, arrivals, key) && key.window == WindowAt(now, WindowOf(key.group))
    ensures Stored(Touch(store, now, key, WindowOf(key.group)), key) == Some(OneMore(settings, arrivals, key, now))
    ensures OneMore(settings, arrivals, key, now).expireAt > now
  {
    hide HitCount, FirstHit, WindowAt;
    FirstHitInWindow(settings, arrivals, key);
    OutlivesItsWindow(settings, arrivals, key);
    WindowEnd(now, WindowOf(key.group));
  }

  ghost predicate AllCounting(settings: Settings, store: Store, arrivals: seq<Arrival>) {
    forall key :: Counting(settings, store, arrivals, key)
  }

  /** Different keys of the window that `now` is in. */
  ghost predicate KeysOfNow(keys: seq<Key>, now: nat, seconds: nat) {
    && (forall i :: 0 <= i < |keys| ==> WindowOf(keys[i].group) == seconds && seconds >= 1 && keys[i].window == WindowAt(now, seconds))
    && (forall i, j :: 0 <= i < j < |keys| ==> keys[i] != keys[j])
  }

  /** Every key has been counted once. */
  ghost predicate OneMoreEach(settings: Settings, arrivals: seq<Arrival>, keys: seq<Key>, now: nat, after: Count) {
    forall i :: 0 <= i < |keys| ==> Stored(after.store, keys[i]) == Some(OneMore(settings, arrivals, keys[i], now))
  }

  ghost predicate OthersKept(store: Store, keys: seq<Key>, after: Store) {
    forall key :: key !in keys ==> Stored(after, key) == Stored(store, key)
  }

  ghost predicate OverLimit(settings: Settings, arrivals: seq<Arrival>, keys: seq<Key>, limit: int) {
    exists i :: 0 <= i < |keys| && HitCount(settings, arrivals, keys[i]) + 1 > limit
  }

  /** What is known after counting one key, given what was known before. */
  lemma OneMoreKey(settings: Settings, store: Store, arrivals: seq<Arrival>, keys: seq<Key>, key: Key, now: nat,
                   before: Count, limit: int, seconds: nat)
    requires Counting(settings, store, arrivals, key) && key !in keys
    requires seconds >= 1 && WindowOf(key.group) == seconds && key.window == WindowAt(now, seconds)
    requires OneMoreEach(settings, arrivals, keys, now, before) && OthersKept(store, keys, before.store)
    ensures var after := CountKey(before, now, key, limit, seconds);
            && OneMoreEach(settings, arrivals, keys + [key], now, after)
            && OthersKept(store, keys + [key], after.store)
            && after.exceeded == (before.exceeded || HitCount(settings, arrivals, key) + 1 > limit)
            && StartOf(settings, arrivals, key, now) + 1000 * seconds > now
            && after.retryAfter == MaxInt(before.retryAfter,
                                          TimeToLive(StartOf(settings, arrivals, key, now) + 1000 * seconds - now))
  {
    assert Counting(settings, before.store, arrivals, key);
    TouchCounts(settings, before.store, arrivals, key, now);
    hide HitCount, FirstHit, WindowOf, EndOf, TimeToLive;
    var after := CountKey(before, now, key, limit, seconds);
    OthersStay(store, keys, key, before.store, after.store);
    EachStays(settings, arrivals, keys, key, now, before, after);
  }

  lemma OthersStay(store: Store, keys: seq<Key>, key: Key, before: Store, after: Store)
    requires OthersKept(store, keys, before)
    requires forall k :: k != key ==> Stored(after, k) == Stored(before, k)
    ensures OthersKept(store, keys + [key], after)
  {
  }

  lemma EachStays(settings: Settings, arrivals: seq<Arrival>, keys: seq<Key>, key: Key, now: nat, before: Count, after: Count)
    requires OneMoreEach(settings, arrivals, keys, now, before) && key !in keys
    requires forall k :: k != key ==> Stored(after.store, k) == Stored(before.store, k)
    requires Stored(after.store, key) == Some(OneMore(settings, arrivals, key, now))
    ensures OneMoreEach(settings, arrivals, keys + [key], now, after)
  {
    hide OneMore, Stored;
    assert forall i :: 0 <= i < |keys| ==> (keys + [key])[i] == keys[i] && keys[i] in keys;
  }

  lemma OneMoreOverLimit(settings: Settings, arrivals: seq<Arrival>, keys: seq<Key>, key: Key, limit: int)
    ensures OverLimit(settings, arrivals, keys + [key], limit)
            <==> OverLimit(settings, arrivals, keys, limit) || HitCount(settings, arrivals, key) + 1 > limit
  {
    hide HitCount;
    var all := keys + [key];
    assert all[|keys|] == key;
    if i :| 0 <= i < |keys| && HitCount(settings, arrivals, keys[i]) + 1 > limit {
      assert all[i] == keys[i];
    }
  }

  /** What counting the keys of an arrival does. */
  lemma {:induction false} KeysCounted(settings: Settings, store: Store, arrivals: seq<Arrival>, keys: seq<Key>, now: nat,
                                       limit: int, seconds: nat)
    requires AllCounting(settings, store, arrivals) && KeysOfNow(keys, now, seconds)
    ensures var after := CountKeys(store, now, keys, limit, seconds);
            && OneMoreEach(settings, arrivals, keys, now, after)
            && OthersKept(store, keys, after.store)
            && (after.exceeded <==> OverLimit(settings, arrivals, keys, limit))
            && Waits(settings, arrivals, keys, now, seconds, after.retryAfter)
    decreases |keys|
  {
    hide HitCount, WindowOf, EndOf, OneMoreEach, OthersKept, OverLimit, Counting, CountKey, CountKeys, KeysOfNow, Waits, StartOf;
    if keys == [] {
      NoKeysCounted(settings, store, arrivals, now, limit, seconds);
    } else {
      var n := |keys| - 1;
      CountKeysSnoc(store, now, keys[..n], keys[n], limit, seconds);
      LastOfNow(keys, now, seconds);
      KeysCounted(settings, store, arrivals, keys[..n], now, limit, seconds);
      assert Counting(settings, store, arrivals, keys[n]);
      OneMoreKey(settings, store, arrivals, keys[..n], keys[n], now, CountKeys(store, now, keys[..n], limit, seconds), limit, seconds);
      OneMoreOverLimit(settings, arrivals, keys[..n], keys[n], limit);
      OneMoreWaits(settings, arrivals, keys[..n], keys[n], now, seconds, CountKeys(store, now, keys[..n], limit, seconds).retryAfter);
      assert keys == keys[..n] + [keys[n]];
    }
  }

  lemma NoKeysCounted(settings: Settings, store: Store, arrivals: seq<Arrival>, now: nat, limit: int, seconds: nat)
    ensures var after := CountKeys(store, now, [], limit, seconds);
            OneMoreEach(settings, arrivals, [], now, after) && OthersKept(store, [], after.store) && !after.exceeded
    ensures !OverLimit(settings, arrivals, [], limit)
    ensures Waits(settings, arrivals, [], now, seconds, CountKeys(store, now, [], limit, seconds).retryAfter)
  {
  }

  /** The time to live of the counter that was started last, in rounded seconds. */
  ghost predicate Waits(settings: Settings, arrivals: seq<Arrival>, keys: seq<Key>, now: nat, seconds: nat, retryAfter: int) {
    retryAfter == if keys == [] then 0 else TimeToLive(LatestStart(settings, arrivals, keys, now) + 1000 * seconds - now)
  }

  lemma OneMoreWaits(settings: Settings, arrivals: seq<Arrival>, keys: seq<Key>, key: Key, now: nat, seconds: nat, retryAfter: int)
    requires Waits(settings, arrivals, keys, now, seconds, retryAfter)
    requires StartOf(settings, arrivals, key, now) + 1000 * seconds > now
    ensures Waits(settings, arrivals, keys + [key], now, seconds,
                  MaxInt(retryAfter, TimeToLive(StartOf(settings, arrivals, key, now) + 1000 * seconds - now)))
  {
    hide StartOf, TimeToLive, LatestStart;
    LatestStartSnoc(settings, arrivals, keys, key, now);
    TimeToLiveGrows(LatestStart(settings, arrivals, keys, now), StartOf(settings, arrivals, key, now), 1000 * seconds - now);
  }

  lemma LatestStartSnoc(settings: Settings, arrivals: seq<Arrival>, keys: seq<Key>, key: Key, now: nat)
    ensures LatestStart(settings, arrivals, keys + [key], now) ==
            if keys == [] then StartOf(settings, arrivals, key, now)
            else MaxInt(LatestStart(settings, arrivals, keys, now), StartOf(settings, arrivals, key, now))
  {
    hide StartOf;
    assert (keys + [key])[..|keys|] == keys;
  }

  lemma TimeToLiveGrows(a: int, b: int, c: int)
    ensures MaxInt(TimeToLive(a + c), TimeToLive(b + c)) == TimeToLive(MaxInt(a, b) + c)
    ensures b + c >= 0 ==> TimeToLive(b + c) >= 0
  {
  }

  lemma CountKeysSnoc(store: Store, now: nat, keys: seq<Key>, key: Key, limit: int, seconds: nat)
    ensures CountKeys(store, now, keys + [key], limit, seconds)
         == CountKey(CountKeys(store, now, keys, limit, seconds), now, key, limit, seconds)
  {
    assert (keys + [key])[..|keys|] == keys;
  }

  lemma LastOfNow(keys: seq<Key>, now: nat, seconds: nat)
    requires keys != [] && KeysOfNow(keys, now, seconds)
    ensures var n := |keys| - 1;
            && KeysOfNow(keys[..n], now, seconds) && keys[n] !in keys[..n]
            && seconds >= 1 && WindowOf(keys[n].group) == seconds && keys[n].window == WindowAt(now, seconds)
  {
    hide WindowOf;
  }

  lemma KeysAreOfNow(settings: Settings, arrival: Arrival)
    requires CountedBy(settings, arrival).Some?
    ensures var rule := CountedBy(settings, arrival).value;
            KeysOfNow(KeysOf(rule, arrival), arrival.now, rule.seconds)
  {
    RuleOfGroup(arrival.request, settings);
  }

  lemma {:induction false} CountersCount(settings: Settings, arrivals: seq<Arrival>)
    ensures AllCounting(settings, StoreAfter(settings, arrivals), arrivals)
    ensures forall key :: key in StoreAfter(settings, arrivals) ==> StoreAfter(settings, arrivals)[key].expireAt >= EndOf(key)
  {
    if arrivals != [] {
      var n := |arrivals| - 1;
      hide Counting, Serve;
      CountersCount(settings, arrivals[..n]);
      forall key ensures Counting(settings, StoreAfter(settings, arrivals), arrivals, key) {
        ServeCounts(settings, StoreAfter(settings, arrivals[..n]), arrivals, key);
      }
    }
    CountersOutlive(settings, StoreAfter(settings, arrivals), arrivals);
  }

  lemma CountersOutlive(settings: Settings, store: Store, arrivals: seq<Arrival>)
    requires AllCounting(settings, store, arrivals)
    ensures forall key :: key in store ==> store[key].expireAt >= EndOf(key)
  {
    hide CounterFor;
    forall key | key in store ensures store[key].expireAt >= EndOf(key) {
      assert Counting(settings, store, arrivals, key);
      OutlivesItsWindow(settings, arrivals, key);
    }
  }

  lemma ServeCounts(settings: Settings, store: Store, arrivals: seq<Arrival>, key: Key)
    requires arrivals != [] && AllCounting(settings, store, arrivals[..|arrivals| - 1])
    ensures Counting(settings, Serve(settings, store, arrivals[|arrivals| - 1]).store, arrivals, key)
  {
    hide CountKeys, KeysOf, RuleFor;
    var n := |arrivals| - 1;
    assert Counting(settings, store, arrivals[..n], key);
    if CountedBy(settings, arrivals[n]).Some? {
      var rule := CountedBy(settings, arrivals[n]).value;
      KeysAreOfNow(settings, arrivals[n]);
      KeysCounted(settings, store, arrivals[..n], KeysOf(rule, arrivals[n]), arrivals[n].now, rule.limit, rule.seconds);
    }
  }

  lemma ServedByKeys(settings: Settings, arrivals: seq<Arrival>, i: nat)
    requires i < |arrivals| && CountedBy(settings, arrivals[i]).Some? && arrivals[i].fault == NoFault
    ensures var rule, before, now := CountedBy(settings, arrivals[i]).value, arrivals[..i], arrivals[i].now;
            var keys := KeysOf(rule, arrivals[i]);
            && DecisionAt(settings, arrivals, i)
               == (if forall k :: 0 <= k < |keys| ==> HitCount(settings, before, keys[k]) < rule.limit then Served
                   else TooMany(MaxInt(1, TimeToLive(LatestStart(settings, before, keys, now) + 1000 * rule.window - now))))
  {
    hide RuleFor, CountKeys, HitCount, StoreAfter, LimitOf, OthersKept, AllCounting, KeysOfNow, TimeToLive, LatestStart;
    CountersCount(settings, arrivals[..i]);
    RuleOfGroup(arrivals[i].request, settings);
    KeysAreOfNow(settings, arrivals[i]);
    var rule := CountedBy(settings, arrivals[i]).value;
    KeysCounted(settings, StoreAfter(settings, arrivals[..i]), arrivals[..i], KeysOf(rule, arrivals[i]), arrivals[i].now,
                rule.limit, rule.seconds);
  }

  /** When the last counter of a request was started: its address's or its guest's, or now if neither has been. */
  ghost function LastStarted(settings: Settings, arrivals: seq<Arrival>, rule: Rule, arrival: Arrival): nat
    requires rule.window >= 1
  {
    var request, now, window := arrival.request, arrival.now, arrival.now / 1000 / rule.window;
    var byAddress := FirstHit(settings, arrivals, Key(rule.name, Ip, request.ip, window));
    var byGuest := if request.guest.None? then None else FirstHit(settings, arrivals, Key(rule.name, Guest, request.guest.value, window));
    var addressStarted := if byAddress.Some? then byAddress.value else now;
    var guestStarted := if byGuest.Some? then byGuest.value else if request.guest.Some? then now else addressStarted;
    if guestStarted > addressStarted then guestStarted else addressStarted
  }

  lemma LastStartedIs(settings: Settings, arrivals: seq<Arrival>, rule: Rule, arrival: Arrival)
    requires rule.window >= 1
    ensures LatestStart(settings, arrivals, KeysOf(rule, arrival), arrival.now) == LastStarted(settings, arrivals, rule, arrival)
  {
    hide FirstHit;
    var keys := KeysOf(rule, arrival);
    assert [keys[0]][..0] == [];
    assert LatestStart(settings, arrivals, [keys[0]], arrival.now) == StartOf(settings, arrivals, keys[0], arrival.now);
    assert keys == if arrival.request.guest.Some? then [keys[0], keys[1]] else [keys[0]];
    if arrival.request.guest.Some? {
      assert keys[..1] == [keys[0]];
    }
  }

  /**
   Which requests are served, exactly: with a working counter, a limited request is served if and only if it is among
   the first `limit` ones of its window for each of its identities. A refused one is told to wait until a window's length
   has passed since the last of its counters was started, rounded to seconds and at least one second.
   */
  lemma ServedIffWithinLimit(settings: Settings, arrivals: seq<Arrival>, i: nat)
    requires i < |arrivals| && CountedBy(settings, arrivals[i]).Some? && arrivals[i].fault == NoFault
    ensures CountedBy(settings, arrivals[i]).value.window >= 1
    ensures var rule, before, now, request := CountedBy(settings, arrivals[i]).value, arrivals[..i], arrivals[i].now, arrivals[i].request;
            var window := now / 1000 / rule.window;
            var wait := (LastStarted(settings, before, rule, arrivals[i]) + 1000 * rule.window - now + 500) / 1000;
            DecisionAt(settings, arrivals, i)
            == (if && HitCount(settings, before, Key(rule.name, Ip, request.ip, window)) < rule.limit
                   && (request.guest.Some? ==>
                         HitCount(settings, before, Key(rule.name, Guest, request.guest.value, window)) < rule.limit)
                then Served else TooMany(if wait < 1 then 1 else wait))
  {
    hide RuleFor, HitCount, FirstHit, LatestStart, DecisionAt, LimitOf, LastStarted;
    var rule := CountedBy(settings, arrivals[i]).value;
    RuleOfGroup(arrivals[i].request, settings);
    ServedByKeys(settings, arrivals, i);
    LastStartedIs(settings, arrivals[..i], rule, arrivals[i]);
    var keys := KeysOf(rule, arrivals[i]);
    assert keys[0] == Key(rule.name, Ip, arrivals[i].request.ip, arrivals[i].now / 1000 / rule.window);
    if arrivals[i].request.guest.Some? {
      assert keys[1] == Key(rule.name, Guest, arrivals[i].request.guest.value, arrivals[i].now / 1000 / rule.window);
    }
  }

  // ---------------------------------------------------------------- what waiting is worth

  predicate Refused(settings: Settings, arrivals: seq<Arrival>, i: nat)
    requires i < |arrivals|
  {
    CountedBy(settings, arrivals[i]).Some? && arrivals[i].fault == NoFault && !DecisionAt(settings, arrivals, i).Served?
  }

  /** The counters of a request were all started in its window. */
  lemma StartedInWindow(settings: Settings, arrivals: seq<Arrival>, arrival: Arrival)
    requires CountedBy(settings, arrival).Some?
    ensures var rule := CountedBy(settings, arrival).value;
            var start := LatestStart(settings, arrivals, KeysOf(rule, arrival), arrival.now);
            && (rule.window == 60 || rule.window == 600)
            && WindowAt(start, rule.window) == WindowAt(arrival.now, rule.window)
  {
    hide RuleFor, FirstHit, WindowAt, LimitOf, LatestStart;
    var rule := CountedBy(settings, arrival).value;
    RuleOfGroup(arrival.request, settings);
    var keys := KeysOf(rule, arrival);
    LatestIsAStart(settings, arrivals, keys, arrival.now);
    var k :| 0 <= k < |keys| && LatestStart(settings, arrivals, keys, arrival.now) == StartOf(settings, arrivals, keys[k], arrival.now);
    FirstHitInWindow(settings, arrivals, keys[k]);
  }

  lemma {:induction false} LatestIsAStart(settings: Settings, arrivals: seq<Arrival>, keys: seq<Key>, now: nat)
    requires keys != []
    ensures exists k :: 0 <= k < |keys| && LatestStart(settings, arrivals, keys, now) == StartOf(settings, arrivals, keys[k], now)
    decreases |keys|
  {
    hide StartOf;
    var n := |keys| - 1;
    if n == 0 {
      assert keys[..n] == [];
      assert LatestStart(settings, arrivals, keys, now) == StartOf(settings, arrivals, keys[0], now);
    } else {
      LatestIsAStart(settings, arrivals, keys[..n], now);
      var k :| 0 <= k < n && LatestStart(settings, arrivals, keys[..n], now) == StartOf(settings, arrivals, keys[..n][k], now);
      assert keys[..n][k] == keys[k];
      assert LatestStart(settings, arrivals, keys, now) == StartOf(settings, arrivals, keys[k], now)
          || LatestStart(settings, arrivals, keys, now) == StartOf(settings, arrivals, keys[n], now);
    }
  }

  /** Rounding a wait that ends `late` milliseconds after the window does. */
  lemma RoundedWait(now: nat, start: nat, window: nat)
    requires (window == 60 || window == 600) && WindowAt(start, window) == WindowAt(now, window)
    ensures var left, late := start + 1000 * window - now, start - 1000 * (WindowAt(now, window) * window);
            var wait := 1000 * MaxInt(1, TimeToLive(left));
            && left > 0 && late >= 0
            && (WindowAt(now + wait, window) == WindowAt(now, window) <==> left >= 1000 && late < left % 1000 < 500)
            && WindowAt(now + wait + 1000, window) > WindowAt(now, window)
            && now + wait > 1000 * ((WindowAt(now, window) + 1) * window) - 500
  {
  }

  /**
   Waiting as long as told does not always reach a later window. With `left` milliseconds to live for the counter started
   last, `late` of which lie beyond the window, the wait ends inside the same window if and only if it is a second or more
   and rounding takes more off it than lies beyond. It is then less than half a second short, and one second more always
   reaches a later window.
   */
  lemma RetryAfterFallsShortIff(settings: Settings, arrivals: seq<Arrival>, i: nat)
    requires i < |arrivals| && Refused(settings, arrivals, i)
    ensures CountedBy(settings, arrivals[i]).value.window >= 1
    ensures var rule, now, decision := CountedBy(settings, arrivals[i]).value, arrivals[i].now, DecisionAt(settings, arrivals, i);
            var window := WindowAt(now, rule.window);
            var start := LastStarted(settings, arrivals[..i], rule, arrivals[i]);
            var left, late := start + 1000 * rule.window - now, start - 1000 * (window * rule.window);
            && decision.TooMany? && decision.retryAfter >= 1
            && (WindowAt(now + 1000 * decision.retryAfter, rule.window) == window <==> left >= 1000 && late < left % 1000 < 500)
            && now + 1000 * decision.retryAfter > 1000 * ((window + 1) * rule.window) - 500
            && WindowAt(now + 1000 * decision.retryAfter + 1000, rule.window) > window
  {
    hide CountedBy, KeysOf, DecisionAt, LatestStart, HitCount, WindowAt, TimeToLive, LastStarted;
    var rule, now := CountedBy(settings, arrivals[i]).value, arrivals[i].now;
    ServedByKeys(settings, arrivals, i);
    StartedInWindow(settings, arrivals[..i], arrivals[i]);
    LastStartedIs(settings, arrivals[..i], rule, arrivals[i]);
    RoundedWait(now, LatestStart(settings, arrivals[..i], KeysOf(rule, arrivals[i]), now), rule.window);
  }

  lemma {:induction false} HitsGrow(settings: Settings, arrivals: seq<Arrival>, i: nat, key: Key)
    requires i <= |arrivals|
    ensures HitCount(settings, arrivals[..i], key) <= HitCount(settings, arrivals, key)
    decreases |arrivals|
  {
    if i < |arrivals| {
      HitsGrow(settings, arrivals[..|arrivals| - 1], i, key);
      assert arrivals[..|arrivals| - 1][..i] == arrivals[..i];
    } else {
      assert arrivals[..i] == arrivals;
    }
  }

  /** A refused request that comes back in the same window, however long it waited, is refused again. */
  lemma RefusedForTheWindow(settings: Settings, arrivals: seq<Arrival>, i: nat, j: nat)
    requires i <= j < |arrivals| && Refused(settings, arrivals, i)
    requires arrivals[j].request == arrivals[i].request && arrivals[j].fault == NoFault
    requires var window := CountedBy(settings, arrivals[i]).value.window;
             WindowAt(arrivals[j].now, window) == WindowAt(arrivals[i].now, window)
    ensures Refused(settings, arrivals, j)
  {
    hide RuleFor, DecisionAt, LatestStart, HitCount, WindowAt, TimeToLive;
    var rule := CountedBy(settings, arrivals[i]).value;
    var keys := KeysOf(rule, arrivals[i]);
    ServedByKeys(settings, arrivals, i);
    ServedByKeys(settings, arrivals, j);
    var k :| 0 <= k < |keys| && HitCount(settings, arrivals[..i], keys[k]) >= rule.limit;
    HitsGrow(settings, arrivals[..j], i, keys[k]);
    assert arrivals[..j][..i] == arrivals[..i];
    assert KeysOf(rule, arrivals[j])[k] == keys[k];
  }

  const EXAMPLE_SETTINGS := Settings(true, true, true, 1, 1, 1, 1)
  const EXAMPLE_REQUEST := Request("GET", "/x", "a", None)
  const EXAMPLE_ARRIVALS := [Arrival(0, EXAMPLE_REQUEST, NoFault), Arrival(30600, EXAMPLE_REQUEST, NoFault),
                             Arrival(59600, EXAMPLE_REQUEST, NoFault)]

  /** One request a minute: 30.6 seconds after the first it is told to wait 29, and is refused again when it has. */
  lemma RetryAfterExample()
    ensures DecisionAt(EXAMPLE_SETTINGS, EXAMPLE_ARRIVALS, 0) == Served
    ensures DecisionAt(EXAMPLE_SETTINGS, EXAMPLE_ARRIVALS, 1) == TooMany(29)
    ensures EXAMPLE_ARRIVALS[2].now == EXAMPLE_ARRIVALS[1].now + 1000 * 29 && Refused(EXAMPLE_SETTINGS, EXAMPLE_ARRIVALS, 2)
  {
    hide RuleFor, CountedBy, KeysOf, DecisionAt, HitCount, LatestStart;
    ExampleKeys(0);
    ExampleKeys(1);
    ExampleCounts();
    assert EXAMPLE_ARRIVALS[..0] == [] && EXAMPLE_ARRIVALS[..1] == [EXAMPLE_ARRIVALS[0]];
    ServedByKeys(EXAMPLE_SETTINGS, EXAMPLE_ARRIVALS, 0);
    ServedByKeys(EXAMPLE_SETTINGS, EXAMPLE_ARRIVALS, 1);
    assert Refused(EXAMPLE_SETTINGS, EXAMPLE_ARRIVALS, 1);
    RefusedForTheWindow(EXAMPLE_SETTINGS, EXAMPLE_ARRIVALS, 1, 2);
  }

  const EXAMPLE_RULE := Rule("read", 1, 60, 60)
  const EXAMPLE_KEY := Key("read", Ip, "a", 0)

  lemma ExampleKeys(i: nat)
    requires i < 3
    ensures CountedBy(EXAMPLE_SETTINGS, EXAMPLE_ARRIVALS[i]) == Some(EXAMPLE_RULE)
    ensures KeysOf(EXAMPLE_RULE, EXAMPLE_ARRIVALS[i]) == [EXAMPLE_KEY]
  {
    assert RuleFor(EXAMPLE_REQUEST, EXAMPLE_SETTINGS) == Some(EXAMPLE_RULE);
    hide RuleFor;
  }

  lemma ExampleCounts()
    ensures HitCount(EXAMPLE_SETTINGS, [], EXAMPLE_KEY) == 0
    ensures HitCount(EXAMPLE_SETTINGS, [EXAMPLE_ARRIVALS[0]], EXAMPLE_KEY) == 1
    ensures LatestStart(EXAMPLE_SETTINGS, [EXAMPLE_ARRIVALS[0]], [EXAMPLE_KEY], 30600) == 0
  {
    hide CountedBy, KeysOf;
    ExampleKeys(0);
    assert [EXAMPLE_ARRIVALS[0]][..0] == [] && [EXAMPLE_KEY][..0] == [];
    assert Hits(EXAMPLE_SETTINGS, EXAMPLE_ARRIVALS[0], EXAMPLE_KEY);
    assert FirstHit(EXAMPLE_SETTINGS, [EXAMPLE_ARRIVALS[0]], EXAMPLE_KEY) == Some(0);
    LatestIsAStart(EXAMPLE_SETTINGS, [EXAMPLE_ARRIVALS[0]], [EXAMPLE_KEY], 30600);
  }

  // ---------------------------------------------------------------- how many requests get through

  /** A request served because the limit allows it, or past a counter that failed although its group fails closed. */
  predicate Admitted(settings: Settings, arrivals: seq<Arrival>, i: nat, key: Key)
    requires i < |arrivals|
  {
    && Hits(settings, arrivals[i], key)
    && DecisionAt(settings, arrivals, i).Served?
    && (arrivals[i].fault == NoFault || FailsClosed(key.group))
  }

  function Admissions(settings: Settings, arrivals: seq<Arrival>, key: Key): nat {
    if arrivals == [] then 0
    else Admissions(settings, arrivals[..|arrivals| - 1], key) + (if Admitted(settings, arrivals, |arrivals| - 1, key) then 1 else 0)
  }

  lemma AdmittedIsWithinLimit(settings: Settings, arrivals: seq<Arrival>, key: Key)
    requires arrivals != [] && Admitted(settings, arrivals, |arrivals| - 1, key)
    ensures arrivals[|arrivals| - 1].fault == NoFault
    ensures HitCount(settings, arrivals[..|arrivals| - 1], key) < LimitOf(key.group, settings)
  {
    var n := |arrivals| - 1;
    var rule := CountedBy(settings, arrivals[n]).value;
    RuleOfGroup(arrivals[n].request, settings);
    assert key.group == rule.name;
    ServedByKeys(settings, arrivals, n);
    var keys := KeysOf(rule, arrivals[n]);
    var k :| 0 <= k < |keys| && keys[k] == key;
  }

  /**
   At most `limit` requests of an identity are let through in a window. Requests let through because the counter
   failed are not among them; the expensive and the admin group let none of those through.
   */
  lemma {:induction false} AtMostLimitPerWindow(settings: Settings, arrivals: seq<Arrival>, key: Key)
    ensures Admissions(settings, arrivals, key) <= HitCount(settings, arrivals, key)
    ensures Admissions(settings, arrivals, key) <= if LimitOf(key.group, settings) >= 0 then LimitOf(key.group, settings) else 0
  {
    if arrivals != [] {
      AtMostLimitPerWindow(settings, arrivals[..|arrivals| - 1], key);
      if Admitted(settings, arrivals, |arrivals| - 1, key) {
        AdmittedIsWithinLimit(settings, arrivals, key);
      }
    }
  }

  /** Requests of an identity let through from one time on and before another. */
  function AdmissionsBetween(settings: Settings, arrivals: seq<Arrival>, group: string, kind: Kind, identity: string,
                             from: nat, until: nat): nat
  {
    if arrivals == [] then 0
    else
      var n := |arrivals| - 1;
      var key := Key(group, kind, identity, WindowAt(arrivals[n].now, WindowOf(group)));
      AdmissionsBetween(settings, arrivals[..n], group, kind, identity, from, until)
      + (if from <= arrivals[n].now < until && Admitted(settings, arrivals, n, key) then 1 else 0)
  }

  lemma {:induction false} TwoWindows(settings: Settings, arrivals: seq<Arrival>, group: string, kind: Kind, identity: string,
                                      from: nat, first: Key, second: Key)
    requires first == Key(group, kind, identity, WindowAt(from, WindowOf(group)))
    requires second == Key(group, kind, identity, WindowAt(from, WindowOf(group)) + 1)
    ensures AdmissionsBetween(settings, arrivals, group, kind, identity, from, from + 1000 * WindowOf(group))
         <= Admissions(settings, arrivals, first) + Admissions(settings, arrivals, second)
  {
    hide Admitted, LimitOf;
    if arrivals != [] {
      TwoWindows(settings, arrivals[..|arrivals| - 1], group, kind, identity, from, first, second);
      WithinTwoWindows(from, arrivals[|arrivals| - 1].now, WindowOf(group));
    }
  }

  lemma WithinTwoWindows(from: nat, now: nat, window: nat)
    requires window == 60 || window == 600
    ensures from <= now < from + 1000 * window ==>
              WindowAt(now, window) == WindowAt(from, window) || WindowAt(now, window) == WindowAt(from, window) + 1
  {
  }

  /** In any stretch of time as long as a window, at most twice the limit gets through. */
  lemma AtMostTwiceTheLimit(settings: Settings, arrivals: seq<Arrival>, group: string, kind: Kind, identity: string, from: nat)
    ensures AdmissionsBetween(settings, arrivals, group, kind, identity, from, from + 1000 * WindowOf(group))
         <= 2 * (if LimitOf(group, settings) >= 0 then LimitOf(group, settings) else 0)
  {
    var first, second := Key(group, kind, identity, WindowAt(from, WindowOf(group))), Key(group, kind, identity, WindowAt(from, WindowOf(group)) + 1);
    TwoWindows(settings, arrivals, group, kind, identity, from, first, second);
    AtMostLimitPerWindow(settings, arrivals, first);
    AtMostLimitPerWindow(settings, arrivals, second);
  }

  // ---------------------------------------------------------------- the bound is reached

  function Repeat(arrival: Arrival, n: nat): seq<Arrival> {
    seq(n, i => arrival)
  }

  lemma {:induction false} RepeatedHits(settings: Settings, before: seq<Arrival>, arrival: Arrival, n: nat, key: Key)
    requires arrival.fault == NoFault
    ensures HitCount(settings, before + Repeat(arrival, n), key)
         == HitCount(settings, before, key) + (if Hits(settings, arrival, key) then n else 0)
  {
    if n == 0 {
      assert before + Repeat(arrival, 0) == before;
    } else {
      hide Hits;
      RepeatedHits(settings, before, arrival, n - 1, key);
      var all := before + Repeat(arrival, n);
      assert all[..|all| - 1] == before + Repeat(arrival, n - 1) && all[|all| - 1] == arrival;
    }
  }

  /** A burst that finds its window's counters at zero gets through up to the limit. */
  lemma {:induction false} BurstIsServed(settings: Settings, before: seq<Arrival>, arrival: Arrival, n: nat, from: nat, until: nat)
    requires arrival.fault == NoFault && from <= arrival.now < until
    requires CountedBy(settings, arrival).Some? && n <= CountedBy(settings, arrival).value.limit
    requires forall key :: Hits(settings, arrival, key) ==> HitCount(settings, before, key) == 0
    ensures var rule := CountedBy(settings, arrival).value;
            AdmissionsBetween(settings, before + Repeat(arrival, n), rule.name, Ip, arrival.request.ip, from, until) ==
            AdmissionsBetween(settings, before, rule.name, Ip, arrival.request.ip, from, until) + n
  {
    hide *;
    RepeatedOnce(before, arrival, n);
    if n > 0 {
      BurstIsServed(settings, before, arrival, n - 1, from, until);
      var all := before + Repeat(arrival, n);
      NextOfBurst(settings, before, arrival, n - 1, all);
      var rule := CountedBy(settings, arrival).value;
      OneMoreAdmission(settings, all, rule.name, Ip, arrival.request.ip, from, until);
    }
  }

  lemma RepeatedOnce(before: seq<Arrival>, arrival: Arrival, n: nat)
    ensures var all := before + Repeat(arrival, n);
            if n == 0 then all == before
            else all != [] && all[..|all| - 1] == before + Repeat(arrival, n - 1) && all[|all| - 1] == arrival
  {
  }

  lemma OneMoreAdmission(settings: Settings, arrivals: seq<Arrival>, group: string, kind: Kind, identity: string,
                         from: nat, until: nat)
    requires arrivals != []
    requires var last := arrivals[|arrivals| - 1];
             && from <= last.now < until
             && Admitted(settings, arrivals, |arrivals| - 1, Key(group, kind, identity, WindowAt(last.now, WindowOf(group))))
    ensures AdmissionsBetween(settings, arrivals, group, kind, identity, from, until) ==
            AdmissionsBetween(settings, arrivals[..|arrivals| - 1], group, kind, identity, from, until) + 1
  {
    hide Admitted;
  }

  lemma NextOfBurst(settings: Settings, before: seq<Arrival>, arrival: Arrival, m: nat, all: seq<Arrival>)
    requires arrival.fault == NoFault && all != [] && all[..|all| - 1] == before + Repeat(arrival, m) && all[|all| - 1] == arrival
    requires CountedBy(settings, arrival).Some? && m < CountedBy(settings, arrival).value.limit
    requires forall key :: Hits(settings, arrival, key) ==> HitCount(settings, before, key) == 0
    ensures var rule := CountedBy(settings, arrival).value;
            Admitted(settings, all, |all| - 1, Key(rule.name, Ip, arrival.request.ip, WindowAt(arrival.now, WindowOf(rule.name))))
  {
    hide RuleFor, Serve, HitCount;
    var rule := CountedBy(settings, arrival).value;
    var keys := KeysOf(rule, arrival);
    RuleOfGroup(arrival.request, settings);
    forall k | 0 <= k < |keys| ensures HitCount(settings, before + Repeat(arrival, m), keys[k]) < rule.limit {
      assert Hits(settings, arrival, keys[k]);
      RepeatedHits(settings, before, arrival, m, keys[k]);
    }
    ServedByKeys(settings, all, |all| - 1);
    assert keys[0] == Key(rule.name, Ip, arrival.request.ip, WindowAt(arrival.now, WindowOf(rule.name)));
    assert keys[0] in keys;
  }

  /** `limit` requests in the last millisecond of a window and `limit` in the first of the next all get through. */
  lemma TwiceTheLimitIsReached(settings: Settings, request: Request, limit: nat)
    requires CountedBy(settings, Arrival(0, request, NoFault)).Some?
    requires CountedBy(settings, Arrival(0, request, NoFault)).value.limit == limit
    ensures var rule := CountedBy(settings, Arrival(0, request, NoFault)).value;
            var w := 1000 * WindowOf(rule.name);
            var arrivals := Repeat(Arrival(w - 1, request, NoFault), limit) + Repeat(Arrival(w, request, NoFault), limit);
            AdmissionsBetween(settings, arrivals, rule.name, Ip, request.ip, w - 1, 2 * w - 1) == 2 * limit
  {
    hide *;
    var rule := CountedRule(settings, request);
    var w := 1000 * WindowOf(rule.name);
    var early, late := Arrival(w - 1, request, NoFault), Arrival(w, request, NoFault);
    assert CountedBy(settings, early) == CountedBy(settings, late) == Some(rule);
    FirstBurst(settings, early, limit, rule, w);
    NextWindowIsEmpty(settings, early, late, limit, rule);
    BurstIsServed(settings, Repeat(early, limit), late, limit, w - 1, 2 * w - 1);
  }

  /** The rule of a request does not depend on when it arrives, and has the window of its group. */
  lemma CountedRule(settings: Settings, request: Request) returns (rule: Rule)
    requires CountedBy(settings, Arrival(0, request, NoFault)).Some?
    ensures forall now: nat :: CountedBy(settings, Arrival(now, request, NoFault)) == Some(rule)
    ensures rule.window == rule.seconds == WindowOf(rule.name) && rule.window >= 60
  {
    hide RuleFor;
    rule := CountedBy(settings, Arrival(0, request, NoFault)).value;
    RuleOfGroup(request, settings);
  }

  lemma FirstBurst(settings: Settings, early: Arrival, limit: nat, rule: Rule, w: nat)
    requires early.fault == NoFault && CountedBy(settings, early) == Some(rule) && rule.limit == limit && w >= 1 && early.now == w - 1
    ensures AdmissionsBetween(settings, Repeat(early, limit), rule.name, Ip, early.request.ip, w - 1, 2 * w - 1) == limit
  {
    hide *;
    NothingAdmitted(settings, rule.name, early.request.ip, w);
    assert [] + Repeat(early, limit) == Repeat(early, limit);
    BurstIsServed(settings, [], early, limit, w - 1, 2 * w - 1);
  }

  lemma NothingAdmitted(settings: Settings, name: string, ip: string, w: nat)
    requires w >= 1
    ensures AdmissionsBetween(settings, [], name, Ip, ip, w - 1, 2 * w - 1) == 0
    ensures forall key :: HitCount(settings, [], key) == 0
  {
  }

  lemma NextWindowIsEmpty(settings: Settings, early: Arrival, late: Arrival, limit: nat, rule: Rule)
    requires early.fault == NoFault && late.request == early.request
    requires CountedBy(settings, early) == CountedBy(settings, late) == Some(rule)
    requires rule.window == WindowOf(rule.name) && early.now == 1000 * rule.window - 1 && late.now == 1000 * rule.window
    ensures forall key :: Hits(settings, late, key) ==> HitCount(settings, Repeat(early, limit), key) == 0
  {
    hide CountedBy, HitCount;
    forall key | Hits(settings, late, key) ensures HitCount(settings, Repeat(early, limit), key) == 0 {
      OtherWindow(rule, early, late, key);
      RepeatedHits(settings, [], early, limit, key);
      assert [] + Repeat(early, limit) == Repeat(early, limit);
      NoHits(settings, key);
    }
  }

  lemma NoHits(settings: Settings, key: Key)
    ensures HitCount(settings, [], key) == 0
  {
  }

  lemma OtherWindow(rule: Rule, early: Arrival, late: Arrival, key: Key)
    requires early.now == 1000 * rule.window - 1 && late.now == 1000 * rule.window && key in KeysOf(rule, late)
    ensures key !in KeysOf(rule, early)
  {
    assert key.window == 1;
    assert forall k :: k in KeysOf(rule, early) ==> k.window == 0;
  }
}
