/**
 Speech recognition of a long audio track: cutting it into chunks, retrying each chunk, and putting the segments back
 together (backend/app/services/asr_service.py). Times are exact reals.
 */
module AsrChunks {
  import opened Common
  import opened Schedule

  /** What one attempt at a chunk comes back with; only transient errors are tried again. */
  datatype Attempt = Heard(segments: seq<RawSubtitle>) | TransientError | OtherError

  // ---------------------------------------------------------------- the chunks

  function ChunkCount(duration: real, seconds: Positive): (count: nat)
    ensures count >= 1
  {
    if duration <= seconds as real then 1
    else
      AtLeastOneQuotient(duration + seconds as real - 1.0, seconds);
      FloorQuotient(duration + seconds as real - 1.0, seconds)
  }

  lemma AtLeastOneQuotient(t: real, w: Positive)
    requires t >= w as real
    ensures FloorQuotient(t, w) >= 1
  {
    QuotientOrder(w as real, t, w as real);
    assert w as real / w as real == 1.0;
  }

  datatype Chunk = Chunk(start: real, duration: real)

  function ChunkAt(duration: real, seconds: Positive, count: int, index: nat): Chunk {
    var start := if count == 1 then 0.0 else index as real * seconds as real;
    Chunk(start, if count == 1 then duration else MinReal(seconds as real, duration - start))
  }

  function EndOf(chunk: Chunk): real {
    chunk.start + chunk.duration
  }

  /** What is left when whole chunks are taken away. */
  function Remainder(duration: real, seconds: Positive): real {
    duration - FloorQuotient(duration, seconds) as real * seconds as real
  }

  /** There is more than one chunk from one second over a chunk on; a remainder under a second gets no chunk. */
  lemma CountIs(duration: real, seconds: Positive)
    ensures ChunkCount(duration, seconds) > 1 <==> duration >= seconds as real + 1.0
    ensures ChunkCount(duration, seconds) > 1 ==>
              ChunkCount(duration, seconds) == FloorQuotient(duration, seconds) + if Remainder(duration, seconds) < 1.0 then 0 else 1
  {
    var whole, c := FloorQuotient(duration, seconds), seconds as real;
    FloorQuotientIs(whole, duration, seconds);
    Multiples(whole, c);
    if duration > c {
      var padded := duration + c - 1.0;
      FloorQuotientIs(whole, padded, seconds);
      FloorQuotientIs(whole + 1, padded, seconds);
      AtLeastOnce(whole, c, duration);
    }
  }

  lemma Multiples(n: int, c: real)
    ensures (n + 1) as real * c == n as real * c + c
    ensures (n + 2) as real * c == n as real * c + c + c
  {
  }

  lemma AtLeastOnce(whole: int, c: real, duration: real)
    requires c >= 1.0 && whole as real * c <= duration < (whole + 1) as real * c
    ensures duration > c ==> whole >= 1
    ensures whole >= 2 ==> duration >= c + 1.0
    ensures whole == 1 ==> whole as real * c == c
  {
    if duration > c && whole <= 0 {
      TimesOrder((whole + 1) as real, 1.0, c);
    }
    if whole >= 2 {
      TimesOrder(2.0, whole as real, c);
    }
  }

  /**
   The chunks start at 0 and follow one another without gap or overlap. When there are several, each lasts at least one
   second and at most a chunk. The tail that no chunk covers is shorter than a second; it is exactly the remainder if
   there are several chunks and the remainder is under a second, and nothing otherwise.
   */
  lemma ChunksCover(duration: real, seconds: Positive)
    requires duration > 0.0
    ensures var n := ChunkCount(duration, seconds);
            && ChunkAt(duration, seconds, n, 0).start == 0.0
            && (forall i :: 0 <= i < n - 1 ==> EndOf(ChunkAt(duration, seconds, n, i)) == ChunkAt(duration, seconds, n, i + 1).start)
            && (n > 1 ==> forall i :: 0 <= i < n ==> 1.0 <= ChunkAt(duration, seconds, n, i).duration <= seconds as real)
            && duration - EndOf(ChunkAt(duration, seconds, n, n - 1))
               == (if n > 1 && Remainder(duration, seconds) < 1.0 then Remainder(duration, seconds) else 0.0)
            && 0.0 <= Remainder(duration, seconds)
  {
    var n := ChunkCount(duration, seconds);
    CountIs(duration, seconds);
    FloorQuotientIs(FloorQuotient(duration, seconds), duration, seconds);
    if n > 1 {
      forall i | 0 <= i < n
        ensures 1.0 <= ChunkAt(duration, seconds, n, i).duration <= seconds as real
        ensures i < n - 1 ==> EndOf(ChunkAt(duration, seconds, n, i)) == ChunkAt(duration, seconds, n, i + 1).start
      {
        ChunkIsInner(duration, seconds, i);
        Multiples(i, seconds as real);
      }
      TailIs(duration, seconds);
    }
  }

  lemma TailIs(duration: real, seconds: Positive)
    requires duration > 0.0 && ChunkCount(duration, seconds) > 1
    ensures var n := ChunkCount(duration, seconds);
            duration - EndOf(ChunkAt(duration, seconds, n, n - 1))
            == if Remainder(duration, seconds) < 1.0 then Remainder(duration, seconds) else 0.0
  {
    var n, whole, c := ChunkCount(duration, seconds), FloorQuotient(duration, seconds), seconds as real;
    CountIs(duration, seconds);
    FloorQuotientIs(whole, duration, seconds);
    Multiples(n - 1, c);
    Multiples(whole, c);
  }

  /** A chunk of several is at least a second long, and a full chunk unless it is the last. */
  lemma ChunkIsInner(duration: real, seconds: Positive, i: nat)
    requires duration > 0.0 && ChunkCount(duration, seconds) > 1 && i < ChunkCount(duration, seconds)
    ensures var n := ChunkCount(duration, seconds);
            var chunk := ChunkAt(duration, seconds, n, i);
            1.0 <= chunk.duration <= seconds as real && (i < n - 1 ==> chunk.duration == seconds as real)
  {
    var n, c := ChunkCount(duration, seconds), seconds as real;
    FloorQuotientIs(n, duration + c - 1.0, seconds);
    InnerBounds(c, n, i, duration);
  }

  lemma InnerBounds(c: real, n: nat, i: nat, duration: real)
    requires c >= 1.0 && n as real * c <= duration + c - 1.0 && i < n
    ensures i as real * c <= duration - 1.0
    ensures i < n - 1 ==> i as real * c + c <= duration - 1.0
  {
    var start, all := i as real * c, n as real * c;
    Multiples(i, c);
    TimesOrder((i + 1) as real, n as real, c);
    assert start + c <= all;
    if i < n - 1 {
      TimesOrder((i + 2) as real, n as real, c);
      assert start + c + c <= all;
    }
  }

  /** A whole number of seconds is covered completely. */
  lemma WholeSecondsAreCovered(duration: nat, seconds: Positive)
    requires duration > 0
    ensures var n := ChunkCount(duration as real, seconds);
            EndOf(ChunkAt(duration as real, seconds, n, n - 1)) == duration as real
  {
    hide ChunkCount, ChunkAt, Remainder, EndOf;
    ChunksCover(duration as real, seconds);
    var left := WholeRemainder(duration, seconds);
  }

  lemma WholeRemainder(duration: nat, seconds: Positive) returns (left: int)
    ensures Remainder(duration as real, seconds) == left as real
  {
    var whole := FloorQuotient(duration as real, seconds);
    left := duration - whole * seconds;
    assert left as real == duration as real - whole as real * seconds as real;
  }

  // ---------------------------------------------------------------- retrying a chunk

  /** The outcome of attempt number `attempt` and those after it, and how many attempts were made. */
  function Settle(model: nat -> Attempt, attempt: nat, maxAttempts: nat): (Attempt, nat)
    requires 1 <= attempt <= maxAttempts
    decreases maxAttempts - attempt
  {
    if model(attempt) != TransientError || attempt == maxAttempts then (model(attempt), attempt)
    else Settle(model, attempt + 1, maxAttempts)
  }

  function MaxAttempts(setting: int): nat {
    if setting > 1 then setting else 1
  }

  function Shifted(segments: seq<RawSubtitle>, offset: real): seq<RawSubtitle> {
    seq(|segments|, i requires 0 <= i < |segments| =>
      RawSubtitle(segments[i].start + offset, segments[i].end + offset, segments[i].text))
  }

  /** None stands for raising the last error. */
  method TranscribeWithRetry(model: nat -> Attempt, setting: int, offset: real)
    returns (result: Option<seq<RawSubtitle>>, made: nat)
    ensures var settled := Settle(model, 1, MaxAttempts(setting));
            made == settled.1 && result == if settled.0.Heard? then Some(Shifted(settled.0.segments, offset)) else None
  {
    var maxAttempts := MaxAttempts(setting);
    for attempt := 1 to maxAttempts + 1
      invariant attempt <= maxAttempts && Settle(model, 1, maxAttempts) == Settle(model, attempt, maxAttempts)
    {
      var outcome := model(attempt);
      match outcome
      case Heard(segments) => return Some(Shifted(segments, offset)), attempt;
      case _ =>
        if outcome != TransientError || attempt >= maxAttempts {
          return None, attempt;
        }
    }
    assert false;
  }

  /**
   A chunk is tried at most max(1, setting) times. Every attempt but the last met a transient error, and the last one
   decides: giving up on a transient error takes all the attempts.
   */
  lemma {:induction false} SettleIsTheFirstDecision(model: nat -> Attempt, attempt: nat, maxAttempts: nat)
    requires 1 <= attempt <= maxAttempts
    ensures var (outcome, made) := Settle(model, attempt, maxAttempts);
            && attempt <= made <= maxAttempts && outcome == model(made)
            && (forall a: nat :: attempt <= a < made ==> model(a) == TransientError)
            && (outcome == TransientError <==> made == maxAttempts && model(maxAttempts) == TransientError)
    decreases maxAttempts - attempt
  {
    if !(model(attempt) != TransientError || attempt == maxAttempts) {
      SettleIsTheFirstDecision(model, attempt + 1, maxAttempts);
    }
  }

  // ---------------------------------------------------------------- the whole track

  /** The chunk's segments on the time line of the track, if it was heard. */
  function ChunkSegments(duration: real, seconds: Positive, setting: int, model: (nat, nat) -> Attempt, index: nat):
    Option<seq<RawSubtitle>>
  {
    var settled := Settle((attempt: nat) => model(index, attempt), 1, MaxAttempts(setting)).0;
    if settled.Heard?
    then Some(Shifted(settled.segments, ChunkAt(duration, seconds, ChunkCount(duration, seconds), index).start))
    else None
  }

  /** The segments of the first chunks, None when one of them was not heard. */
  function Transcript(duration: real, seconds: Positive, setting: int, model: (nat, nat) -> Attempt, chunks: nat):
    Option<seq<RawSubtitle>>
  {
    if chunks == 0 then Some([])
    else
      var before := Transcript(duration, seconds, setting, model, chunks - 1);
      var segments := ChunkSegments(duration, seconds, setting, model, chunks - 1);
      if before.Some? && segments.Some? then Some(before.value + segments.value) else None
  }

  /** The progress callback is called after every chunk heard. */
  method TranscribeYoutubeAudio(duration: real, seconds: Positive, setting: int, model: (nat, nat) -> Attempt)
    returns (result: Option<seq<RawSubtitle>>, reports: seq<(nat, nat)>)
    requires duration > 0.0
    ensures result == Transcript(duration, seconds, setting, model, ChunkCount(duration, seconds))
    ensures |reports| <= ChunkCount(duration, seconds)
    ensures forall i :: 0 <= i < |reports| ==> reports[i] == (i + 1, ChunkCount(duration, seconds))
    ensures result.Some? <==> |reports| == ChunkCount(duration, seconds)
    ensures Transcript(duration, seconds, setting, model, |reports|).Some?
  {
    CountIs(duration, seconds);
    var count := ChunkCount(duration, seconds);
    var subtitles: seq<RawSubtitle> := [];
    reports := [];
    for index := 0 to count
      invariant Transcript(duration, seconds, setting, model, index) == Some(subtitles)
      invariant |reports| == index && forall i :: 0 <= i < index ==> reports[i] == (i + 1, count)
    {
      var start := ChunkAt(duration, seconds, count, index).start;
      var segments, made := TranscribeWithRetry((attempt: nat) => model(index, attempt), setting, start);
      if segments.None? {
        UnheardChunk(duration, seconds, setting, model, index, count);
        return None, reports;
      }
      subtitles := subtitles + segments.value;
      reports := reports + [(index + 1, count)];
    }
    return Some(subtitles), reports;
  }

  lemma {:induction false} UnheardChunk(duration: real, seconds: Positive, setting: int, model: (nat, nat) -> Attempt, index: nat, chunks: nat)
    requires index < chunks && ChunkSegments(duration, seconds, setting, model, index).None?
    ensures Transcript(duration, seconds, setting, model, chunks).None?
    decreases chunks
  {
    if index < chunks - 1 {
      UnheardChunk(duration, seconds, setting, model, index, chunks - 1);
    }
  }

  /** The segments of the first attempt that did not meet a transient error, within the attempts allowed. */
  ghost predicate HeardAs(model: (nat, nat) -> Attempt, setting: int, index: nat, segments: seq<RawSubtitle>) {
    exists made: nat :: 1 <= made <= (if setting > 1 then setting else 1) && DecidesAt(model, index, made, Heard(segments))
  }

  ghost predicate DecidesAt(model: (nat, nat) -> Attempt, index: nat, made: nat, outcome: Attempt) {
    model(index, made) == outcome && forall attempt: nat :: 1 <= attempt < made ==> model(index, attempt) == TransientError
  }

  /** Segments of a chunk on the time line of the track. */
  ghost function Placed(segments: seq<RawSubtitle>, offset: real): seq<RawSubtitle> {
    seq(|segments|, k requires 0 <= k < |segments| =>
      RawSubtitle(segments[k].start + offset, segments[k].end + offset, segments[k].text))
  }

  ghost predicate AllHeardAs(model: (nat, nat) -> Attempt, setting: int, heard: seq<seq<RawSubtitle>>) {
    forall i :: 0 <= i < |heard| ==> HeardAs(model, setting, i, heard[i])
  }

  ghost function AllPlaced(heard: seq<seq<RawSubtitle>>, seconds: Positive): seq<seq<RawSubtitle>> {
    seq(|heard|, i requires 0 <= i < |heard| => Placed(heard[i], i as real * seconds as real))
  }

  lemma SegmentsAreHeard(duration: real, seconds: Positive, setting: int, model: (nat, nat) -> Attempt, index: nat)
    requires index < ChunkCount(duration, seconds)
    ensures var segments := ChunkSegments(duration, seconds, setting, model, index);
            && (segments.Some? <==> exists heard :: HeardAs(model, setting, index, heard))
            && forall heard :: HeardAs(model, setting, index, heard) ==>
                 segments == Some(Placed(heard, index as real * seconds as real))
  {
    var ofChunk := (attempt: nat) => model(index, attempt);
    SettleIsTheFirstDecision(ofChunk, 1, MaxAttempts(setting));
    var (outcome, made) := Settle(ofChunk, 1, MaxAttempts(setting));
    assert outcome == model(index, made);
    hide Settle, ChunkCount;
    if outcome.Heard? {
      assert forall attempt: nat :: 1 <= attempt < made ==> ofChunk(attempt) == model(index, attempt);
      assert DecidesAt(model, index, made, Heard(outcome.segments));
      assert HeardAs(model, setting, index, outcome.segments);
    }
    forall heard | HeardAs(model, setting, index, heard) ensures outcome == Heard(heard) {
      var other: nat :| 1 <= other <= (if setting > 1 then setting else 1) && DecidesAt(model, index, other, Heard(heard));
      assert ofChunk(other) == model(index, other) && ofChunk(made) == model(index, made);
    }
  }

  lemma PlacedSnoc(heard: seq<seq<RawSubtitle>>, seconds: Positive)
    requires heard != []
    ensures var n := |heard| - 1;
            Flatten(AllPlaced(heard, seconds)) == Flatten(AllPlaced(heard[..n], seconds)) + Placed(heard[n], n as real * seconds as real)
  {
    hide Placed, Flatten;
    var n := |heard| - 1;
    var before, last := AllPlaced(heard[..n], seconds), Placed(heard[n], n as real * seconds as real);
    FlattenSnoc(before, last);
    assert AllPlaced(heard, seconds)[n] == last;
    forall i | 0 <= i < n ensures AllPlaced(heard, seconds)[i] == before[i] {
    }
    assert AllPlaced(heard, seconds) == before + [last];
  }

  /**
   The transcript of the first chunks: there is one if and only if each of them was heard, and it has every segment heard,
   chunk after chunk, moved by the chunk's start and otherwise as heard.
   */
  lemma {:induction false} TranscriptHoldsEverySegment(duration: real, seconds: Positive, setting: int,
                                                       model: (nat, nat) -> Attempt, chunks: nat)
    requires chunks <= ChunkCount(duration, seconds)
    ensures var transcript := Transcript(duration, seconds, setting, model, chunks);
            && (transcript.Some? <==> exists heard :: |heard| == chunks && AllHeardAs(model, setting, heard))
            && forall heard :: |heard| == chunks && AllHeardAs(model, setting, heard) ==>
                 transcript == Some(Flatten(AllPlaced(heard, seconds)))
    decreases chunks
  {
    hide HeardAs, ChunkCount, ChunkSegments, AllPlaced, AllHeardAs, Flatten;
    if chunks == 0 {
      NothingHeard(model, setting, seconds);
    } else {
      var n := chunks - 1;
      TranscriptHoldsEverySegment(duration, seconds, setting, model, n);
      SegmentsAreHeard(duration, seconds, setting, model, n);
      forall heard | |heard| == chunks && AllHeardAs(model, setting, heard)
        ensures Transcript(duration, seconds, setting, model, chunks) == Some(Flatten(AllPlaced(heard, seconds)))
      {
        HeardBefore(model, setting, heard);
        PlacedSnoc(heard, seconds);
      }
      if Transcript(duration, seconds, setting, model, chunks).Some? {
        var before :| |before| == n && AllHeardAs(model, setting, before);
        var last :| HeardAs(model, setting, n, last);
        OneMoreHeard(model, setting, before, last);
      }
    }
  }

  lemma NothingHeard(model: (nat, nat) -> Attempt, setting: int, seconds: Positive)
    ensures AllHeardAs(model, setting, []) && Flatten(AllPlaced([], seconds)) == []
  {
  }

  lemma HeardBefore(model: (nat, nat) -> Attempt, setting: int, heard: seq<seq<RawSubtitle>>)
    requires heard != [] && AllHeardAs(model, setting, heard)
    ensures AllHeardAs(model, setting, heard[..|heard| - 1]) && HeardAs(model, setting, |heard| - 1, heard[|heard| - 1])
  {
    hide HeardAs;
  }

  lemma OneMoreHeard(model: (nat, nat) -> Attempt, setting: int, before: seq<seq<RawSubtitle>>, last: seq<RawSubtitle>)
    requires AllHeardAs(model, setting, before) && HeardAs(model, setting, |before|, last)
    ensures AllHeardAs(model, setting, before + [last])
  {
    hide HeardAs;
  }

  ghost predicate OrderedWithin(segments: seq<RawSubtitle>, from: real, until: real) {
    forall i, j :: 0 <= i <= j < |segments| ==>
      from <= segments[i].start <= segments[j].start && segments[i].start <= segments[i].end <= until
  }

  /** Every chunk that is heard comes back in order and inside the chunk. */
  ghost predicate WellHeard(duration: real, seconds: Positive, setting: int, model: (nat, nat) -> Attempt) {
    forall index: nat, attempt: nat :: model(index, attempt).Heard? ==>
      OrderedWithin(model(index, attempt).segments, 0.0, ChunkAt(duration, seconds, ChunkCount(duration, seconds), index).duration)
  }

  lemma ChunkHeardInPlace(duration: real, seconds: Positive, setting: int, model: (nat, nat) -> Attempt, index: nat)
    requires duration > 0.0 && WellHeard(duration, seconds, setting, model)
    requires ChunkSegments(duration, seconds, setting, model, index).Some?
    ensures var chunk := ChunkAt(duration, seconds, ChunkCount(duration, seconds), index);
            OrderedWithin(ChunkSegments(duration, seconds, setting, model, index).value, chunk.start, EndOf(chunk))
  {
    var ofChunk := (attempt: nat) => model(index, attempt);
    var chunk := ChunkAt(duration, seconds, ChunkCount(duration, seconds), index);
    SettleIsTheFirstDecision(ofChunk, 1, MaxAttempts(setting));
    var (outcome, made) := Settle(ofChunk, 1, MaxAttempts(setting));
    assert outcome == model(index, made);
  }

  /** The transcript of the track is in order of time and lies inside the chunks heard so far. */
  lemma {:induction false} TranscriptIsOrdered(duration: real, seconds: Positive, setting: int, model: (nat, nat) -> Attempt, chunks: nat)
    requires duration > 0.0 && WellHeard(duration, seconds, setting, model)
    requires chunks <= ChunkCount(duration, seconds) && Transcript(duration, seconds, setting, model, chunks).Some?
    ensures var until := if chunks == 0 then 0.0 else EndOf(ChunkAt(duration, seconds, ChunkCount(duration, seconds), chunks - 1));
            0.0 <= until <= duration && OrderedWithin(Transcript(duration, seconds, setting, model, chunks).value, 0.0, until)
  {
    if chunks > 0 {
      TranscriptIsOrdered(duration, seconds, setting, model, chunks - 1);
      ChunksCover(duration, seconds);
      ChunkHeardInPlace(duration, seconds, setting, model, chunks - 1);
      ChunkInTrack(duration, seconds, chunks - 1);
    }
  }

  lemma ChunkInTrack(duration: real, seconds: Positive, i: nat)
    requires duration > 0.0 && i < ChunkCount(duration, seconds)
    ensures var n := ChunkCount(duration, seconds);
            && 0.0 <= ChunkAt(duration, seconds, n, i).start <= EndOf(ChunkAt(duration, seconds, n, i)) <= duration
            && (i > 0 ==> EndOf(ChunkAt(duration, seconds, n, i - 1)) == ChunkAt(duration, seconds, n, i).start)
            && (i == 0 ==> ChunkAt(duration, seconds, n, i).start == 0.0)
  {
    ChunksCover(duration, seconds);
    if ChunkCount(duration, seconds) > 1 {
      ChunkIsInner(duration, seconds, i);
    }
  }
}
