/**
 What the other modules share:

 - optional values, results that may be errors, and positive numbers;
 - lists of parts put one after the other, and the wanted elements of a list;
 - picking an element of a set;
 - comparing products and quotients of reals;
 - how many whole times one number goes into another.
 */
module Common {

  datatype Option<+T> = None | Some(value: T)

  datatype Result<+T, +E> = Ok(value: T) | Err(error: E)

  /** Lengths of windows and sizes of chunks. */
  type Positive = n: nat | n >= 1 witness 1

  /** The parts one after the other. */
  function Flatten<T>(parts: seq<seq<T>>): seq<T> {
    if parts == [] then [] else parts[0] + Flatten(parts[1..])
  }

  /** The positions of exactly the wanted elements, in order. */
  ghost predicate Positions<T(!new)>(at: seq<nat>, xs: seq<T>, wanted: T -> bool) {
    && (forall i :: 0 <= i < |at| ==> at[i] < |xs|)
    && (forall i, j :: 0 <= i < j < |at| ==> at[i] < at[j])
    && (forall k :: 0 <= k < |xs| ==> (wanted(xs[k]) <==> k in at))
  }

  /** The wanted elements and nothing else, in order. */
  ghost predicate Selects<T(!new)>(ys: seq<T>, xs: seq<T>, wanted: T -> bool) {
    exists at :: Positions(at, xs, wanted) && Shows(ys, xs, at)
  }

  ghost predicate Shows<T(!new)>(ys: seq<T>, xs: seq<T>, at: seq<nat>) {
    |ys| == |at| && forall i :: 0 <= i < |ys| ==> at[i] < |xs| && ys[i] == xs[at[i]]
  }

  lemma SelectsNone<T(!new)>(wanted: T -> bool)
    ensures Selects([], [], wanted)
  {
    assert Positions([], [], wanted) && Shows<T>([], [], []);
  }

  lemma SelectsCons<T(!new)>(ys: seq<T>, xs: seq<T>, wanted: T -> bool)
    requires xs != [] && Selects(ys, xs[1..], wanted)
    ensures Selects(if wanted(xs[0]) then [xs[0]] + ys else ys, xs, wanted)
  {
    hide Positions, Shows;
    var at :| Positions(at, xs[1..], wanted) && Shows(ys, xs[1..], at);
    var later: seq<nat> := seq(|at|, i requires 0 <= i < |at| => at[i] + 1);
    LaterPositions(at, later, xs, wanted);
    ShowsLater(ys, xs, at, later);
    if wanted(xs[0]) {
      assert Positions([0] + later, xs, wanted) && Shows([xs[0]] + ys, xs, [0] + later);
    } else {
      assert Positions(later, xs, wanted) && Shows(ys, xs, later);
    }
  }

  lemma ShowsLater<T(!new)>(ys: seq<T>, xs: seq<T>, at: seq<nat>, later: seq<nat>)
    requires xs != [] && Shows(ys, xs[1..], at)
    requires |later| == |at| && forall i :: 0 <= i < |at| ==> later[i] == at[i] + 1
    ensures Shows(ys, xs, later) && Shows([xs[0]] + ys, xs, [0] + later)
  {
  }

  lemma PositionsSnoc<T(!new)>(at: seq<nat>, xs: seq<T>, last: T, wanted: T -> bool)
    requires Positions(at, xs, wanted)
    ensures Positions(if wanted(last) then at + [|xs| as nat] else at, xs + [last], wanted)
  {
    var all: seq<nat> := if wanted(last) then at + [|xs| as nat] else at;
    forall k | 0 <= k < |xs + [last]| ensures wanted((xs + [last])[k]) <==> k in all {
      assert k < |xs| ==> (xs + [last])[k] == xs[k];
    }
  }

  lemma SelectsSnoc<T(!new)>(ys: seq<T>, xs: seq<T>, last: T, wanted: T -> bool)
    requires Selects(ys, xs, wanted)
    ensures Selects(if wanted(last) then ys + [last] else ys, xs + [last], wanted)
  {
    hide Positions, Shows;
    var at :| Positions(at, xs, wanted) && Shows(ys, xs, at);
    PositionsSnoc(at, xs, last, wanted);
    ShowsMore(ys, xs, at, last);
    if wanted(last) {
      assert Positions(at + [|xs| as nat], xs + [last], wanted) && Shows(ys + [last], xs + [last], at + [|xs| as nat]);
    } else {
      assert Positions(at, xs + [last], wanted) && Shows(ys, xs + [last], at);
    }
  }

  lemma ShowsMore<T(!new)>(ys: seq<T>, xs: seq<T>, at: seq<nat>, last: T)
    requires Shows(ys, xs, at)
    ensures Shows(ys, xs + [last], at) && Shows(ys + [last], xs + [last], at + [|xs| as nat])
  {
  }

  lemma LaterPositions<T(!new)>(at: seq<nat>, later: seq<nat>, xs: seq<T>, wanted: T -> bool)
    requires xs != [] && Positions(at, xs[1..], wanted)
    requires |later| == |at| && forall i :: 0 <= i < |at| ==> later[i] == at[i] + 1
    ensures Positions(if wanted(xs[0]) then [0] + later else later, xs, wanted)
  {
    var all: seq<nat> := if wanted(xs[0]) then [0] + later else later;
    forall k | 0 <= k < |xs| ensures wanted(xs[k]) <==> k in all {
      if k > 0 {
        assert xs[k] == xs[1..][k - 1];
        if k - 1 in at {
          var i :| 0 <= i < |at| && at[i] == k - 1;
          assert later[i] == k;
        }
      }
    }
  }

  function Min(a: int, b: int): int {
    if a <= b then a else b
  }

  function MaxReal(a: real, b: real): real {
    if a >= b then a else b
  }

  function MinReal(a: real, b: real): real {
    if a <= b then a else b
  }

  lemma {:induction false} FlattenAppend<T>(a: seq<seq<T>>, b: seq<seq<T>>)
    ensures Flatten(a + b) == Flatten(a) + Flatten(b)
  {
    if a == [] {
      assert a + b == b;
    } else {
      FlattenAppend(a[1..], b);
      FlattenCons(a[0], a[1..] + b);
      FlattenCons(a[0], a[1..]);
      hide Flatten;
      assert [a[0]] + (a[1..] + b) == a + b;
      assert [a[0]] + a[1..] == a;
      Associates(a[0], Flatten(a[1..]), Flatten(b));
    }
  }

  lemma Associates<T>(a: seq<T>, b: seq<T>, c: seq<T>)
    ensures a + (b + c) == (a + b) + c
  {
  }

  lemma FlattenCons<T>(first: seq<T>, rest: seq<seq<T>>)
    ensures Flatten([first] + rest) == first + Flatten(rest)
  {
    assert ([first] + rest)[1..] == rest;
  }

  lemma FlattenSnoc<T>(a: seq<seq<T>>, x: seq<T>)
    ensures Flatten(a + [x]) == Flatten(a) + x
  {
    FlattenAppend(a, [x]);
    assert Flatten([x]) == x + Flatten([x][1..]);
  }

  lemma AnyElement<T>(s: set<T>) returns (x: T)
    requires s != {}
    ensures x in s
  {
    x :| x in s;
  }

  // ---------------------------------------------------------------- order and multiplication

  lemma TimesPositive(a: real, w: real)
    requires w > 0.0
    ensures a > 0.0 ==> a * w > 0.0
    ensures a < 0.0 ==> a * w < 0.0
  {
  }

  lemma TimesOrder(a: real, b: real, w: real)
    requires w > 0.0
    ensures a <= b <==> a * w <= b * w
    ensures a < b <==> a * w < b * w
    ensures a == b <==> a * w == b * w
  {
    TimesPositive(b - a, w);
    assert (b - a) * w == b * w - a * w;
  }

  lemma QuotientOrder(a: real, b: real, w: real)
    requires w > 0.0
    ensures a <= b <==> a / w <= b / w
    ensures a < b <==> a / w < b / w
  {
    TimesOrder(a / w, b / w, w);
    assert (a / w) * w == a && (b / w) * w == b;
  }

  // ---------------------------------------------------------------- whole quotients

  /** How many whole times w goes into t. */
  function FloorQuotient(t: real, w: Positive): int {
    (t / w as real).Floor
  }

  lemma FloorQuotientIs(index: int, t: real, w: Positive)
    ensures index == FloorQuotient(t, w) <==> index as real * w as real <= t < (index + 1) as real * w as real
  {
    QuotientTimes(t, w as real);
    BetweenMultiples(index, t / w as real, w as real, t);
    FloorBetween(index, t / w as real);
  }

  lemma QuotientTimes(t: real, w: real)
    requires w > 0.0
    ensures (t / w) * w == t
  {
  }

  lemma BetweenMultiples(index: int, q: real, w: real, t: real)
    requires w > 0.0 && q * w == t
    ensures index as real * w <= t < (index + 1) as real * w <==> index as real <= q < (index + 1) as real
  {
    TimesOrder(index as real, q, w);
    TimesOrder(q, (index + 1) as real, w);
  }

  lemma FloorBetween(index: int, q: real)
    ensures index == q.Floor <==> index as real <= q < (index + 1) as real
  {
  }
}
