/**
 * The deterministic random source of the daily challenge: a linear congruential generator
 * with multiplier 1664525, increment 1013904223 and modulus 2^32 over one integer of state.
 */
module Seeded {
  import opened Wrappers
  import opened JsText
  import opened Shuffling
  import opened RealFacts

  const A: int := 1664525
  const C: int := 1013904223
  const M: int := 0x1_0000_0000

  /** One step of the generator, with JavaScript's truncating `%`. */
  function Step(seed: int): (next: int)
    ensures seed >= 0 ==> 0 <= next < M
  {
    Rem(A * seed + C, M)
  }

  /**
   * The step the range promise of `next()` calls for: the remainder brought into [0, 2^32)
   * whatever the sign of the seed, so every draw lies in [0, 1).
   */
  function FloorStep(seed: int): (next: int)
    ensures 0 <= next < M
    ensures 0.0 <= Unit(next) < 1.0
  {
    var r := Rem(A * seed + C, M);
    if r < 0 then r + M else r
  }

  /** The state after `n` steps of the generator. */
  function Iterate(seed: int, n: nat): int
    decreases n
  {
    if n == 0 then seed else Iterate(FloorStep(seed), n - 1)
  }

  /** What `next()` returns once the state has become `state`: `state / 2^32`. */
  function Unit(state: int): (r: real)
    ensures 0 <= state < M ==> 0.0 <= r < 1.0
  {
    state as real / M as real
  }

  /** `nextInt` once the state has become `state`: `floor(state / 2^32 * (max - min)) + min`. */
  function DrawInt(state: int, min: int, max: int): (k: int)
    ensures 0 <= state < M && min < max ==> min <= k < max
  {
    DrawIntRange(state, min, max);
    (state * (max - min)) / M + min
  }

  /** The quotient behind `DrawInt` lands in `[min, max)` for a state in range. */
  lemma DrawIntRange(state: int, min: int, max: int)
    ensures 0 <= state < M && min < max ==> min <= (state * (max - min)) / M + min < max
  {
    if 0 <= state < M && min < max {
      var k := max - min;
      assert 0 <= state * k;
      assert state * k < M * k by {
        assert (M - state) * k > 0;
      }
      var q := (state * k) / M;
      assert q * M <= state * k;
      assert (k - q) * M > 0;
    }
  }

  /**
   * The integer arithmetic of `DrawInt` is the floor of the real product the source computes,
   * `Math.floor(next() * (max - min)) + min`.
   */
  lemma DrawIntIsFloor(state: int, min: int, max: int)
    ensures DrawInt(state, min, max) == (Unit(state) * (max - min) as real).Floor + min
  {
    var p := state * (max - min);  
    var q, r := p / M, p % M;
    assert p == q * M + r && 0 <= r < M;
    assert Unit(state) * (max - min) as real == p as real / M as real;
    assert p as real / M as real == q as real + r as real / M as real;
    assert 0.0 <= r as real / M as real < 1.0;
  }

  /** `nextFloat` once the state has become `state`. */
  function DrawFloat(state: int, min: real, max: real): (x: real)
    ensures 0 <= state < M && min < max ==> min <= x < max
  {
    var u, w := Unit(state), max - min;
    if 0 <= state < M && min < max then
      ScaleBelow(u, w);
      u * w + min
    else
      u * w + min
  }

  /**
   * The Fisher-Yates loop of `shuffle` from index `i` down to 1, on the copy `s`, from state
   * `seed`: the shuffled copy and the final state.
   */
  function ShuffleFrom<T>(s: seq<T>, i: int, seed: int): (r: (seq<T>, int))
    requires i < |s|
    ensures |r.0| == |s| && (i > 0 ==> 0 <= r.1 < M)
    decreases i
  {
    if i <= 0 then (s, seed)
    else
      var next := FloorStep(seed);
      var j := DrawInt(next, 0, i + 1);
      ShuffleFrom(Swap(s, i, j), i - 1, next)
  }

  lemma ShuffleFromStep<T>(s: seq<T>, i: int, seed: int, next: int, j: int, t: seq<T>)
    requires 0 < i < |s|
    requires next == FloorStep(seed) && j == DrawInt(next, 0, i + 1) && 0 <= j <= i && t == Swap(s, i, j)
    ensures ShuffleFrom(t, i - 1, next) == ShuffleFrom(s, i, seed)
  {
  }

  /** The shuffle is a permutation and it consumes one draw for each index from `i` down to 1. */
  lemma {:induction false} ShuffleFromPermutes<T>(s: seq<T>, i: int, seed: int)
    requires i < |s|
    ensures multiset(ShuffleFrom(s, i, seed).0) == multiset(s)
    ensures ShuffleFrom(s, i, seed).1 == Iterate(seed, if i > 0 then i else 0)
    decreases i
  {
    if i > 0 {
      var next := FloorStep(seed);
      var j := DrawInt(next, 0, i + 1);
      SwapPermutes(s, i, j);
      ShuffleFromPermutes(Swap(s, i, j), i - 1, next);
    }
  }

  /** `generateSeedFromDate`: every hyphen removed, then `parseInt(..., 10)`. */
  function SeedFromDate(date: string): Option<int> {
    ParseInt(RemoveHyphens(date))
  }

  /** A date written `YYYY-MM-DD` with decimal digits. */
  predicate IsIsoDate(d: string) {
    |d| == 10 && d[4] == '-' && d[7] == '-' &&
    AllDigits(d[..4]) && AllDigits(d[5..7]) && AllDigits(d[8..])
  }

  function DateDigits(d: string): (ds: string)
    requires IsIsoDate(d)
    ensures AllDigits(ds) && |ds| == 8
  {
    d[..4] + d[5..7] + d[8..]
  }

  lemma {:induction false} DigitsValueAppend(a: string, b: string)
    requires AllDigits(a) && AllDigits(b)
    ensures AllDigits(a + b)
    ensures DigitsValue(a + b) == DigitsValue(a) * Pow10(|b|) + DigitsValue(b)
    decreases |b|
  {
    if |b| > 0 {
      var n := |b| - 1;
      var front := b[..n];
      assert (a + b)[..|a + b| - 1] == a + front;
      assert (a + b)[|a + b| - 1] == b[n];
      DigitsValueAppend(a, front);
      var x, p, y, d := DigitsValue(a), Pow10(n), DigitsValue(front), DigitValue(b[n]);
      assert DigitsValue(a + b) == DigitsValue(a + front) * 10 + d;
      assert DigitsValue(b) == y * 10 + d;
      ShiftDigit(x, p, y, d);
    } else {
      assert a + b == a;
    }
  }

  lemma ShiftDigit(x: int, p: int, y: int, d: int)
    ensures (x * p + y) * 10 + d == x * (10 * p) + (y * 10 + d)
  {
  }

  function Pow10(n: nat): nat {
    if n == 0 then 1 else 10 * Pow10(n - 1)
  }

  lemma HyphensOfIsoDate(d: string)
    requires IsIsoDate(d)
    ensures RemoveHyphens(d) == DateDigits(d)
  {
    var y, m, dd := d[..4], d[5..7], d[8..];
    var tail := ['-'] + dd;
    var mid := m + tail;
    var rest := ['-'] + mid;
    assert d == y + rest;
    RemoveHyphensAppend(y, rest);
    DashDropped(mid);
    RemoveHyphensAppend(m, tail);
    DashDropped(dd);
    RemoveHyphensOfDigits(y);
    RemoveHyphensOfDigits(m);
    RemoveHyphensOfDigits(dd);
    assert RemoveHyphens(d) == y + (m + dd);
  }

  lemma DashDropped(s: string)
    ensures RemoveHyphens(['-'] + s) == RemoveHyphens(s)
  {
    assert (['-'] + s)[1..] == s;
  }

  lemma DateDigitsValue(d: string)
    requires IsIsoDate(d)
    ensures DigitsValue(DateDigits(d)) == DigitsValue(d[..4]) * 10000 + DigitsValue(d[5..7]) * 100 + DigitsValue(d[8..])
  {
    var y, m, dd := d[..4], d[5..7], d[8..];
    assert Pow10(2) == 100 && |m| == 2 && |dd| == 2;
    var ym := y + m;
    DigitsValueAppend(ym, dd);
    DigitsValueAppend(y, m);
    assert DateDigits(d) == ym + dd;
    assert DigitsValue(ym + dd) == DigitsValue(ym) * 100 + DigitsValue(dd);
    assert DigitsValue(ym) == DigitsValue(y) * 100 + DigitsValue(m);
    PlaceValues(DigitsValue(y), DigitsValue(m), DigitsValue(dd), DigitsValue(ym), DigitsValue(ym + dd));
  }

  /** The seed of a date is the eight-digit number `YYYYMMDD`. */
  lemma SeedFromDateValue(d: string)
    requires IsIsoDate(d)
    ensures SeedFromDate(d) == Some(DigitsValue(DateDigits(d)))
    ensures SeedFromDate(d) == Some(DigitsValue(d[..4]) * 10000 + DigitsValue(d[5..7]) * 100 + DigitsValue(d[8..]))
  {
    HyphensOfIsoDate(d);
    ParseIntOfDigits(DateDigits(d));
    DateDigitsValue(d);
  }

  lemma PlaceValues(y: int, m: int, d: int, ym: int, ymd: int)
    requires ym == y * 100 + m && ymd == ym * 100 + d
    ensures ymd == y * 10000 + m * 100 + d
  {
  }

  /** Equal seeds come only from equal dates: distinct dates give distinct seeds. */
  lemma SeedFromDateInjective(d1: string, d2: string)
    requires IsIsoDate(d1) && IsIsoDate(d2)
    requires SeedFromDate(d1) == SeedFromDate(d2)
    ensures d1 == d2
  {
    SeedFromDateValue(d1);
    SeedFromDateValue(d2);
    DigitsValueInjective(DateDigits(d1), DateDigits(d2));
    DateDigitsParts(d1);
    DateDigitsParts(d2);
    SameIsoDate(d1, d2);
  }

  lemma DateDigitsParts(d: string)
    requires IsIsoDate(d)
    ensures DateDigits(d)[..4] == d[..4] && DateDigits(d)[4..6] == d[5..7] && DateDigits(d)[6..] == d[8..]
  {
  }

  /** Two dates with the same year, month and day fields are the same string. */
  lemma SameIsoDate(d1: string, d2: string)
    requires IsIsoDate(d1) && IsIsoDate(d2)
    requires d1[..4] == d2[..4] && d1[5..7] == d2[5..7] && d1[8..] == d2[8..]
    ensures d1 == d2
  {
    forall i | 0 <= i < 10 ensures d1[i] == d2[i] {
      if i < 4 {
        assert d1[i] == d1[..4][i] && d2[i] == d2[..4][i];
      } else if 5 <= i < 7 {
        assert d1[i] == d1[5..7][i - 5] && d2[i] == d2[5..7][i - 5];
      } else if 8 <= i {
        assert d1[i] == d1[8..][i - 8] && d2[i] == d2[8..][i - 8];
      }
    }
  }

  lemma SeedOfDailyChallengeExample(d: string)
    requires d == "2025-10-25"
    ensures SeedFromDate(d) == Some(20251025)
  {
    assert IsIsoDate(d);
    var y, m, dd := d[..4], d[5..7], d[8..];
    var century, year := y[..2], y[2..];
    assert century[0] == '2' && century[1] == '0' && year[0] == '2' && year[1] == '5';
    assert m[0] == '1' && m[1] == '0' && dd[0] == '2' && dd[1] == '5';
    TwoDigitsValue(century);
    TwoDigitsValue(year);
    TwoDigitsValue(m);
    TwoDigitsValue(dd);
    assert y == century + year;
    DigitsValueAppend(century, year);
    assert DigitsValue(y) == 2025;
    SeedFromDateValue(d);
  }

  lemma TwoDigitsValue(s: string)
    requires |s| == 2 && AllDigits(s)
    ensures DigitsValue(s) == DigitValue(s[0]) * 10 + DigitValue(s[1])
  {
    var first := s[..1];
    assert first[..0] == [] && first[0] == s[0];
    assert DigitsValue(first) == DigitValue(s[0]);
  }


  /**
   * With a negative seed the truncating `%` leaves the state negative, so `next()` is not in
   * [0, 1): from seed -12345 the first draw is -2354787718 / 2^32, about -0.548.
   */
  lemma NegativeSeedLeavesUnitInterval()
    ensures Step(-12345) == -2354787718
    ensures Unit(Step(-12345)) < 0.0
  {
    assert A * -12345 + C == -19534656902;
    assert 19534656902 % M == 2354787718;
  }

  /** On every non-negative seed the floored step is the step as written. */
  lemma FloorStepAgrees(seed: int)
    requires seed >= 0
    ensures FloorStep(seed) == Step(seed)
  {
  }

  /** From seed -12345 the intended step gives a first draw in [0, 1). */
  lemma FloorStepFromNegativeSeed()
    ensures FloorStep(-12345) == 1940179578
  {
    NegativeSeedLeavesUnitInterval();
  }

  /** The seeds 0 and 999999999 are in range, so their first draw is in [0, 1). */
  lemma BoundarySeedsDrawInUnitInterval()
    ensures 0.0 <= Unit(Step(0)) < 1.0
    ensures 0.0 <= Unit(Step(999999999)) < 1.0
  {
  }

  /** The calls a client can make on a generator, and what each returns. */
  datatype Call =
    | NextCall
    | NextIntCall(min: int, max: int)
    | NextFloatCall(lo: real, hi: real)
    | ShuffleCall(items: seq<int>)
    | PickCall(choices: seq<int>)
    | ResetCall(newSeed: int)

  datatype Output = RealOut(r: real) | IntOut(k: int) | SeqOut(s: seq<int>) | PickOut(p: Option<int>) | NoOut

  /** The output of one call made with the state `seed`, and the state after it. */
  function Apply(seed: int, call: Call): (r: (Output, int))
    ensures call.ResetCall? ==> r == (NoOut, call.newSeed)
    ensures call.NextCall? || call.NextIntCall? || call.NextFloatCall? || call.PickCall? ==> r.1 == FloorStep(seed)
    ensures call.NextCall? ==> r.0.RealOut? && 0.0 <= r.0.r < 1.0
    ensures call.NextIntCall? ==> r.0.IntOut? && (call.min < call.max ==> call.min <= r.0.k < call.max)
    ensures call.NextFloatCall? ==> r.0.RealOut? && (call.lo < call.hi ==> call.lo <= r.0.r < call.hi)
    ensures call.ShuffleCall? ==> r.0.SeqOut? && multiset(r.0.s) == multiset(call.items)
    ensures call.PickCall? ==> r.0.PickOut? && (r.0.p.Some? <==> |call.choices| > 0)
    ensures call.PickCall? && r.0.PickOut? && r.0.p.Some? ==> r.0.p.value in call.choices
  {
    match call
    case NextCall => (RealOut(Unit(FloorStep(seed))), FloorStep(seed))
    case NextIntCall(min, max) => (IntOut(DrawInt(FloorStep(seed), min, max)), FloorStep(seed))
    case NextFloatCall(lo, hi) => (RealOut(DrawFloat(FloorStep(seed), lo, hi)), FloorStep(seed))
    case ShuffleCall(items) =>
      ShuffleFromPermutes(items, |items| - 1, seed);
      var r := ShuffleFrom(items, |items| - 1, seed);
      (SeqOut(r.0), r.1)
    case PickCall(choices) =>
      var k := DrawInt(FloorStep(seed), 0, |choices|);
      (PickOut(if 0 <= k < |choices| then Some(choices[k]) else None), FloorStep(seed))
    case ResetCall(s) => (NoOut, s)
  }

  /** The outputs of a whole call sequence made on a generator whose state is `seed`. */
  function Run(seed: int, calls: seq<Call>): seq<Output>
    decreases |calls|
  {
    if calls == [] then []
    else
      var r := Apply(seed, calls[0]);
      [r.0] + Run(r.1, calls[1..])
  }

  /**
   * The generator: its whole state is `seed`, which every draw advances by one `FloorStep`, the
   * step of the source for every non-negative state.
   */
  class SeededRandom {
    var seed: int

    constructor (seed0: int)
      ensures seed == seed0
    {
      seed := seed0;
    }

    method Next() returns (r: real)
      modifies this
      ensures seed == FloorStep(old(seed)) && r == Unit(seed)
      ensures 0 <= seed < M && 0.0 <= r < 1.0
      ensures old(seed) >= 0 ==> seed == Step(old(seed))
    {
      seed := Rem(A * seed + C, M);
      if seed < 0 {
        seed := seed + M;
      }
      r := seed as real / M as real;
    }

    method NextInt(min: int, max: int) returns (k: int)
      modifies this
      ensures seed == FloorStep(old(seed)) && k == DrawInt(seed, min, max)
      ensures min < max ==> min <= k < max
    {
      var r := Next();
      k := (r * (max - min) as real).Floor + min;
      DrawIntIsFloor(seed, min, max);
    }

    method NextFloat(min: real, max: real) returns (x: real)
      modifies this
      ensures seed == FloorStep(old(seed)) && x == DrawFloat(seed, min, max)
      ensures min < max ==> min <= x < max
    {
      var r := Next();
      x := r * (max - min) + min;
    }

    /** Fisher-Yates on a copy of `a`; `a` itself is not written. */
    method Shuffle<T>(a: array<T>) returns (result: array<T>)
      modifies this
      ensures fresh(result)
      ensures (result[..], seed) == ShuffleFrom(a[..], a.Length - 1, old(seed))
      ensures multiset(result[..]) == multiset(a[..])
      ensures seed == Iterate(old(seed), if a.Length > 0 then a.Length - 1 else 0)
    {
      result := new T[a.Length](k requires 0 <= k < a.Length reads a => a[k]);
      assert result[..] == a[..];
      ghost var target := ShuffleFrom(a[..], a.Length - 1, seed);
      ghost var current := a[..];
      var i := a.Length - 1;
      while i > 0
        invariant -1 <= i < result.Length
        invariant result[..] == current && ShuffleFrom(current, i, seed) == target
      {
        ghost var s0 := seed;
        var j := SwapWithDrawn(result, i);
        ShuffleFromStep(current, i, s0, seed, j, Swap(current, i, j));
        current := Swap(current, i, j);
        i := i - 1;
      }
      ShuffleFromPermutes(a[..], a.Length - 1, old(seed));
    }

    /** One step of `Shuffle`: draws `j` in `[0, i]` and exchanges `r[i]` with `r[j]`. */
    method SwapWithDrawn<T>(r: array<T>, i: int) returns (j: int)
      requires 0 < i < r.Length
      modifies this, r
      ensures seed == FloorStep(old(seed)) && j == DrawInt(seed, 0, i + 1) && 0 <= j <= i
      ensures r[..] == Swap(old(r[..]), i, j)
    {
      j := NextInt(0, i + 1);
      r[i], r[j] := r[j], r[i];
    }

    /** One draw, then the element at that index; `None` is the `undefined` of an index out of range. */
    method Pick<T>(a: array<T>) returns (r: Option<T>)
      modifies this
      ensures seed == FloorStep(old(seed))
      ensures var k := DrawInt(seed, 0, a.Length); r == if 0 <= k < a.Length then Some(a[k]) else None
      ensures r.None? <==> a.Length == 0
      ensures r.Some? ==> r.value in a[..]
    {
      var k := NextInt(0, a.Length);
      r := if 0 <= k < a.Length then Some(a[k]) else None;
    }

    method Reset(newSeed: int)
      modifies this
      ensures seed == newSeed
    {
      seed := newSeed;
    }

    method GetSeed() returns (s: int)
      ensures s == seed
    {
      s := seed;
    }

    /** Makes one call of the client interface. */
    method Perform(call: Call) returns (o: Output)
      modifies this
      ensures (o, seed) == Apply(old(seed), call)
    {
      match call
      case NextCall =>
        var r := Next();
        o := RealOut(r);
      case NextIntCall(min, max) =>
        var k := NextInt(min, max);
        o := IntOut(k);
      case NextFloatCall(lo, hi) =>
        var x := NextFloat(lo, hi);
        o := RealOut(x);
      case ShuffleCall(items) =>
        var a := new int[|items|](k requires 0 <= k < |items| => items[k]);
        assert a[..] == items;
        var r := Shuffle(a);
        o := SeqOut(r[..]);
      case PickCall(choices) =>
        var a := new int[|choices|](k requires 0 <= k < |choices| => choices[k]);
        assert a[..] == choices;
        var p := Pick(a);
        o := PickOut(p);
      case ResetCall(s) =>
        Reset(s);
        o := NoOut;
    }

    /** Makes the calls in order and collects their outputs. */
    method PerformAll(calls: seq<Call>) returns (outs: seq<Output>)
      modifies this
      ensures outs == Run(old(seed), calls)
    {
      outs := [];
      var i := 0;
      while i < |calls|
        invariant 0 <= i <= |calls|
        invariant outs + Run(seed, calls[i..]) == Run(old(seed), calls)
      {
        assert calls[i..][0] == calls[i] && calls[i..][1..] == calls[i + 1..];
        var o := Perform(calls[i]);
        outs := outs + [o];
        i := i + 1;
      }
      assert calls[i..] == [];
    }
  }

  /**
   * Determinism: two generators built from the same seed and given the same calls return the
   * same outputs at every step.
   */
  method ReplayTwoGenerators(seed: int, calls: seq<Call>) returns (outs1: seq<Output>, outs2: seq<Output>)
    ensures outs1 == outs2 == Run(seed, calls)
  {
    var g1 := new SeededRandom(seed);
    var g2 := new SeededRandom(seed);
    outs1 := g1.PerformAll(calls);
    outs2 := g2.PerformAll(calls);
  }

  /**
   * Replay after `reset`: `getSeed()` returns the seed right after construction and right after
   * `reset(seed)`, and the same calls made after the reset return what they returned before.
   */
  method ReplayAfterReset(seed: int, calls: seq<Call>)
    returns (seedAtStart: int, first: seq<Output>, seedAfterReset: int, second: seq<Output>)
    ensures seedAtStart == seed && seedAfterReset == seed
    ensures first == second == Run(seed, calls)
  {
    var g := new SeededRandom(seed);
    seedAtStart := g.GetSeed();
    first := g.PerformAll(calls);
    g.Reset(seed);
    seedAfterReset := g.GetSeed();
    second := g.PerformAll(calls);
  }
}
