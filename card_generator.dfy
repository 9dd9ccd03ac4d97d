/**
 * The card-pair generator. `Math.random()` is an explicit tape: call number `i` of the whole
 * generation returns `tape(i)`, and every operation takes the position of its first call and
 * returns the position after its last one.
 */
module CardGenerator {
  import opened Shuffling
  import opened Emojis
  import opened GameTypes
  import opened RealFacts

  type Tape = nat -> real

  /** What `Math.random()` promises: every value lies in [0, 1). */
  ghost predicate ValidTape(tape: Tape) {
    forall i: nat :: 0.0 <= tape(i) < 1.0
  }

  function Min(a: int, b: int): int {
    if a <= b then a else b
  }

  /**
   * `r * n` for a whole number `n`, written as `n` additions of `r` so that the arithmetic stays
   * linear; `TimesIsProduct` shows it is the product.
   */
  function Times(r: real, n: nat): (p: real)
    ensures 0.0 <= r ==> 0.0 <= p
    ensures 0.0 <= r < 1.0 && n > 0 ==> p < n as real
  {
    if n == 0 then 0.0 else Times(r, n - 1) + r
  }

  lemma {:induction false} TimesIsProduct(r: real, n: nat)
    ensures Times(r, n) == r * n as real
  {
    if n > 0 {
      TimesIsProduct(r, n - 1);
      assert r * n as real == r * (n - 1) as real + r;
    }
  }

  /** `Math.floor(r * n)`: for a draw `r` in [0, 1) it is an index of a length-`n` array. */
  function ScaledIndex(r: real, n: nat): (k: int)
    ensures 0.0 <= r < 1.0 && n > 0 ==> 0 <= k < n
  {
    Times(r, n).Floor
  }

  /** `ScaledIndex` is the floor of the real product. */
  lemma ScaledIndexIsFloor(r: real, n: nat)
    ensures ScaledIndex(r, n) == (r * n as real).Floor
  {
    TimesIsProduct(r, n);
  }


  // ---------------------------------------------------------------- shuffleArray

  /**
   * The loop of `shuffleArray` on the copy `s`, from index `i` down to 1, reading the tape from
   * `pos`: the shuffled copy and the next tape position.
   */
  function ShuffleCopy<T>(s: seq<T>, i: int, tape: Tape, pos: nat): (r: (seq<T>, int))
    requires ValidTape(tape) && i < |s|
    ensures |r.0| == |s| && r.1 >= pos
    decreases i
  {
    if i <= 0 then (s, pos)
    else
      var j := ScaledIndex(tape(pos), i + 1);
      ShuffleCopy(Swap(s, i, j), i - 1, tape, pos + 1)
  }

  lemma ShuffleCopyStep<T>(s: seq<T>, i: int, tape: Tape, pos: nat)
    requires ValidTape(tape) && 0 < i < |s|
    ensures ShuffleCopy(s, i, tape, pos) == ShuffleCopy(Swap(s, i, ScaledIndex(tape(pos), i + 1)), i - 1, tape, pos + 1)
  {
  }

  lemma ShuffleCopyDone<T>(s: seq<T>, i: int, tape: Tape, pos: nat)
    requires ValidTape(tape) && i <= 0 && i < |s|
    ensures ShuffleCopy(s, i, tape, pos) == (s, pos)
  {
  }

  /** The shuffle is a permutation and it consumes one draw for each index from `i` down to 1. */
  lemma {:induction false} ShuffleCopyPermutes<T>(s: seq<T>, i: int, tape: Tape, pos: nat)
    requires ValidTape(tape) && i < |s|
    ensures multiset(ShuffleCopy(s, i, tape, pos).0) == multiset(s)
    ensures ShuffleCopy(s, i, tape, pos).1 == pos + (if i > 0 then i else 0)
    decreases i
  {
    if i > 0 {
      var j := ScaledIndex(tape(pos), i + 1);
      SwapPermutes(s, i, j);
      ShuffleCopyPermutes(Swap(s, i, j), i - 1, tape, pos + 1);
    }
  }

  /**
   * `shuffleArray`: Fisher-Yates from the last index down to 1 on a copy of the caller's array,
   * which is itself only read. The copy is a local sequence updated by each swap.
   */
  method ShuffleArray<T>(items: seq<T>, tape: Tape, pos: nat) returns (shuffled: seq<T>, next: nat)
    requires ValidTape(tape)
    ensures (shuffled, next) == ShuffleCopy(items, |items| - 1, tape, pos)
    ensures multiset(shuffled) == multiset(items)
    ensures next == pos + (if |items| > 1 then |items| - 1 else 0)
  {
    var a := CopyToArray(items);
    next := ShuffleInPlace(a, tape, pos);
    shuffled := a[..];
    ShuffleCopyPermutes(items, |items| - 1, tape, pos);
  }

  /** The loop of `shuffleArray`, on the copy `a`. */
  method ShuffleInPlace<T>(a: array<T>, tape: Tape, pos: nat) returns (next: nat)
    requires ValidTape(tape)
    modifies a
    ensures (a[..], next) == ShuffleCopy(old(a[..]), a.Length - 1, tape, pos)
  {
    ghost var target := ShuffleCopy(a[..], a.Length - 1, tape, pos);
    var i := a.Length - 1;
    next := pos;
    while i > 0
      invariant -1 <= i < a.Length
      invariant ShuffleCopy(a[..], i, tape, next) == target
      decreases i
    {
      ghost var before := a[..];
      ShuffleCopyStep(before, i, tape, next);
      var j := SwapWithDrawn(a, i, tape(next));
      assert a[..] == Swap(before, i, ScaledIndex(tape(next), i + 1));
      next := next + 1;
      i := i - 1;
    }
    ShuffleCopyDone(a[..], i, tape, next);
  }

  /** The spread copy `[...array]` into a fresh array. */
  method CopyToArray<T>(items: seq<T>) returns (a: array<T>)
    ensures fresh(a) && a[..] == items
  {
    a := new T[|items|](k requires 0 <= k < |items| => items[k]);
  }

  /**
   * One step of `shuffleArray` for the draw `r`: `j = floor(r * (i + 1))`, then the
   * destructuring exchange `[a[i], a[j]] = [a[j], a[i]]`.
   */
  method SwapWithDrawn<T>(a: array<T>, i: nat, r: real) returns (j: nat)
    requires 0 < i < a.Length && 0.0 <= r < 1.0
    modifies a
    ensures j == ScaledIndex(r, i + 1) && j <= i
    ensures a[..] == Swap(old(a[..]), i, j)
  {
    j := ScaledIndex(r, i + 1);
    a[i], a[j] := a[j], a[i];
  }

  // ---------------------------------------------------------------- selectRandomEmojis

  /** `s.filter(x => !exclude.includes(x))`. */
  function Without(s: seq<string>, exclude: seq<string>): (r: seq<string>)
    ensures forall x :: x in r <==> x in s && x !in exclude
    ensures |r| <= |s|
    ensures Distinct(s) ==> Distinct(r)
  {
    if s == [] then []
    else
      var rest := Without(s[1..], exclude);
      if s[0] in exclude then rest
      else
        assert Distinct(s) ==> s[0] !in s[1..] && Distinct(s[1..]);
        [s[0]] + rest
  }

  /** Filtering a duplicate-free sequence removes at most as many entries as there are exclusions. */
  lemma {:induction false} WithoutLength(s: seq<string>, exclude: seq<string>)
    requires Distinct(s)
    ensures |Without(s, exclude)| >= |s| - |exclude|
    decreases |exclude|
  {
    if exclude == [] {
      WithoutNothing(s, exclude);
    } else {
      var front, x := exclude[..|exclude| - 1], exclude[|exclude| - 1];
      assert exclude == front + [x];
      WithoutLength(s, front);
      WithoutSnoc(s, front, x);
      WithoutOneLength(Without(s, front), x);
    }
  }

  /** Excluding `e + [x]` is excluding `e` and then `x`. */
  lemma {:induction false} WithoutSnoc(s: seq<string>, e: seq<string>, x: string)
    ensures Without(s, e + [x]) == Without(Without(s, e), [x])
  {
    if s != [] {
      WithoutSnoc(s[1..], e, x);
      assert s[0] in e + [x] <==> s[0] in e || s[0] == x;
      if s[0] !in e {
        assert Without(s, e) == [s[0]] + Without(s[1..], e);
        assert Without(s, e)[1..] == Without(s[1..], e);
      }
    }
  }

  /** Excluding nothing that occurs leaves the sequence as it is. */
  lemma {:induction false} WithoutNothing(s: seq<string>, e: seq<string>)
    requires forall y :: y in s ==> y !in e
    ensures Without(s, e) == s
  {
    if s != [] {
      assert forall y :: y in s[1..] ==> y in s;
      WithoutNothing(s[1..], e);
      assert s == [s[0]] + s[1..];
    }
  }

  /** A single exclusion removes at most one entry of a duplicate-free sequence. */
  lemma {:induction false} WithoutOneLength(t: seq<string>, x: string)
    requires Distinct(t)
    ensures |Without(t, [x])| >= |t| - 1
  {
    if t != [] {
      assert Distinct(t[1..]) by {
        forall i, j | 0 <= i < j < |t[1..]| ensures t[1..][i] != t[1..][j] {
          assert t[1..][i] == t[i + 1] && t[1..][j] == t[j + 1];
        }
      }
      if t[0] == x {
        assert forall y :: y in t[1..] ==> y !in [x] by {
          forall y | y in t[1..] ensures y != x {
            var k :| 0 <= k < |t[1..]| && t[1..][k] == y;
            assert t[k + 1] == y;
          }
        }
        WithoutNothing(t[1..], [x]);
      } else {
        WithoutOneLength(t[1..], x);
      }
    }
  }

  /**
   * `selectRandomEmojis(count, exclude)`: the pool without `exclude`, shuffled, cut to its first
   * `count` glyphs.
   */
  method SelectRandomEmojis(count: nat, exclude: seq<string>, tape: Tape, pos: nat)
    returns (picked: seq<string>, next: nat)
    requires ValidTape(tape)
    ensures var available := Without(EMOJI_POOL, exclude);
      var r := ShuffleCopy(available, |available| - 1, tape, pos);
      picked == r.0[..Min(count, |available|)] && next == r.1
    ensures |picked| == Min(count, |Without(EMOJI_POOL, exclude)|)
    ensures next == pos + (if |Without(EMOJI_POOL, exclude)| > 1 then |Without(EMOJI_POOL, exclude)| - 1 else 0)
    ensures Distinct(picked)
    ensures forall x :: x in picked ==> x in EMOJI_POOL && x !in exclude
  {
    PoolDistinct();
    picked, next := SelectFrom(EMOJI_POOL, count, exclude, tape, pos);
  }

  /** The body of `SelectRandomEmojis`, for any duplicate-free pool. */
  method SelectFrom(pool: seq<string>, count: nat, exclude: seq<string>, tape: Tape, pos: nat)
    returns (picked: seq<string>, next: nat)
    requires ValidTape(tape) && Distinct(pool)
    ensures var available := Without(pool, exclude);
      var r := ShuffleCopy(available, |available| - 1, tape, pos);
      picked == r.0[..Min(count, |available|)] && next == r.1
    ensures |picked| == Min(count, |Without(pool, exclude)|)
    ensures next == pos + (if |Without(pool, exclude)| > 1 then |Without(pool, exclude)| - 1 else 0)
    ensures Distinct(picked)
    ensures forall x :: x in picked ==> x in pool && x !in exclude
  {
    var available := Without(pool, exclude);
    var shuffled;
    shuffled, next := ShuffleArray(available, tape, pos);
    picked := shuffled[..Min(count, |shuffled|)];
    DistinctPermutation(available, shuffled);
    PermutationMembers(available, shuffled);
    DistinctPrefix(shuffled, |picked|);
    assert forall x :: x in picked ==> x in shuffled;
  }

  // ---------------------------------------------------------------- size and rotation

  const MIN_SIZE: real := 0.8
  const MAX_SIZE: real := 2.5

  /** `getRandomSize` for the draw `r`: a scale in [0.8, 2.5). */
  function RandomSize(r: real): (size: real)
    ensures 0.0 <= r < 1.0 ==> MIN_SIZE <= size < MAX_SIZE
  {
    MIN_SIZE + r * (MAX_SIZE - MIN_SIZE)
  }

  /** Every scale in [0.8, 2.5) is the size of exactly one draw in [0, 1). */
  lemma RandomSizeOnto(size: real)
    requires MIN_SIZE <= size < MAX_SIZE
    ensures var r := (size - MIN_SIZE) / (MAX_SIZE - MIN_SIZE); 0.0 <= r < 1.0 && RandomSize(r) == size
    ensures forall r :: RandomSize(r) == size ==> r == (size - MIN_SIZE) / (MAX_SIZE - MIN_SIZE)
  {
  }

  /** `getRandomRotation` for the draw `r`: an angle in [0, 360) degrees. */
  function RandomRotation(r: real): (degrees: real)
    ensures 0.0 <= r < 1.0 ==> 0.0 <= degrees < 360.0
  {
    r * 360.0
  }

  // ---------------------------------------------------------------- checkOverlap

  const BASE_FONT_SIZE: real := 40.0
  const MIN_DISTANCE: real := 50.0

  /** The exclusion radius of a glyph of scale `size`. */
  function Radius(size: real): real {
    BASE_FONT_SIZE * size / 2.0 + MIN_DISTANCE / 2.0
  }

  /**
   * `checkOverlap`: the centres lie closer than the sum of the two radii. The comparison is
   * made on squares, which `OverlapsIsDistanceBelowReach` shows agrees with `Math.sqrt`.
   */
  predicate Overlaps(e1: EmojiInstance, e2: EmojiInstance) {
    var reach := Radius(e1.size) + Radius(e2.size);
    var dx := e1.x - e2.x;
    var dy := e1.y - e2.y;
    reach > 0.0 && dx * dx + dy * dy < reach * reach
  }

  /** For the true distance `d` between the centres, `Overlaps` is `d < r1 + r2`. */
  lemma OverlapsIsDistanceBelowReach(e1: EmojiInstance, e2: EmojiInstance, d: real)
    requires d >= 0.0 && d * d == (e1.x - e2.x) * (e1.x - e2.x) + (e1.y - e2.y) * (e1.y - e2.y)
    ensures Overlaps(e1, e2) <==> d < Radius(e1.size) + Radius(e2.size)
  {
    var reach := Radius(e1.size) + Radius(e2.size);
    if reach > 0.0 {
      if d < reach {
        SquareLess(d, reach);
      } else {
        SquareAtMost(reach, d);
      }
    }
  }

  lemma OverlapsSymmetric(e1: EmojiInstance, e2: EmojiInstance)
    ensures Overlaps(e1, e2) <==> Overlaps(e2, e1)
  {
    assert (e1.x - e2.x) * (e1.x - e2.x) == (e2.x - e1.x) * (e2.x - e1.x);
    assert (e1.y - e2.y) * (e1.y - e2.y) == (e2.y - e1.y) * (e2.y - e1.y);
  }

  // ---------------------------------------------------------------- getRandomPositionWithoutOverlap

  const PADDING: real := 40.0
  const CARD_WIDTH: real := 350.0
  const CARD_HEIGHT: real := 450.0
  const MAX_ATTEMPTS: nat := 50

  /** A position drawn from the tape at `pos` (x) and `pos + 1` (y). */
  function DrawPosition(tape: Tape, pos: nat): (p: (real, real))
    ensures ValidTape(tape) ==>
      PADDING <= p.0 < CARD_WIDTH - PADDING && PADDING <= p.1 < CARD_HEIGHT - PADDING
  {
    assert ValidTape(tape) ==> 0.0 <= tape(pos) < 1.0 && 0.0 <= tape(pos + 1) < 1.0;
    (PADDING + tape(pos) * (CARD_WIDTH - 2.0 * PADDING),
     PADDING + tape(pos + 1) * (CARD_HEIGHT - 2.0 * PADDING))
  }

  /** The position tried by attempt `k` of a search whose first draw is at `pos`. */
  function AttemptPosition(tape: Tape, pos: nat, k: nat): (real, real) {
    DrawPosition(tape, pos + 2 * k)
  }

  /** The glyph-less, unrotated instance an attempt tests for overlap. */
  function Probe(p: (real, real), size: real): EmojiInstance {
    EmojiInstance("", p.0, p.1, size, 0.0)
  }

  /** `existing.some(e => checkOverlap(probe, e))`. */
  predicate OverlapsAny(existing: seq<EmojiInstance>, probe: EmojiInstance) {
    exists i :: 0 <= i < |existing| && Overlaps(probe, existing[i])
  }

  /**
   * `getRandomPositionWithoutOverlap` with the default card size and 50 attempts: the first
   * attempt whose probe overlaps no existing glyph, or a fresh draw after 50 failures. Each
   * attempt, and the fallback, consumes two draws.
   */
  method GetRandomPositionWithoutOverlap(existing: seq<EmojiInstance>, size: real, tape: Tape, pos: nat)
    returns (x: real, y: real, next: nat)
    requires ValidTape(tape)
    ensures PADDING <= x < CARD_WIDTH - PADDING && PADDING <= y < CARD_HEIGHT - PADDING
    ensures pos + 2 <= next <= pos + 2 * MAX_ATTEMPTS + 2 && (next - pos) % 2 == 0
    ensures (x, y) == DrawPosition(tape, next - 2)
    ensures forall k: nat :: pos + 2 * k + 2 < next ==> OverlapsAny(existing, Probe(AttemptPosition(tape, pos, k), size))
    ensures next < pos + 2 * MAX_ATTEMPTS + 2 ==> !OverlapsAny(existing, Probe((x, y), size))
  {
    var attempt := 0;
    next := pos;
    while attempt < MAX_ATTEMPTS
      invariant 0 <= attempt <= MAX_ATTEMPTS && next == pos + 2 * attempt
      invariant forall k: nat :: k < attempt ==> OverlapsAny(existing, Probe(AttemptPosition(tape, pos, k), size))
    {
      assert (tape(next), tape(next + 1)) == (tape(pos + 2 * attempt), tape(pos + 2 * attempt + 1));
      x := PADDING + tape(next) * (CARD_WIDTH - 2.0 * PADDING);
      y := PADDING + tape(next + 1) * (CARD_HEIGHT - 2.0 * PADDING);
      assert (x, y) == AttemptPosition(tape, pos, attempt) == DrawPosition(tape, next);
      next := next + 2;
      if !OverlapsAny(existing, Probe((x, y), size)) {
        return;
      }
      attempt := attempt + 1;
    }
    x := PADDING + tape(next) * (CARD_WIDTH - 2.0 * PADDING);
    y := PADDING + tape(next + 1) * (CARD_HEIGHT - 2.0 * PADDING);
    assert (x, y) == DrawPosition(tape, next);
    next := next + 2;
  }

  // ---------------------------------------------------------------- generateCardPair

  /** The ranges every generated instance keeps to. */
  predicate InBounds(e: EmojiInstance) {
    MIN_SIZE <= e.size < MAX_SIZE && 0.0 <= e.rotation < 360.0 &&
    PADDING <= e.x < CARD_WIDTH - PADDING && PADDING <= e.y < CARD_HEIGHT - PADDING
  }

  /**
   * What one iteration of a placement loop does with the draws from `pos` to `next`: the size
   * from the first draw, the rotation from the second, then the attempts of
   * `getRandomPositionWithoutOverlap` from `pos + 2`. Every attempt before the last one overlapped
   * an instance of `existing`; the position kept is the last pair of draws, and it overlaps none
   * of `existing` unless the attempt budget ran out.
   */
  ghost predicate PlacedAt(existing: seq<EmojiInstance>, e: EmojiInstance, tape: Tape, pos: nat, next: nat) {
    e.size == RandomSize(tape(pos)) && e.rotation == RandomRotation(tape(pos + 1)) &&
    pos + 4 <= next <= pos + 2 * MAX_ATTEMPTS + 4 && (next - pos) % 2 == 0 &&
    (e.x, e.y) == DrawPosition(tape, next - 2) &&
    (forall k: nat :: pos + 2 * k + 4 < next ==> OverlapsAny(existing, Probe(AttemptPosition(tape, pos + 2, k), e.size))) &&
    (Settled(pos, next) ==> !OverlapsAny(existing, Probe((e.x, e.y), e.size)))
  }

  /** The position was found within the attempt budget, before the fallback draw. */
  predicate Settled(pos: nat, next: nat) {
    next < pos + 2 * MAX_ATTEMPTS + 4
  }

  /**
   * A card laid out by a placement loop that read the draws from `starts[0]` to the last entry of
   * `starts`: instance `i` was placed against instances `0 .. i - 1` from the draws between
   * `starts[i]` and `starts[i + 1]`, and overlaps none of them if it settled.
   */
  ghost predicate PlacedCard(c: Card, tape: Tape, starts: seq<nat>) {
    |starts| == |c.emojis| + 1 &&
    (forall i :: 0 <= i < |c.emojis| ==> PlacedAt(c.emojis[..i], c.emojis[i], tape, starts[i], starts[i + 1])) &&
    (forall i, j :: 0 <= j < i < |c.emojis| && Settled(starts[i], starts[i + 1]) ==>
      !Overlaps(c.emojis[i], c.emojis[j]))
  }

  /**
   * The draws fix the iteration: two instances of the same glyph placed from the same cursor
   * among the same instances are the same instance, and the cursor ends at the same place.
   */
  lemma PlacementDeterministic(existing: seq<EmojiInstance>, e1: EmojiInstance, e2: EmojiInstance, tape: Tape,
                               pos: nat, n1: nat, n2: nat)
    requires PlacedAt(existing, e1, tape, pos, n1) && PlacedAt(existing, e2, tape, pos, n2)
    requires e1.emoji == e2.emoji
    ensures e1 == e2 && n1 == n2
  {
    if n1 < n2 {
      EarlierAttemptOverlaps(existing, e2, tape, pos, n2, n1);
      assert false;
    } else if n2 < n1 {
      EarlierAttemptOverlaps(existing, e1, tape, pos, n1, n2);
      assert false;
    }
  }

  /** Every attempt that ended before the cursor `next` of an iteration overlapped an instance. */
  lemma EarlierAttemptOverlaps(existing: seq<EmojiInstance>, e: EmojiInstance, tape: Tape, pos: nat, next: nat, m: nat)
    requires PlacedAt(existing, e, tape, pos, next)
    requires pos + 4 <= m < next && (m - pos) % 2 == 0
    ensures OverlapsAny(existing, Probe(DrawPosition(tape, m - 2), e.size))
  {
    var k: nat := (m - pos - 4) / 2;
    assert pos + 2 * k + 4 == m;
    assert AttemptPosition(tape, pos + 2, k) == DrawPosition(tape, m - 2);
  }

  /** An instance that settled overlaps none of the instances placed before it. */
  lemma SettledAvoidsEarlier(existing: seq<EmojiInstance>, e: EmojiInstance, tape: Tape, pos: nat, next: nat)
    requires PlacedAt(existing, e, tape, pos, next) && Settled(pos, next)
    ensures forall j :: 0 <= j < |existing| ==> !Overlaps(e, existing[j])
  {
    forall j | 0 <= j < |existing| ensures !Overlaps(e, existing[j]) {
      assert e.x == Probe((e.x, e.y), e.size).x && e.y == Probe((e.x, e.y), e.size).y;
      assert !Overlaps(Probe((e.x, e.y), e.size), existing[j]);
    }
  }

  /**
   * One of the two placement loops of `generateCardPair`: per glyph, a size, a rotation and a
   * position avoiding the instances already placed. Iteration `i` reads the draws from
   * `starts[i]` to `starts[i + 1]`; an instance that settled overlaps none of its predecessors.
   */
  method PlaceGlyphs(glyphs: seq<string>, tape: Tape, pos: nat)
    returns (instances: seq<EmojiInstance>, next: nat, ghost starts: seq<nat>)
    requires ValidTape(tape)
    ensures |instances| == |glyphs| && |starts| == |glyphs| + 1
    ensures starts[0] == pos && starts[|glyphs|] == next
    ensures PlacedCard(Card(instances), tape, starts)
    ensures forall i :: 0 <= i < |instances| ==> InBounds(instances[i])
    ensures next >= pos + 4 * |glyphs|
    ensures Glyphs(Card(instances)) == glyphs && forall e :: e in instances ==> InBounds(e)
  {
    instances, next, starts := [], pos, [pos];
    for n := 0 to |glyphs|
      invariant |instances| == n && |starts| == n + 1
      invariant starts[0] == pos && starts[n] == next
      invariant forall i :: 0 <= i < n ==>
        instances[i].emoji == glyphs[i] && PlacedAt(instances[..i], instances[i], tape, starts[i], starts[i + 1])
      invariant forall i :: 0 <= i < n ==> InBounds(instances[i])
      invariant forall i, j :: 0 <= j < i < n && Settled(starts[i], starts[i + 1]) ==>
        !Overlaps(instances[i], instances[j])
      invariant next >= pos + 4 * n
    {
      var e, after := PlaceGlyph(instances, glyphs[n], tape, next);
      SettledImpliesFree(instances, e, tape, next, after);
      ghost var old_instances := instances;
      instances := instances + [e];
      starts := starts + [after];
      assert instances[..n] == old_instances;
      assert forall i :: 0 <= i < n ==> instances[..i] == old_instances[..i];
      next := after;
    }
    assert Glyphs(Card(instances)) == glyphs;
    assert PlacedCard(Card(instances), tape, starts);
  }

  lemma SettledImpliesFree(existing: seq<EmojiInstance>, e: EmojiInstance, tape: Tape, pos: nat, next: nat)
    requires PlacedAt(existing, e, tape, pos, next)
    ensures Settled(pos, next) ==> forall j :: 0 <= j < |existing| ==> !Overlaps(e, existing[j])
  {
    if Settled(pos, next) {
      SettledAvoidsEarlier(existing, e, tape, pos, next);
    }
  }

  /**
   * One iteration of a placement loop: a size from the first draw, a rotation from the second,
   * then a position from the draws after them, as `PlacedAt` states.
   */
  method PlaceGlyph(existing: seq<EmojiInstance>, glyph: string, tape: Tape, pos: nat)
    returns (e: EmojiInstance, next: nat)
    requires ValidTape(tape)
    ensures e.emoji == glyph && InBounds(e)
    ensures PlacedAt(existing, e, tape, pos, next)
  {
    var size := RandomSize(tape(pos));
    var rotation := RandomRotation(tape(pos + 1));
    var x, y, after := GetRandomPositionWithoutOverlap(existing, size, tape, pos + 2);
    e := EmojiInstance(glyph, x, y, size, rotation);
    next := after;
  }

  datatype CardPair = CardPair(cards: (Card, Card), matchingEmoji: string)

  /**
   * `generateCardPair`: a matching glyph, seven decoys for card 1 avoiding it, seven for card 2
   * avoiding both, the matching glyph appended to each, each card shuffled, then both placed.
   */
  method GenerateCardPair(tape: Tape, pos: nat) returns (pair: CardPair, next: nat, ghost starts1: seq<nat>, ghost starts2: seq<nat>)
    requires ValidTape(tape)
    ensures var (c1, c2) := pair.cards;
      |c1.emojis| == 8 && |c2.emojis| == 8 &&
      pair.matchingEmoji in EMOJI_POOL &&
      pair.matchingEmoji in Glyphs(c1) && pair.matchingEmoji in Glyphs(c2) &&
      Distinct(Glyphs(c1)) && Distinct(Glyphs(c2)) &&
      (forall g :: g in Glyphs(c1) && g in Glyphs(c2) ==> g == pair.matchingEmoji) &&
      (forall g :: g in Glyphs(c1) + Glyphs(c2) ==> g in EMOJI_POOL) &&
      (forall e :: e in c1.emojis + c2.emojis ==> InBounds(e))
    ensures VerifyCardPair(pair.cards.0, pair.cards.1) == Verification(true, [pair.matchingEmoji])
    ensures next > pos
    ensures PlacedCard(pair.cards.0, tape, starts1) && PlacedCard(pair.cards.1, tape, starts2)
    ensures pos < starts1[0] && starts1[8] == starts2[0] && starts2[8] == next
  {
    PoolSize();
    PoolDistinct();
    pair, next, starts1, starts2 := GenerateFrom(EMOJI_POOL, tape, pos);
  }

  /** The body of `GenerateCardPair`, for any duplicate-free pool of at least 15 glyphs. */
  method GenerateFrom(pool: seq<string>, tape: Tape, pos: nat)
    returns (pair: CardPair, next: nat, ghost starts1: seq<nat>, ghost starts2: seq<nat>)
    requires ValidTape(tape) && Distinct(pool) && |pool| >= 15
    ensures var (c1, c2) := pair.cards;
      |c1.emojis| == 8 && |c2.emojis| == 8 &&
      pair.matchingEmoji in pool &&
      pair.matchingEmoji in Glyphs(c1) && pair.matchingEmoji in Glyphs(c2) &&
      Distinct(Glyphs(c1)) && Distinct(Glyphs(c2)) &&
      (forall g :: g in Glyphs(c1) && g in Glyphs(c2) ==> g == pair.matchingEmoji) &&
      (forall g :: g in Glyphs(c1) + Glyphs(c2) ==> g in pool) &&
      (forall e :: e in c1.emojis + c2.emojis ==> InBounds(e))
    ensures VerifyCardPair(pair.cards.0, pair.cards.1) == Verification(true, [pair.matchingEmoji])
    ensures next > pos
    ensures PlacedCard(pair.cards.0, tape, starts1) && PlacedCard(pair.cards.1, tape, starts2)
    ensures pos < starts1[0] && starts1[8] == starts2[0] && starts2[8] == next
  {
    var matching, all1, all2, p := ChooseGlyphs(pool, tape, pos);

    var shuffled1, shuffled2;
    shuffled1, p := ShuffleArray(all1, tape, p);
    shuffled2, p := ShuffleArray(all2, tape, p);
    ShuffledGlyphs(all1, shuffled1);
    ShuffledGlyphs(all2, shuffled2);

    var instances1, instances2;
    instances1, p, starts1 := PlaceGlyphs(shuffled1, tape, p);
    instances2, p, starts2 := PlaceGlyphs(shuffled2, tape, p);
    var c1, c2 := Card(instances1), Card(instances2);
    pair := CardPair((c1, c2), matching);
    next := p;
    SharedOfSingleMatch(shuffled1, shuffled2, matching);
  }

  /** A shuffle of a duplicate-free glyph list is duplicate-free and has the same glyphs. */
  lemma ShuffledGlyphs(all: seq<string>, shuffled: seq<string>)
    requires multiset(shuffled) == multiset(all) && Distinct(all)
    ensures Distinct(shuffled) && |shuffled| == |all|
    ensures forall g :: g in shuffled <==> g in all
  {
    DistinctPermutation(all, shuffled);
    PermutationMembers(all, shuffled);
    assert |shuffled| == |multiset(shuffled)|;
  }

  /**
   * The glyph choices of `generateCardPair` for a duplicate-free pool of at least 15 glyphs: the
   * matching glyph `pool[floor(r * |pool|)]`, then seven decoys avoiding it for card 1 and seven
   * avoiding both for card 2, each list with the matching glyph appended.
   */
  method ChooseGlyphs(pool: seq<string>, tape: Tape, pos: nat)
    returns (matching: string, all1: seq<string>, all2: seq<string>, next: nat)
    requires ValidTape(tape) && Distinct(pool) && |pool| >= 15
    ensures matching == pool[ScaledIndex(tape(pos), |pool|)]
    ensures |all1| == 8 && |all2| == 8 && Distinct(all1) && Distinct(all2)
    ensures all1[7] == matching && all2[7] == matching
    ensures forall g :: g in all1 && g in all2 ==> g == matching
    ensures forall g :: g in all1 + all2 ==> g in pool
    ensures next > pos
  {
    var k := ScaledIndex(tape(pos), |pool|);
    matching := pool[k];
    var decoys1, decoys2;
    WithoutLength(pool, [matching]);
    decoys1, next := SelectFrom(pool, 7, [matching], tape, pos + 1);
    var exclude2 := [matching] + decoys1;
    WithoutLength(pool, exclude2);
    decoys2, next := SelectFrom(pool, 7, exclude2, tape, next);
    all1 := decoys1 + [matching];
    all2 := decoys2 + [matching];
    DecoysAndMatch(decoys1, decoys2, matching, pool);
  }

  /** The two glyph lists built from disjoint decoys and a shared matching glyph. */
  lemma DecoysAndMatch(decoys1: seq<string>, decoys2: seq<string>, m: string, pool: seq<string>)
    requires Distinct(decoys1) && Distinct(decoys2) && m in pool
    requires forall x :: x in decoys1 ==> x in pool && x !in [m]
    requires forall x :: x in decoys2 ==> x in pool && x !in [m] + decoys1
    ensures Distinct(decoys1 + [m]) && Distinct(decoys2 + [m])
    ensures forall g :: g in decoys1 + [m] && g in decoys2 + [m] ==> g == m
    ensures forall g :: g in (decoys1 + [m]) + (decoys2 + [m]) ==> g in pool
  {
    DistinctAppend(decoys1, m);
    DistinctAppend(decoys2, m);
    assert forall g :: g in decoys1 + [m] <==> g in decoys1 || g == m;
    assert forall g :: g in decoys2 + [m] <==> g in decoys2 || g == m;
    assert forall g :: g in [m] + decoys1 <==> g == m || g in decoys1;
  }

  // ---------------------------------------------------------------- verifyCardPair

  /** `a.filter(x => b.includes(x))`. */
  function Shared(a: seq<string>, b: seq<string>): (r: seq<string>)
    ensures forall x :: x in r <==> x in a && x in b
    ensures |r| <= |a|
    ensures Distinct(a) ==> Distinct(r)
    ensures IsSubsequence(r, a)
    ensures forall x :: multiset(r)[x] == if x in b then multiset(a)[x] else 0
  {
    if a == [] then []
    else
      var rest := Shared(a[1..], b);
      SharedStep(a[0], a[1..], b, rest);
      assert a == [a[0]] + a[1..];
      if a[0] in b then [a[0]] + rest else rest
  }

  /** One step of the filter: what `Shared` promises for the tail carries over to the whole list. */
  lemma SharedStep(x: string, t: seq<string>, b: seq<string>, rest: seq<string>)
    requires forall y :: y in rest <==> y in t && y in b
    requires |rest| <= |t|
    requires Distinct(t) ==> Distinct(rest)
    requires IsSubsequence(rest, t)
    requires forall y :: multiset(rest)[y] == if y in b then multiset(t)[y] else 0
    ensures var a, r := [x] + t, if x in b then [x] + rest else rest;
      (forall y :: y in r <==> y in a && y in b) &&
      |r| <= |a| &&
      (Distinct(a) ==> Distinct(r)) &&
      IsSubsequence(r, a) &&
      (forall y :: multiset(r)[y] == if y in b then multiset(a)[y] else 0)
  {
    var a, r := [x] + t, if x in b then [x] + rest else rest;
    assert a[1..] == t;
    assert multiset(a) == multiset{x} + multiset(t);
    if x in b {
      assert r[1..] == rest;
      assert multiset(r) == multiset{x} + multiset(rest);
      assert Distinct(a) ==> x !in t && Distinct(t);
    } else {
      assert IsSubsequence(r, a[1..]);
    }
  }

  datatype Verification = Verification(isValid: bool, matchingEmojis: seq<string>)

  /**
   * `verifyCardPair`: the glyphs of card 1 that also occur on card 2, in card-1 order, and
   * whether there is exactly one of them.
   */
  function VerifyCardPair(c1: Card, c2: Card): (v: Verification)
    ensures forall g :: g in v.matchingEmojis <==> g in Glyphs(c1) && g in Glyphs(c2)
    ensures v.isValid <==> |v.matchingEmojis| == 1
    ensures Distinct(Glyphs(c1)) ==> Distinct(v.matchingEmojis)
    ensures IsSubsequence(v.matchingEmojis, Glyphs(c1))
    ensures forall g ::
      multiset(v.matchingEmojis)[g] == if g in Glyphs(c2) then multiset(Glyphs(c1))[g] else 0
  {
    var matching := Shared(Glyphs(c1), Glyphs(c2));
    Verification(|matching| == 1, matching)
  }

  /** When the only glyph of a duplicate-free `a` that occurs in `b` is `m`, the filter is `[m]`. */
  lemma {:induction false} SharedOfSingleMatch(a: seq<string>, b: seq<string>, m: string)
    requires Distinct(a) && m in a
    requires forall g :: g in a ==> (g in b <==> g == m)
    ensures Shared(a, b) == [m]
  {
    var r := Shared(a, b);
    assert forall g :: g in r <==> g == m;
    ElemsCard(r);
    assert Elems(r) == {m};
    assert |r| == 1;
    assert r[0] in r;
  }

  /** A glyph repeated on card 1 is reported once per occurrence, so such a pair is not valid. */
  lemma RepeatedGlyphReportedTwice(c1: Card, c2: Card, x: string)
    requires Glyphs(c1) == [x, x] && Glyphs(c2) == [x]
    ensures VerifyCardPair(c1, c2) == Verification(false, [x, x])
  {
    var r := VerifyCardPair(c1, c2).matchingEmojis;
    assert multiset(Glyphs(c1))[x] == 2;
    assert x in r;
    assert |r| == 2;
  }

  /** For a duplicate-free `a`, the filter has one element iff the two lists share exactly one glyph. */
  lemma SharedSingleIffOneCommon(a: seq<string>, b: seq<string>)
    requires Distinct(a)
    ensures |Shared(a, b)| == 1 <==> exists m :: Elems(a) * Elems(b) == {m}
  {
    SingleIffOneCommon(Shared(a, b), a, b);
  }

  /** A duplicate-free list of exactly the common glyphs has one entry iff there is one common glyph. */
  lemma SingleIffOneCommon(r: seq<string>, a: seq<string>, b: seq<string>)
    requires Distinct(r)
    requires forall x :: x in r <==> x in a && x in b
    ensures |r| == 1 <==> exists m :: Elems(a) * Elems(b) == {m}
  {
    var both := Elems(a) * Elems(b);
    assert Elems(r) == both;
    ElemsCard(r);
    if |r| == 1 {
      assert both == {r[0]};
    }
    if m :| both == {m} {
      assert |r| == 1;
    }
  }

  /** For a card without repeated glyphs, `isValid` holds iff the two cards share exactly one glyph. */
  lemma VerifyValidIffOneShared(c1: Card, c2: Card)
    requires Distinct(Glyphs(c1))
    ensures VerifyCardPair(c1, c2).isValid <==>
      exists m :: Elems(Glyphs(c1)) * Elems(Glyphs(c2)) == {m}
  {
    SharedSingleIffOneCommon(Glyphs(c1), Glyphs(c2));
  }

}
