/**
 * The index arithmetic of the two marketing carousels (portfolio and
 * testimonials), which share the same next/previous/dot logic over a
 * fixed, non-empty list of `n` slides, and the portfolio's per-project
 * before/after switch.
 */
module Carousel {
  /**
   * JavaScript's `%` for a positive divisor: the remainder of truncating
   * division, which takes the sign of the dividend. Written as repeated
   * subtraction so that its facts stay linear.
   */
  function JsRem(a: int, n: int): (r: int)
    requires n > 0
    ensures a >= 0 ==> 0 <= r < n
    ensures a < 0 ==> -n < r <= 0
    ensures 0 <= a < n ==> r == a
    ensures n <= a < 2 * n ==> r == a - n
    ensures a >= 0 ==> r == a % n
    ensures a < 0 ==> r == -((-a) % n)
    decreases if a >= 0 then a else 1 - a
  {
    if a >= n then
      ModShift(a, n);
      JsRem(a - n, n)
    else if a >= 0 then
      ModUnique(a, n, 0, a);
      a
    else -JsRem(-a, n)
  }

  /** Taking one divisor off a non-negative dividend keeps Euclidean `%`. */
  lemma ModShift(a: int, n: int)
    requires n > 0 && a >= n
    ensures (a - n) % n == a % n
  {
    var q, r := (a - n) / n, (a - n) % n;
    assert a - n == q * n + r;
    assert (q + 1) * n == q * n + n;
    ModUnique(a, n, q + 1, r);
  }

  /** A remainder in [0, n) of a division by n is the remainder. */
  lemma ModUnique(a: int, n: int, q: int, r: int)
    requires n > 0 && a == q * n + r && 0 <= r < n
    ensures a % n == r
  {
    var q0, r0 := a / n, a % n;
    assert a == q0 * n + r0;
    if q > q0 {
      MulAtLeast(q - q0, n);
    } else if q < q0 {
      MulAtLeast(q0 - q, n);
    }
  }

  lemma {:induction false} MulAtLeast(k: int, n: int)
    requires k >= 1 && n > 0
    ensures k * n >= n
    decreases k
  {
    if k > 1 {
      MulAtLeast(k - 1, n);
      assert k * n == (k - 1) * n + n;
    }
  }

  /** `(prev + 1) % length`. */
  function Next(i: int, n: int): (r: int)
    requires n > 0
    ensures 0 <= i ==> 0 <= r < n
    ensures 0 <= i < n ==> r == (if i == n - 1 then 0 else i + 1)
  {
    JsRem(i + 1, n)
  }

  /** `(prev - 1 + length) % length`. */
  function Prev(i: int, n: int): (r: int)
    requires n > 0
    ensures 0 <= i ==> 0 <= r < n
    ensures 0 <= i < n ==> r == (if i == 0 then n - 1 else i - 1)
  {
    JsRem(i - 1 + n, n)
  }

  /** Clicking the k-th dot. */
  function Dot(k: nat, n: int): (r: int)
    requires k < n
    ensures 0 <= r < n && r == k
  {
    k
  }

  /** Previous undoes next and next undoes previous on every valid index. */
  lemma PrevNext(i: int, n: int)
    requires 0 <= i < n
    ensures Prev(Next(i, n), n) == i
    ensures Next(Prev(i, n), n) == i
  {
  }

  /** `k` presses of next. */
  function NextTimes(i: int, n: int, k: nat): int
    requires n > 0
    decreases k
  {
    if k == 0 then i else Next(NextTimes(i, n, k - 1), n)
  }

  /** Pressing next `a` times and then `b` times is pressing it `a + b` times. */
  lemma {:induction false} NextTimesAdd(i: int, n: int, a: nat, b: nat)
    requires n > 0
    ensures NextTimes(i, n, a + b) == NextTimes(NextTimes(i, n, a), n, b)
    decreases b
  {
    if b > 0 {
      NextTimesAdd(i, n, a, b - 1);
    }
  }

  /** Short of the last slide, `k` presses of next advance the index by `k`. */
  lemma {:induction false} NextTimesAdvances(i: int, n: int, k: nat)
    requires 0 <= i && i + k < n
    ensures NextTimes(i, n, k) == i + k
    decreases k
  {
    if k > 0 {
      NextTimesAdvances(i, n, k - 1);
    }
  }

  /** Pressing next once per slide brings the carousel back where it started. */
  lemma FullCycle(i: int, n: int)
    requires 0 <= i < n
    ensures NextTimes(i, n, n) == i
  {
    var toLast := n - 1 - i;
    NextTimesAdvances(i, n, toLast);
    NextTimesAdd(i, n, toLast, 1);
    assert NextTimes(i, n, toLast + 1) == 0;
    NextTimesAdvances(0, n, i);
    NextTimesAdd(i, n, toLast + 1, i);
  }

  /** The carousel's controls: the two arrows and the dot of slide `k`. */
  datatype Click = NextClick | PrevClick | DotClick(k: nat)

  /** A dot is rendered only for an existing slide. */
  predicate RenderedFor(c: Click, n: int) {
    c.DotClick? ==> c.k < n
  }

  function Press(i: int, n: int, c: Click): int
    requires n > 0 && RenderedFor(c, n)
  {
    match c
    case NextClick => Next(i, n)
    case PrevClick => Prev(i, n)
    case DotClick(k) => Dot(k, n)
  }

  /** The index after a sequence of clicks on rendered controls. */
  function Browse(i: int, n: int, clicks: seq<Click>): int
    requires n > 0 && forall j :: 0 <= j < |clicks| ==> RenderedFor(clicks[j], n)
    decreases |clicks|
  {
    if |clicks| == 0 then i else Browse(Press(i, n, clicks[0]), n, clicks[1..])
  }

  /**
   * Starting on a slide, any sequence of clicks stays on a slide, so the
   * current item `items[index]` is always defined.
   */
  lemma {:induction false} BrowseStaysOnASlide(i: int, n: int, clicks: seq<Click>)
    requires 0 <= i < n
    requires forall j :: 0 <= j < |clicks| ==> RenderedFor(clicks[j], n)
    ensures 0 <= Browse(i, n, clicks) < n
    decreases |clicks|
  {
    if |clicks| > 0 {
      BrowseStaysOnASlide(Press(i, n, clicks[0]), n, clicks[1..]);
    }
  }

  // ----------------------------------------------------------- before/after

  /** The portfolio's `Record<number, boolean>`: a missing key reads as false. */
  function ShowsAfter(m: map<int, bool>, id: int): bool {
    id in m && m[id]
  }

  /** `{ ...prev, [id]: !prev[id] }`: the key's shown side flips, every other key stays. */
  function ToggleBeforeAfter(m: map<int, bool>, id: int): (r: map<int, bool>)
    ensures id in r && ShowsAfter(r, id) == !ShowsAfter(m, id)
    ensures forall k :: k != id ==> (k in r <==> k in m)
    ensures forall k :: k in m && k != id ==> r[k] == m[k]
  {
    m[id := !ShowsAfter(m, id)]
  }

  /** A project never toggled shows its "before" photo, and the first toggle shows "after". */
  lemma FirstToggleShowsAfter(id: int)
    ensures !ShowsAfter(map[], id)
    ensures ShowsAfter(ToggleBeforeAfter(map[], id), id)
  {
  }

  /** Toggling twice shows the same side for every project. */
  lemma ToggleTwice(m: map<int, bool>, id: int)
    ensures forall k :: ShowsAfter(ToggleBeforeAfter(ToggleBeforeAfter(m, id), id), k) == ShowsAfter(m, k)
  {
  }
}
