/**
 * The pure part of the carousel controller: the index arithmetic of
 * `nextSlide` and of the ArrowLeft handler, the track offset written by
 * `goToSlide`, and the indicator states that `goToSlide` renders.
 */
module SlideMath {

  /** The quotient that JavaScript's `%` is defined against: it truncates toward zero. */
  function JsQuot(a: int, n: int): int
    requires n > 0
  {
    if a >= 0 then a / n else -((-a) / n)
  }

  /**
   * JavaScript's `%` on integral numbers with a positive divisor. Unlike Dafny's
   * Euclidean `%`, its result takes the sign of the dividend.
   */
  function JsRem(a: int, n: int): (r: int)
    requires n > 0
    ensures a == n * JsQuot(a, n) + r
    ensures 0 <= a ==> 0 <= r < n
    ensures a <= 0 ==> -n < r <= 0
  {
    if a >= 0 then a % n else -((-a) % n)
  }

  /** On a dividend that is not negative, JavaScript's `%` and Dafny's `%` agree. */
  lemma JsRemNonNegative(a: int, n: int)
    requires n > 0 && a >= 0
    ensures JsRem(a, n) == a % n
  {
  }

  /** The target of `nextSlide`: `(currentSlide + 1) % totalSlides`. */
  function Next(c: int, n: int): (r: int)
    requires 0 <= c < n
    ensures 0 <= r < n
    ensures r == if c == n - 1 then 0 else c + 1
  {
    var r := JsRem(c + 1, n);
    assert c + 1 < n ==> JsQuot(c + 1, n) == 0;
    r
  }

  /** The target of the ArrowLeft handler: `(currentSlide - 1 + totalSlides) % totalSlides`. */
  function Prev(c: int, n: int): (r: int)
    requires 0 <= c < n
    ensures 0 <= r < n
    ensures r == if c == 0 then n - 1 else c - 1
  {
    var r := JsRem(c - 1 + n, n);
    assert c > 0 ==> JsQuot(c - 1 + n, n) == 1;
    r
  }

  /** Stepping back undoes stepping forward, and the other way round. */
  lemma PrevNextInverse(c: int, n: int)
    requires 0 <= c < n
    ensures Prev(Next(c, n), n) == c
    ensures Next(Prev(c, n), n) == c
  {
  }

  /** The cursor after `k` successive calls of `nextSlide` from cursor `c`. */
  function Advance(c: int, n: int, k: nat): (r: int)
    requires 0 <= c < n
    ensures 0 <= r < n
  {
    if k == 0 then c else Next(Advance(c, n, k - 1), n)
  }

  /** A quotient-and-remainder split with the remainder in `[0, n)` is the one `%` gives. */
  lemma ModUnique(y: int, n: int, q: int, r: int)
    requires n > 0 && y == q * n + r && 0 <= r < n
    ensures y % n == r
  {
    var d := q - y / n;
    assert d * n == y % n - r;
    // a nonzero d would put the two remainders at least n apart
    if d >= 1 {
      assert false;
    } else if d <= -1 {
      assert false;
    }
  }

  /** Adding one to a number that is not negative moves its remainder one step round. */
  lemma ModSucc(x: int, n: int)
    requires x >= 0 && n > 0
    ensures (x + 1) % n == if x % n == n - 1 then 0 else x % n + 1
  {
    var q, r := x / n, x % n;
    if r == n - 1 {
      ModUnique(x + 1, n, q + 1, 0);
    } else {
      ModUnique(x + 1, n, q, r + 1);
    }
  }

  /** The cursor after `k` ticks is the start shifted by `k`, modulo the slide count. */
  lemma {:induction false} AdvanceClosedForm(c: int, n: int, k: nat)
    requires 0 <= c < n
    ensures Advance(c, n, k) == (c + k) % n
  {
    if k > 0 {
      AdvanceClosedForm(c, n, k - 1);
      ModSucc(c + k - 1, n);
    }
  }

  /** Before the last slide is passed, advancing `k` times adds `k` to the cursor. */
  lemma {:induction false} AdvanceNoWrap(c: int, n: int, k: nat)
    requires 0 <= c && c + k < n
    ensures Advance(c, n, k) == c + k
  {
    if k > 0 {
      AdvanceNoWrap(c, n, k - 1);
    }
  }

  /** Advancing `j` times and then `k` times is advancing `j + k` times. */
  lemma {:induction false} AdvanceCompose(c: int, n: int, j: nat, k: nat)
    requires 0 <= c < n
    ensures Advance(Advance(c, n, j), n, k) == Advance(c, n, j + k)
  {
    if k > 0 {
      AdvanceCompose(c, n, j, k - 1);
    }
  }

  /** `n` successive calls of `nextSlide` bring the cursor back to where it started. */
  lemma AdvanceFullCycle(c: int, n: int)
    requires 0 <= c < n
    ensures Advance(c, n, n) == c
  {
    AdvanceNoWrap(c, n, n - 1 - c);
    assert Advance(c, n, n - c) == 0;
    AdvanceNoWrap(0, n, c);
    AdvanceCompose(c, n, n - c, c);
  }

  /**
   * The track offset `-(currentSlide * 100) / totalSlides` percent written by
   * `goToSlide`, kept as an exact real rather than a floating-point number.
   */
  function OffsetOf(c: int, n: int): (o: real)
    requires 0 <= c < n
    ensures o * n as real == -(c * 100) as real
    ensures -100.0 < o <= 0.0
  {
    -(c * 100) as real / n as real
  }

  /** The first slide is shown with the track untranslated. */
  lemma OffsetOfFirst(n: int)
    requires n > 0
    ensures OffsetOf(0, n) == 0.0
  {
  }

  /** A later slide moves the track strictly further to the left. */
  lemma OffsetDecreasing(c1: int, c2: int, n: int)
    requires 0 <= c1 < c2 < n
    ensures OffsetOf(c2, n) < OffsetOf(c1, n)
  {
    var gap := OffsetOf(c1, n) - OffsetOf(c2, n);
    assert gap * n as real == ((c2 - c1) * 100) as real > 0.0;
  }

  /** The three attributes of one indicator that `goToSlide` sets. */
  datatype Indicator = Indicator(active: bool, ariaSelected: bool, tabindex: int)

  /** The state `goToSlide(i)` writes into the indicator at index `k`. */
  function Marked(k: int, i: int): Indicator
  {
    if k == i then Indicator(true, true, 0) else Indicator(false, false, -1)
  }

  /**
   * An indicator whose attributes agree with each other: selected for assistive
   * technology exactly when it is shown active, and in the tab order exactly then.
   */
  predicate Coherent(ind: Indicator)
  {
    ind.ariaSelected == ind.active && ind.tabindex == (if ind.active then 0 else -1)
  }

  /** All `m` indicators after `goToSlide(i)`. */
  function Rendered(m: nat, i: int): (s: seq<Indicator>)
    ensures |s| == m
    ensures forall k :: 0 <= k < m ==> Coherent(s[k]) && (s[k].active <==> k == i)
  {
    seq(m, k => Marked(k, i))
  }

  /** The number of indicators shown active. */
  function CountActive(s: seq<Indicator>): nat
  {
    if s == [] then 0 else CountActive(s[..|s| - 1]) + (if s[|s| - 1].active then 1 else 0)
  }

  /**
   * After `goToSlide(i)` exactly one indicator is active when `i` names one of
   * them, and none otherwise (the slide count may exceed the indicator count).
   */
  lemma {:induction false} RenderedActiveCount(m: nat, i: int)
    ensures CountActive(Rendered(m, i)) == if 0 <= i < m then 1 else 0
  {
    if m > 0 {
      assert Rendered(m, i)[..m - 1] == Rendered(m - 1, i);
      RenderedActiveCount(m - 1, i);
    }
  }

  /** No two indicators are active at once after `goToSlide`. */
  lemma RenderedExclusive(m: nat, i: int, j: int, k: int)
    requires 0 <= j < m && 0 <= k < m
    requires Rendered(m, i)[j].active && Rendered(m, i)[k].active
    ensures j == k == i
  {
  }
}
