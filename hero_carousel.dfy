/** The hero carousel store of src/store/heroCarouselStore.ts: the active
    slide index and the step to the next slide, modulo the slide count
    with JavaScript's remainder. */
module HeroCarousel {
  import opened Wrappers

  function Abs(x: int): nat { if x < 0 then -x else x }

  /** JavaScript's `%` on integers: the remainder takes the sign of the
      dividend (Dafny's `%` is Euclidean and never negative). */
  function JsRem(a: int, b: int): (r: int)
    requires b != 0
    ensures Abs(r) < Abs(b)
    ensures a >= 0 ==> r >= 0
    ensures a <= 0 ==> r <= 0
  {
    if a >= 0 then a % Abs(b) else -((-a) % Abs(b))
  }

  /** `(activeIndex + 1) % total`: NaN for a zero count or an index that is
      not finite. */
  function NextIndex(index: Num, total: int): Num {
    if total == 0 || index.NonFinite? then NonFinite else Finite(JsRem(index.n + 1, total))
  }

  /** `k` successive `nextSlide(total)` calls. */
  function Advance(index: Num, total: int, k: nat): Num
    decreases k
  {
    if k == 0 then index else Advance(NextIndex(index, total), total, k - 1)
  }

  // ---------------------------------------------------------------------
  // Properties

  /** With slides and an index that is not negative the next index is a
      slide: it lies in `[0, total)`, one past the index or back at 0. */
  lemma NextIndexRange(i: int, total: int)
    requires total > 0 && i >= 0
    ensures NextIndex(Finite(i), total).Finite?
    ensures var n := NextIndex(Finite(i), total).n;
      0 <= n < total && (n == i + 1 || (n == 0 && i + 1 == total) || i >= total)
    ensures i < total ==> NextIndex(Finite(i), total) == Finite(if i + 1 == total then 0 else i + 1)
  {
    var n := JsRem(i + 1, total);
    assert n == (i + 1) % total;
    if i < total {
      if i + 1 == total {
        ModSelf(total);
      } else {
        ModSmall(i + 1, total);
      }
    }
  }

  /** A count leaves no remainder when divided by itself. */
  lemma ModSelf(m: int)
    requires m > 0
    ensures m % m == 0
  {
    assert m == 1 * m + 0;
  }

  /** A number below the divisor is its own remainder. */
  lemma ModSmall(x: int, m: int)
    requires 0 <= x < m
    ensures x % m == x
  {
    assert x == 0 * m + x;
  }

  /** Without slides, or from an index that is not finite, the next index
      is NaN. */
  lemma NextIndexNaN(index: Num, total: int)
    requires total == 0 || index.NonFinite?
    ensures NextIndex(index, total) == NonFinite
  {
  }

  /** From an index below -1 the step goes to the negated remainder of
      `-(i + 1)`: the result keeps the dividend's sign, so it is never a
      slide past the first, and it lies above `-|total|`. */
  lemma NegativeIndexStep(i: int, total: int)
    requires total != 0 && i < -1
    ensures NextIndex(Finite(i), total) == Finite(-((-i - 1) % Abs(total)))
    ensures -(Abs(total) as int) < NextIndex(Finite(i), total).n <= 0
  {
  }

  /** Before the last slide each step moves one slide on. */
  lemma {:induction false} AdvanceWithin(i: int, total: int, k: nat)
    requires 0 <= i && i + k < total
    ensures Advance(Finite(i), total, k) == Finite(i + k)
    decreases k
  {
    if k > 0 {
      NextIndexRange(i, total);
      AdvanceWithin(i + 1, total, k - 1);
    }
  }

  /** From slide `i`, `total - i` steps come back to the first slide. */
  lemma {:induction false} AdvanceWraps(i: int, total: int)
    requires 0 <= i < total
    ensures Advance(Finite(i), total, (total - i) as nat) == Finite(0)
    decreases total - i
  {
    NextIndexRange(i, total);
    if i + 1 < total {
      AdvanceWraps(i + 1, total);
    }
  }

  /** From the first slide, `k < total` steps reach slide `k`, and `total`
      steps return to the first slide. */
  lemma CycleReturns(total: int)
    requires total > 0
    ensures Advance(Finite(0), total, total as nat) == Finite(0)
    ensures forall k: nat :: k < total ==> Advance(Finite(0), total, k) == Finite(k)
  {
    AdvanceWraps(0, total);
    forall k: nat | k < total ensures Advance(Finite(0), total, k) == Finite(k) {
      AdvanceWithin(0, total, k);
    }
  }

  /** The zustand store. */
  class CarouselStore {
    var activeIndex: Num

    constructor()
      ensures activeIndex == Finite(0)
    {
      activeIndex := Finite(0);
    }

    /** `setActiveIndex` */
    method SetActiveIndex(index: Num)
      modifies this
      ensures activeIndex == index
    {
      activeIndex := index;
    }

    /** `nextSlide`: stores and returns the next index. */
    method NextSlide(total: int) returns (next: Num)
      modifies this
      ensures next == NextIndex(old(activeIndex), total) && activeIndex == next
    {
      if total == 0 || activeIndex.NonFinite? {
        next := NonFinite;
      } else {
        next := Finite(JsRem(activeIndex.n + 1, total));
      }
      activeIndex := next;
    }
  }
}
