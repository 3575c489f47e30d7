/** The offers carousel on the storefront: one index, `currentSlide`, moved
    by the arrows, by a timer tick and by the dots. With no offers the
    carousel renders nothing and starts no timer, so every move below is only
    made with at least one offer. */
module Carousel {

  /** JavaScript's `%`: the remainder takes the sign of the dividend. */
  function JsRem(a: int, n: int): (r: int)
    requires n > 0
    ensures a >= 0 ==> r == a % n
    ensures a < 0 ==> -n < r <= 0
  {
    if a >= 0 then a % n else -((-a) % n)
  }

  /** `(prev + 1) % offers.length`. */
  function Next(i: int, n: int): int
    requires n > 0
  {
    JsRem(i + 1, n)
  }

  /** `(prev - 1 + offers.length) % offers.length`. */
  function Prev(i: int, n: int): int
    requires n > 0
  {
    JsRem(i - 1 + n, n)
  }

  /** From any index that is not negative, both moves land on a slide. */
  lemma MovesStayInRange(i: int, n: int)
    requires n > 0 && i >= 0
    ensures 0 <= Next(i, n) < n
    ensures 0 <= Prev(i, n) < n
  {
  }

  /** The two remainders the moves need. */
  lemma Wrap(a: int, n: int)
    requires 0 <= a <= 2 * n - 1 && n > 0
    ensures a % n == if a < n then a else a - n
  {
    if a >= n {
      assert (a - n) % n == a - n;
    }
  }

  /** Back then forward, or forward then back, returns to the same slide. */
  lemma NextPrevInverse(i: int, n: int)
    requires 0 <= i < n
    ensures Prev(Next(i, n), n) == i
    ensures Next(Prev(i, n), n) == i
  {
    Wrap(i + 1, n);
    var j := Next(i, n);
    Wrap(j - 1 + n, n);
    Wrap(i - 1 + n, n);
    var h := Prev(i, n);
    Wrap(h + 1, n);
  }

  /** The slide after `k` ticks. */
  function AfterTicks(i: int, n: int, k: nat): int
    requires n > 0
  {
    if k == 0 then i else Next(AfterTicks(i, n, k - 1), n)
  }

  /** Within one round, `k` ticks advance the slide by `k` places, wrapping
      past the last offer to the first. */
  lemma {:induction false} AfterTicksAdvances(i: int, n: int, k: nat)
    requires 0 <= i < n && k <= n
    ensures AfterTicks(i, n, k) == if i + k < n then i + k else i + k - n
  {
    if k > 0 {
      AfterTicksAdvances(i, n, k - 1);
      Wrap(AfterTicks(i, n, k - 1) + 1, n);
    }
  }

  /** A full round of `n` ticks comes back to the starting slide. */
  lemma FullRoundReturns(i: int, n: int)
    requires 0 <= i < n
    ensures AfterTicks(i, n, n) == i
  {
    AfterTicksAdvances(i, n, n);
  }

  class OffersCarousel {
    /** `offers.length`, given by the page. */
    var count: int
    var currentSlide: int

    /** The index is never negative. */
    predicate Valid()
      reads this
    {
      count >= 0 && currentSlide >= 0
    }

    /** The index names an offer on screen. */
    predicate OnSlide()
      reads this
    {
      0 <= currentSlide < count
    }

    constructor (offers: nat)
      ensures count == offers && currentSlide == 0
      ensures Valid()
    {
      count := offers;
      currentSlide := 0;
    }

    /** A new offers list: the index is kept as it is. */
    method SetCount(offers: nat)
      requires Valid()
      modifies this
      ensures count == offers && currentSlide == old(currentSlide)
      ensures Valid()
    {
      count := offers;
    }

    method NextSlide()
      requires Valid() && count > 0
      modifies this
      ensures count == old(count)
      ensures currentSlide == Next(old(currentSlide), count)
      ensures Valid() && OnSlide()
    {
      MovesStayInRange(currentSlide, count);
      currentSlide := (currentSlide + 1) % count;
    }

    method PrevSlide()
      requires Valid() && count > 0
      modifies this
      ensures count == old(count)
      ensures currentSlide == Prev(old(currentSlide), count)
      ensures Valid() && OnSlide()
    {
      MovesStayInRange(currentSlide, count);
      currentSlide := (currentSlide - 1 + count) % count;
    }

    /** The timer, started only when there is at least one offer. */
    method Tick()
      requires Valid() && count > 0
      modifies this
      ensures count == old(count)
      ensures currentSlide == Next(old(currentSlide), count)
      ensures Valid() && OnSlide()
    {
      NextSlide();
    }

    /** Dot `index` is drawn for each offer. */
    method SelectDot(index: int)
      requires Valid() && 0 <= index < count
      modifies this
      ensures currentSlide == index && count == old(count)
      ensures Valid() && OnSlide()
    {
      currentSlide := index;
    }
  }
}
