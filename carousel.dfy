/** The testimonial carousel: a window of `visibleCount` cards over `n` testimonials,
    whose first position wraps around at both ends. JavaScript arithmetic is written
    out: `%` truncates toward zero and a remainder by zero is NaN. */
module Carousel {
  import opened Wrappers

  /** A JavaScript number that is an integer or NaN. */
  datatype JsNumber = Num(value: int) | NaN

  /** JavaScript's `a % b` on integers: the sign follows `a`; NaN when `b` is 0. */
  function JsRem(a: int, b: int): (r: JsNumber)
    ensures b == 0 <==> r == NaN
    ensures b != 0 && 0 <= a ==> r == Num(a % (if b < 0 then -b else b))
  {
    if b == 0 then NaN
    else
      var m := if b < 0 then -b else b;
      if a >= 0 then Num(a % m) else Num(-((-a) % m))
  }

  /** `nextSlide`: `(i + 1) % (n - v + 1)`. */
  function NextIndex(i: JsNumber, n: int, v: int): JsNumber {
    match i
    case NaN => NaN
    case Num(x) => JsRem(x + 1, n - v + 1)
  }

  /** `prevSlide`: `i === 0 ? n - v : i - 1` (NaN is not 0 and stays NaN). */
  function PrevIndex(i: JsNumber, n: int, v: int): JsNumber {
    match i
    case NaN => NaN
    case Num(x) => if x == 0 then Num(n - v) else Num(x - 1)
  }

  /** The window positions `0..n - v`. */
  predicate InRange(i: JsNumber, n: int, v: int) {
    i.Num? && 0 <= i.value <= n - v
  }

  /** With at least `v` testimonials both steps keep the position in range. */
  lemma StepsStayInRange(i: JsNumber, n: int, v: int)
    requires n >= v && InRange(i, n, v)
    ensures InRange(NextIndex(i, n, v), n, v)
    ensures InRange(PrevIndex(i, n, v), n, v)
  {
  }

  /** Next from the last position wraps to 0 and previous from 0 wraps to the last;
      elsewhere they move by one. */
  lemma StepsWrap(x: int, n: int, v: int)
    requires n >= v && 0 <= x <= n - v
    ensures NextIndex(Num(x), n, v) == if x == n - v then Num(0) else Num(x + 1)
    ensures PrevIndex(Num(x), n, v) == if x == 0 then Num(n - v) else Num(x - 1)
  {
  }

  /** On the valid range the two steps undo each other. */
  lemma {:induction false} StepsAreInverse(i: JsNumber, n: int, v: int)
    requires n >= v && InRange(i, n, v)
    ensures PrevIndex(NextIndex(i, n, v), n, v) == i
    ensures NextIndex(PrevIndex(i, n, v), n, v) == i
  {
    StepsWrap(i.value, n, v);
    StepsWrap(NextIndex(i, n, v).value, n, v);
    StepsWrap(PrevIndex(i, n, v).value, n, v);
  }

  /** With fewer than `v` testimonials the arithmetic breaks: previous from 0 gives a
      negative position, and with exactly `v - 1` next gives NaN. */
  lemma TooFewTestimonials(x: int, n: int, v: int)
    requires 0 <= n < v
    ensures PrevIndex(Num(0), n, v).value < 0
    ensures n == v - 1 ==> NextIndex(Num(x), n, v) == NaN
  {
  }

  datatype Testimonial = Testimonial(id: int, name: string, role: string, content: string, rating: int)

  /** The component's state. The testimonials arrive from a fetch, modelled by
      `Loaded` and `Failed`. */
  class TestimonialCarousel {
    var testimonials: seq<Testimonial>
    var currentIndex: JsNumber
    var visibleCount: int
    var loading: bool
    var error: Option<string>

    /** Starts at position 0 with three cards visible, loading. */
    constructor ()
      ensures testimonials == [] && currentIndex == Num(0) && visibleCount == 3
      ensures loading && error == None
    {
      testimonials := [];
      currentIndex := Num(0);
      visibleCount := 3;
      loading := true;
      error := None;
    }

    method Loaded(data: seq<Testimonial>)
      modifies this
      ensures testimonials == data && !loading
      ensures currentIndex == old(currentIndex) && visibleCount == old(visibleCount) && error == old(error)
    {
      testimonials := data;
      loading := false;
    }

    method Failed()
      modifies this
      ensures error == Some("Failed to fetch testimonials") && !loading
      ensures testimonials == old(testimonials) && currentIndex == old(currentIndex)
      ensures visibleCount == old(visibleCount)
    {
      error := Some("Failed to fetch testimonials");
      loading := false;
    }

    /** `nextSlide`, which keeps the position in range when there are enough testimonials. */
    method NextSlide()
      modifies this`currentIndex
      ensures currentIndex == NextIndex(old(currentIndex), |testimonials|, visibleCount)
      ensures |testimonials| >= visibleCount && InRange(old(currentIndex), |testimonials|, visibleCount)
        ==> InRange(currentIndex, |testimonials|, visibleCount)
    {
      currentIndex := NextIndex(currentIndex, |testimonials|, visibleCount);
      if |testimonials| >= visibleCount && InRange(old(currentIndex), |testimonials|, visibleCount) {
        StepsStayInRange(old(currentIndex), |testimonials|, visibleCount);
      }
    }

    /** `prevSlide`, which keeps the position in range when there are enough testimonials. */
    method PrevSlide()
      modifies this`currentIndex
      ensures currentIndex == PrevIndex(old(currentIndex), |testimonials|, visibleCount)
      ensures |testimonials| >= visibleCount && InRange(old(currentIndex), |testimonials|, visibleCount)
        ==> InRange(currentIndex, |testimonials|, visibleCount)
    {
      currentIndex := PrevIndex(currentIndex, |testimonials|, visibleCount);
      if |testimonials| >= visibleCount && InRange(old(currentIndex), |testimonials|, visibleCount) {
        StepsStayInRange(old(currentIndex), |testimonials|, visibleCount);
      }
    }
  }
}
