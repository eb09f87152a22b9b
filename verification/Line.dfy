/** Straight lines on the pixel grid: the pixels of a segment in closed form, and what makes them the right ones. */
module Line {

  datatype Point = Point(x: int, y: int)

  datatype Segment = Segment(x0: int, y0: int, x1: int, y1: int)

  function Abs(a: int): nat { if a < 0 then -a else a }

  function Dx(l: Segment): nat { Abs(l.x1 - l.x0) }

  function Dy(l: Segment): nat { Abs(l.y1 - l.y0) }

  /** Length along the longer axis. */
  function Major(l: Segment): nat { if Dx(l) >= Dy(l) then Dx(l) else Dy(l) }

  function Minor(l: Segment): nat { if Dx(l) >= Dy(l) then Dy(l) else Dx(l) }

  /** `n * mn / mx` rounded to the nearest integer, halves down. */
  function Nearest(n: nat, mn: nat, mx: nat): (j: nat)
  {
    if mx == 0 then 0 else (2 * (n * mn) + mx - 1) / (2 * mx)
  }

  /** Steps along the x axis after `n` steps. */
  function StepsX(l: Segment, n: nat): nat { if Dx(l) >= Dy(l) then n else Nearest(n, Dx(l), Dy(l)) }

  function StepsY(l: Segment, n: nat): nat { if Dx(l) >= Dy(l) then Nearest(n, Dy(l), Dx(l)) else n }

  function Toward(a: int, b: int, n: nat): int { if b > a then a + n else a - n }

  function Pixel(l: Segment, n: nat): Point
  {
    Point(Toward(l.x0, l.x1, StepsX(l, n)), Toward(l.y0, l.y1, StepsY(l, n)))
  }

  /** The pixels of a segment, from its first endpoint to its second. */
  function Pixels(l: Segment): (s: seq<Point>)
    ensures |s| == Major(l) + 1
  {
    seq(Major(l) + 1, n requires 0 <= n => Pixel(l, n))
  }

  // ---------- rounding ----------

  /** `j` is within half a pixel of `n * mn / mx`, and not at the upper half. */
  predicate Near(n: nat, j: int, mn: nat, mx: nat)
  {
    2 * (j * mx) - mx < 2 * (n * mn) <= 2 * (j * mx) + mx
  }

  lemma NearestIsNear(n: nat, mn: nat, mx: nat)
    requires mx > 0
    ensures Near(n, Nearest(n, mn, mx), mn, mx)
  {
    var a := 2 * (n * mn) + mx - 1;
    var j := Nearest(n, mn, mx);
    assert a == j * (2 * mx) + a % (2 * mx);
    assert j * (2 * mx) == 2 * (j * mx);
  }

  lemma NearUnique(n: nat, j: int, k: int, mn: nat, mx: nat)
    requires Near(n, j, mn, mx) && Near(n, k, mn, mx)
    ensures j == k
  {
    Spread(j, k, mx);
    Spread(k, j, mx);
  }

  lemma Spread1(d: nat, m: nat)
    requires d >= 1
    ensures d * m >= m
  {
    assert d * m == (d - 1) * m + m;
  }

  lemma Spread(j: int, k: int, m: nat)
    ensures j < k ==> j * m + m <= k * m
  {
    if j < k {
      Spread1(k - j, m);
      assert k * m == j * m + (k - j) * m;
    }
  }

  /** No other integer is closer to the ideal line. */
  lemma NearestIsBest(n: nat, mn: nat, mx: nat, k: int)
    requires mx > 0
    ensures Abs(Nearest(n, mn, mx) * mx - n * mn) <= Abs(k * mx - n * mn)
  {
    NearestIsNear(n, mn, mx);
    Spread(Nearest(n, mn, mx), k, mx);
    Spread(k, Nearest(n, mn, mx), mx);
  }

  // ---------- what the pixels are ----------

  /** The first pixel is the first endpoint, the last pixel the second. */
  lemma PixelEnds(l: Segment)
    ensures Pixels(l)[0] == Point(l.x0, l.y0) && Pixels(l)[Major(l)] == Point(l.x1, l.y1)
  {
    hide Nearest;
    EndRounding(Minor(l), Major(l));
  }

  lemma EndRounding(mn: nat, mx: nat)
    requires mn <= mx
    ensures Nearest(0, mn, mx) == 0 && Nearest(mx, mn, mx) == mn
  {
    if mx > 0 {
      NearestIsNear(0, mn, mx);
      assert Near(0, 0, mn, mx);
      NearUnique(0, Nearest(0, mn, mx), 0, mn, mx);
      NearestIsNear(mx, mn, mx);
      assert mx * mn == mn * mx;
      NearUnique(mx, Nearest(mx, mn, mx), mn, mn, mx);
    }
  }

  /** The next rounding is the same or one more, and it is one more exactly when the midpoint is passed. */
  lemma NextNearest(n: nat, mn: nat, mx: nat)
    requires mn <= mx && mx > 0
    ensures Nearest(n + 1, mn, mx) ==
      Nearest(n, mn, mx) + if 2 * (Nearest(n, mn, mx) * mx) + mx < 2 * ((n + 1) * mn) then 1 else 0
  {
    var j := Nearest(n, mn, mx);
    NearestIsNear(n, mn, mx);
    NearestIsNear(n + 1, mn, mx);
    assert (n + 1) * mn == n * mn + mn;
    assert (j + 1) * mx == j * mx + mx;
    if 2 * (j * mx) + mx < 2 * ((n + 1) * mn) {
      assert Near(n + 1, j + 1, mn, mx);
      NearUnique(n + 1, Nearest(n + 1, mn, mx), j + 1, mn, mx);
    } else {
      assert Near(n + 1, j, mn, mx);
      NearUnique(n + 1, Nearest(n + 1, mn, mx), j, mn, mx);
    }
  }

  /** Each step moves one along the longer axis and at most one along the other. */
  lemma PixelSteps(l: Segment, n: nat)
    requires n < Major(l)
    ensures StepsX(l, n) <= StepsX(l, n + 1) <= StepsX(l, n) + 1 && StepsY(l, n) <= StepsY(l, n + 1) <= StepsY(l, n) + 1
    ensures Dx(l) >= Dy(l) ==> Abs(Pixel(l, n + 1).x - Pixel(l, n).x) == 1 && Abs(Pixel(l, n + 1).y - Pixel(l, n).y) <= 1
    ensures Dx(l) < Dy(l) ==> Abs(Pixel(l, n + 1).y - Pixel(l, n).y) == 1 && Abs(Pixel(l, n + 1).x - Pixel(l, n).x) <= 1
  {
    hide Nearest;
    NextNearest(n, Minor(l), Major(l));
  }

  /** Every pixel lies within half a pixel of the ideal line, and no pixel of its column (or row) lies nearer. */
  lemma HalfPixel(l: Segment, n: nat, k: int)
    requires n <= Major(l)
    ensures 2 * Abs(StepsY(l, n) * Dx(l) - StepsX(l, n) * Dy(l)) <= Major(l)
    ensures Dx(l) >= Dy(l) ==> Abs(StepsY(l, n) * Dx(l) - n * Dy(l)) <= Abs(k * Dx(l) - n * Dy(l))
    ensures Dx(l) < Dy(l) ==> Abs(StepsX(l, n) * Dy(l) - n * Dx(l)) <= Abs(k * Dy(l) - n * Dx(l))
  {
    hide Nearest;
    if Major(l) > 0 {
      NearestIsNear(n, Minor(l), Major(l));
      NearestIsBest(n, Minor(l), Major(l), k);
    }
  }

  /** A line never visits a pixel twice. */
  lemma PixelsDistinct(l: Segment, m: nat, n: nat)
    requires m < n <= Major(l)
    ensures Pixels(l)[m] != Pixels(l)[n]
  {
  }

  // ---------- drawing the other way ----------

  function Reverse(l: Segment): Segment { Segment(l.x1, l.y1, l.x0, l.y0) }

  /** After `n` steps the ideal line passes exactly between two pixels. */
  predicate Tie(l: Segment, n: nat)
  {
    Major(l) > 0 && 2 * (n * Minor(l)) % (2 * Major(l)) == Major(l)
  }

  lemma TieIs(l: Segment, n: nat, j: int)
    requires Major(l) > 0 && Near(n, j, Minor(l), Major(l))
    ensures Tie(l, n) <==> 2 * (n * Minor(l)) == 2 * (j * Major(l)) + Major(l)
  {
    var mx, a := Major(l), 2 * (n * Minor(l));
    var q, r := a / (2 * mx), a % (2 * mx);
    assert a == 2 * (q * mx) + r;
    Spread(q, j, mx);
    Spread(j, q, mx);
    if a == 2 * (j * mx) + mx {
      assert q == j;
    }
    if r == mx {
      assert Near(n, q, Minor(l), mx);
      NearUnique(n, q, j, Minor(l), mx);
    }
  }

  /** Counted from the far end, rounding goes the other way on ties. */
  lemma FarEnd(n: nat, mn: nat, mx: nat)
    requires n <= mx && mx > 0
    ensures var k, j := mn - Nearest(mx - n, mn, mx), Nearest(n, mn, mx);
      k == if 2 * (n * mn) == 2 * (j * mx) + mx then j + 1 else j
  {
    hide Nearest;
    var k, j := Nearest(mx - n, mn, mx), Nearest(n, mn, mx);
    NearestIsNear(n, mn, mx);
    NearestIsNear(mx - n, mn, mx);
    assert (mx - n) * mn == mn * mx - n * mn;
    assert (mn - k) * mx == mn * mx - k * mx;
    assert (mn - 1 - k) * mx == mn * mx - k * mx - mx;
    if 2 * (n * mn) == 2 * ((mn - k) * mx) - mx {
      NearUnique(n, j, mn - k - 1, mn, mx);
    } else {
      NearUnique(n, j, mn - k, mn, mx);
    }
  }

  /** Drawn from the other endpoint, a line has the same pixel at a step exactly when that step is no tie. */
  lemma ReversedPixel(l: Segment, n: nat)
    requires n <= Major(l)
    ensures Pixel(Reverse(l), Major(l) - n) == Pixel(l, n) <==> !Tie(l, n)
  {
    hide Nearest, Tie;
    if Major(l) > 0 {
      NearestIsNear(n, Minor(l), Major(l));
      TieIs(l, n, Nearest(n, Minor(l), Major(l)));
      FarEnd(n, Minor(l), Major(l));
      if Minor(l) == 0 {
        FlatRounding(n, Major(l));
        FlatRounding(Major(l) - n, Major(l));
      }
    } else {
      NoTie(l, n);
    }
  }

  lemma NoTie(l: Segment, n: nat)
    requires Major(l) == 0
    ensures !Tie(l, n)
  {
  }

  lemma FlatRounding(n: nat, mx: nat)
    requires mx > 0
    ensures Nearest(n, 0, mx) == 0
  {
    assert Near(n, 0, 0, mx);
    NearestIsNear(n, 0, mx);
    NearUnique(n, Nearest(n, 0, mx), 0, 0, mx);
  }

  /** A line and its reverse cover the same pixels if and only if no step of it is a tie. */
  lemma ReverseSame(l: Segment)
    ensures (forall n :: 0 <= n <= Major(l) ==> Pixels(Reverse(l))[Major(l) - n] == Pixels(l)[n])
            <==> (forall n :: 0 <= n <= Major(l) ==> !Tie(l, n))
  {
    hide Pixel, Tie;
    assert Major(Reverse(l)) == Major(l);
    forall n: nat | n <= Major(l) ensures Pixels(Reverse(l))[Major(l) - n] == Pixels(l)[n] <==> !Tie(l, n) {
      ReversedPixel(l, n);
    }
  }

  /** The smallest line whose two drawings differ. */
  lemma TwoByOne()
    ensures Pixels(Segment(0, 0, 2, 1))[1] == Point(1, 0) && Pixels(Segment(2, 1, 0, 0))[1] == Point(1, 1)
  {
    var l := Segment(0, 0, 2, 1);
    assert Nearest(1, 1, 2) == 0;
    assert Pixels(l)[1] == Pixel(l, 1);
    assert Pixels(Reverse(l))[1] == Pixel(Reverse(l), 1);
  }

  // ---------- the error term ----------

  /** The loop's error term at a grid step. */
  function ErrAt(l: Segment, i: int, j: int): int { (j + 1) * Dx(l) - (i + 1) * Dy(l) }

  /** On the line the error term, doubled, stays within three times the line's length: no 32-bit overflow below a third. */
  lemma ErrBound(l: Segment, n: nat)
    requires n <= Major(l)
    ensures 2 * Abs(ErrAt(l, StepsX(l, n), StepsY(l, n))) <= 3 * Major(l)
  {
    hide Nearest, StepsX, StepsY, Dx, Dy;
    HalfPixel(l, n, 0);
    Expand(l, StepsX(l, n), StepsY(l, n));
  }

  lemma Expand(l: Segment, i: int, j: int)
    ensures ErrAt(l, i, j) == j * Dx(l) - i * Dy(l) + Dx(l) - Dy(l)
  {
  }

  lemma DiagonalRounding(n: nat, mx: nat)
    requires mx > 0
    ensures Nearest(n, mx, mx) == n
  {
    NearestIsNear(n, mx, mx);
    assert Near(n, n, mx, mx);
    NearUnique(n, Nearest(n, mx, mx), n, mx, mx);
  }

  /** The rounding facts of one step, over the products `a` and `b`. */
  lemma RoundingStep(n: nat, mn: nat, mx: nat, a: int, b: int)
    requires mn <= mx && mx > 0 && a == Nearest(n, mn, mx) * mx && b == n * mn
    ensures 2 * a - mx < 2 * b <= 2 * a + mx && (mn == mx ==> a == b)
    ensures Nearest(n + 1, mn, mx) == Nearest(n, mn, mx) + if 2 * a + mx < 2 * b + 2 * mn then 1 else 0
  {
    hide Nearest;
    NearestIsNear(n, mn, mx);
    NextNearest(n, mn, mx);
    assert (n + 1) * mn == b + mn;
    if mn == mx {
      DiagonalRounding(n, mx);
    }
  }

  /** The two tests of the loop say which axes the next pixel moves along. */
  lemma TestsAreSteps(l: Segment, n: nat)
    requires n < Major(l)
    ensures var i, j, e := StepsX(l, n), StepsY(l, n), 2 * ErrAt(l, StepsX(l, n), StepsY(l, n));
      && StepsX(l, n + 1) == i + (if e + Dy(l) > 0 then 1 else 0)
      && StepsY(l, n + 1) == j + (if e < Dx(l) then 1 else 0)
  {
    hide Nearest, ErrAt, Dx, Dy;
    var a, b := Nearest(n, Minor(l), Major(l)) * Major(l), n * Minor(l);
    RoundingStep(n, Minor(l), Major(l), a, b);
    Expand(l, StepsX(l, n), StepsY(l, n));
  }

  /** A pixel is the second endpoint only after all steps. */
  lemma AtEnd(l: Segment, n: nat)
    requires n <= Major(l)
    ensures Pixel(l, n) == Point(l.x1, l.y1) <==> n == Major(l)
  {
    PixelEnds(l);
    assert Pixels(l)[n] == Pixel(l, n);
    if n < Major(l) {
      PixelsDistinct(l, n, Major(l));
    }
  }
}
