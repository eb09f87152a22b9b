/** The framebuffer and the line-drawing loop over it. */
module Screen {
  import opened Bytes
  import opened Line

  /** 32 bits, blue in the lowest byte. */
  type Color = c: int | 0 <= c < 0x1_0000_0000

  /** Visible area and bytes per row of a framebuffer with 32 (`deep`) or 24 bits per pixel. */
  datatype Geometry = Geometry(width: nat, height: nat, pitch: nat, deep: bool)
  {
    function PixelSize(): (n: nat)
      ensures n == 3 || n == 4
    {
      if deep then 4 else 3
    }

    /** Bytes from one row to the next; at 32 bits per pixel rows are counted in whole pixels. */
    function Stride(): (n: nat)
      ensures n <= pitch
    {
      if deep then 4 * (pitch / 4) else pitch
    }

    ghost predicate Valid() { width * PixelSize() <= Stride() }

    predicate Visible(p: Point) { 0 <= p.x < width && 0 <= p.y < height }

    function Size(): nat { height * pitch }

    function Offset(p: Point): int { p.y * Stride() + p.x * PixelSize() }

    /** A visible pixel's bytes lie inside its row. */
    lemma InRow(p: Point)
      requires Valid() && Visible(p)
      ensures p.y * Stride() <= Offset(p) && Offset(p) + PixelSize() <= p.y * Stride() + Stride()
    {
      assert p.x * PixelSize() + PixelSize() <= width * PixelSize() by { Spread(p.x, width, PixelSize()); }
    }

    /** And inside the framebuffer. */
    lemma Fits(p: Point)
      requires Valid() && Visible(p)
      ensures 0 <= Offset(p) && Offset(p) + PixelSize() <= Size()
    {
      InRow(p);
      Spread(p.y, height, Stride());
      Grows(height, Stride(), pitch);
      Grows(p.y, 0, Stride());
    }

    /** At 32 bits per pixel an offset is four times a word index. */
    lemma WordOffset(p: Point)
      requires deep
      ensures Offset(p) == 4 * (p.y * (pitch / 4) + p.x)
    {
    }

    /** Different visible pixels share no byte. */
    lemma Apart(p: Point, q: Point)
      requires Valid() && Visible(p) && Visible(q) && p != q
      ensures Offset(p) + PixelSize() <= Offset(q) || Offset(q) + PixelSize() <= Offset(p)
    {
      InRow(p);
      InRow(q);
      Spread(p.y, q.y, Stride());
      Spread(q.y, p.y, Stride());
      Spread(p.x, q.x, PixelSize());
      Spread(q.x, p.x, PixelSize());
    }
  }

  lemma Grows(h: nat, a: nat, b: nat)
    requires a <= b
    ensures h * a <= h * b
  {
    assert h * b == h * a + h * (b - a);
  }

  // ---------- colours in bytes ----------

  /** The colour's bytes, lowest first, each shift by eight a division by 256. */
  function ColorBytes(c: Color, deep: bool): (b: seq<byte>)
    ensures |b| == if deep then 4 else 3
  {
    var d := c / 256;
    var e := d / 256;
    [c % 256, d % 256, e % 256] + if deep then [e / 256] else []
  }

  function Mix(b: int, g: int, r: int, a: int): int { b + 256 * (g + 256 * (r + 256 * a)) }

  /** The colour read back from a pixel's bytes. */
  function ColorOf(b: seq<byte>): (c: Color)
    requires |b| == 3 || |b| == 4
  {
    Mix(b[0], b[1], b[2], if |b| == 4 then b[3] else 0)
  }

  /** What a screen can show of a colour: at 24 bits per pixel the top byte is lost. */
  function Shown(c: Color, deep: bool): Color { if deep then c else c % 0x100_0000 }

  lemma ColorRoundTrip(c: Color, deep: bool)
    ensures ColorOf(ColorBytes(c, deep)) == Shown(c, deep)
  {
    hide Mix;
    var d := c / 256;
    var e := d / 256;
    var top := e / 256;
    var low := Mix(c % 256, d % 256, e % 256, 0);
    MixBound(c % 256, d % 256, e % 256);
    SplitColor(c, d, e, top);
    LowPart(c, top, low);
  }

  lemma SplitColor(c: int, d: int, e: int, top: int)
    requires 0 <= c && d == c / 256 && e == d / 256 && top == e / 256
    ensures c == Mix(c % 256, d % 256, e % 256, top) && c == 0x100_0000 * top + Mix(c % 256, d % 256, e % 256, 0)
  {
    assert c == 256 * d + c % 256;
    assert d == 256 * e + d % 256;
    assert e == 256 * top + e % 256;
  }

  lemma MixBound(b: byte, g: byte, r: byte)
    ensures 0 <= Mix(b, g, r, 0) < 0x100_0000
  {
  }

  lemma LowPart(c: int, top: int, low: int)
    requires c == 0x100_0000 * top + low && 0 <= low < 0x100_0000
    ensures c % 0x100_0000 == low
  {
  }

  // ---------- writes ----------

  /** A clipped write. */
  function Put(g: Geometry, fb: seq<byte>, p: Point, c: Color): (r: seq<byte>)
    requires g.Valid() && |fb| == g.Size()
    ensures |r| == |fb|
  {
    if g.Visible(p) then
      g.Fits(p);
      Splice(fb, g.Offset(p), ColorBytes(c, g.deep))
    else fb
  }

  /** The colour of a visible pixel. */
  function Seen(g: Geometry, fb: seq<byte>, p: Point): Color
    requires g.Valid() && |fb| == g.Size() && g.Visible(p)
  {
    g.Fits(p);
    ColorOf(fb[g.Offset(p)..g.Offset(p) + g.PixelSize()])
  }

  function Paint(g: Geometry, fb: seq<byte>, ps: seq<Point>, c: Color): (r: seq<byte>)
    requires g.Valid() && |fb| == g.Size()
    ensures |r| == |fb|
  {
    if ps == [] then fb else Put(g, Paint(g, fb, ps[..|ps| - 1], c), ps[|ps| - 1], c)
  }

  /** A write shows at its own pixel and at no other. */
  lemma PutSeen(g: Geometry, fb: seq<byte>, q: Point, c: Color, p: Point)
    requires g.Valid() && |fb| == g.Size() && g.Visible(p)
    ensures Seen(g, Put(g, fb, q, c), p) == if p == q then Shown(c, g.deep) else Seen(g, fb, p)
  {
    hide ColorBytes, ColorOf, Shown, Geometry.Offset;
    var r := Put(g, fb, q, c);
    var o, n := g.Offset(p), g.PixelSize();
    g.Fits(p);
    if p == q {
      ColorRoundTrip(c, g.deep);
      assert r[o..o + n] == ColorBytes(c, g.deep);
    } else {
      if g.Visible(q) {
        g.Apart(p, q);
      }
      assert r[o..o + n] == fb[o..o + n];
    }
  }

  /** The bytes of a write: blue, green, red and the top byte, from the pixel's place on; 24-bit pixels take three. */
  lemma PixelBytes(g: Geometry, fb: seq<byte>, p: Point, c: Color)
    requires g.Valid() && |fb| == g.Size() && g.Visible(p)
    ensures var o := if g.deep then 4 * (p.y * (g.pitch / 4) + p.x) else p.y * g.pitch + 3 * p.x;
      var n := if g.deep then 4 else 3;
      && 0 <= o && o + n <= |fb|
      && Put(g, fb, p, c) == fb[..o] + ColorBytes(c, g.deep) + fb[o + n..]
  {
    hide ColorBytes;
    g.Fits(p);
    if g.deep {
      g.WordOffset(p);
    }
  }

  lemma BluesFirst(c: Color, deep: bool)
    ensures var b := ColorBytes(c, deep);
      && b[0] == c % 0x100 && b[1] == c / 0x100 % 0x100 && b[2] == c / 0x1_0000 % 0x100
      && (deep ==> b[3] == c / 0x100_0000)
  {
    var d := c / 256;
    var e := d / 256;
    assert e == c / 0x1_0000;
    assert e / 256 == c / 0x100_0000;
  }

  /** After painting, a visible pixel shows the colour if it was painted, and its old colour otherwise. */
  lemma {:induction false} PaintedPixel(g: Geometry, fb: seq<byte>, ps: seq<Point>, c: Color, p: Point)
    requires g.Valid() && |fb| == g.Size() && g.Visible(p)
    ensures Seen(g, Paint(g, fb, ps, c), p) == if p in ps then Shown(c, g.deep) else Seen(g, fb, p)
    decreases |ps|
  {
    hide Seen, Put, Shown;
    if ps != [] {
      var init, q := ps[..|ps| - 1], ps[|ps| - 1];
      assert ps == init + [q];
      PaintedPixel(g, fb, init, c, p);
      PutSeen(g, Paint(g, fb, init, c), q, c, p);
    }
  }

  /** Byte `k` belongs to pixel `p`. */
  predicate Within(g: Geometry, p: Point, k: int)
  {
    g.Visible(p) && g.Offset(p) <= k < g.Offset(p) + g.PixelSize()
  }

  /** Bytes of no visible pixel, such as row padding, keep their value. */
  lemma {:induction false} PaintedRest(g: Geometry, fb: seq<byte>, ps: seq<Point>, c: Color, k: nat)
    requires g.Valid() && |fb| == g.Size() && k < |fb|
    requires forall p :: !Within(g, p, k)
    ensures Paint(g, fb, ps, c)[k] == fb[k]
    decreases |ps|
  {
    hide Geometry.Offset, ColorBytes;
    if ps != [] {
      var init, q := ps[..|ps| - 1], ps[|ps| - 1];
      PaintedRest(g, fb, init, c, k);
      assert !Within(g, q, k);
    }
  }

  class Display {
    const geometry: Geometry
    const fb: array<byte>
    var enabled: bool
    /** Every pixel asked for, visible or not, in order. */
    ghost var plotted: seq<Point>

    ghost predicate Valid()
    {
      geometry.Valid() && fb.Length == geometry.Size()
    }

    constructor (g: Geometry)
      requires g.Valid()
      ensures Valid() && geometry == g && enabled && plotted == [] && fresh(fb)
    {
      geometry := g;
      fb := new byte[g.Size()](_ => 0);
      enabled := true;
      plotted := [];
    }

    method PutPixel(x: int, y: int, c: Color)
      requires Valid()
      modifies this`plotted, fb
      ensures plotted == if enabled then old(plotted) + [Point(x, y)] else old(plotted)
      ensures fb[..] == if enabled then Put(geometry, old(fb[..]), Point(x, y), c) else old(fb[..])
    {
      if !enabled {
        return;
      }
      plotted := plotted + [Point(x, y)];
      if x < 0 || x >= geometry.width || y < 0 || y >= geometry.height {
        return;
      }
      geometry.Fits(Point(x, y));
      if geometry.deep {
        geometry.WordOffset(Point(x, y));
        StoreWord(y * (geometry.pitch / 4) + x, c);
      } else {
        var offset := y * geometry.pitch + x * 3;
        fb[offset] := c % 256;
        fb[offset + 1] := c / 256 % 256;
        fb[offset + 2] := c / 256 / 256 % 256;
      }
    }

    /** Stores a colour as the `k`-th 32-bit word of the framebuffer. */
    method StoreWord(k: nat, c: Color)
      requires 4 * k + 4 <= fb.Length
      modifies fb
      ensures fb[..] == Splice(old(fb[..]), 4 * k, ColorBytes(c, true))
    {
      fb[4 * k] := c % 256;
      fb[4 * k + 1] := c / 256 % 256;
      fb[4 * k + 2] := c / 256 / 256 % 256;
      fb[4 * k + 3] := c / 256 / 256 / 256;
    }

    method GetPixel(x: int, y: int) returns (c: Color)
      requires Valid()
      ensures c == if enabled && geometry.Visible(Point(x, y)) then Seen(geometry, fb[..], Point(x, y)) else 0
    {
      if !enabled || x < 0 || x >= geometry.width || y < 0 || y >= geometry.height {
        return 0;
      }
      geometry.Fits(Point(x, y));
      if geometry.deep {
        geometry.WordOffset(Point(x, y));
        c := LoadPixel(4 * (y * (geometry.pitch / 4) + x), 4);
      } else {
        c := LoadPixel(y * geometry.pitch + x * 3, 3);
      }
    }

    /** The colour held by the `n` bytes at `offset`. */
    method LoadPixel(offset: nat, n: nat) returns (c: Color)
      requires (n == 3 || n == 4) && offset + n <= fb.Length
      ensures c == ColorOf(fb[offset..offset + n])
    {
      var top := if n == 4 then fb[offset + 3] else 0;
      c := Mix(fb[offset], fb[offset + 1], fb[offset + 2], top);
    }

    /** Draws exactly the pixels of the segment, in order, for all endpoints. */
    method DrawLine(x0: int, y0: int, x1: int, y1: int, c: Color)
      requires Valid()
      modifies this`plotted, fb
      ensures !enabled ==> plotted == old(plotted) && fb[..] == old(fb[..])
      ensures enabled ==> plotted == old(plotted) + Pixels(Segment(x0, y0, x1, y1))
      ensures enabled ==> fb[..] == Paint(geometry, old(fb[..]), Pixels(Segment(x0, y0, x1, y1)), c)
    {
      hide Nearest, Put, Paint, Pixel, Pixels;
      if !enabled {
        return;
      }
      ghost var l := Segment(x0, y0, x1, y1);
      ghost var ps := Pixels(l);
      var dx, dy := x1 - x0, y1 - y0;
      var sx := if dx > 0 then 1 else -1;
      var sy := if dy > 0 then 1 else -1;
      if dx < 0 { dx := -dx; }
      if dy < 0 { dy := -dy; }
      var err := dx - dy;
      var x, y := x0, y0;
      ghost var n := 0;
      StartOf(l);
      PaintNone(geometry, fb[..], ps, c);
      while true
        invariant 0 <= n <= Major(l)
        invariant Point(x, y) == Pixel(l, n)
        invariant err == ErrAt(l, StepsX(l, n), StepsY(l, n))
        invariant plotted == old(plotted) + ps[..n]
        invariant fb[..] == Paint(geometry, old(fb[..]), ps[..n], c)
        decreases Major(l) - n
      {
        PutPixel(x, y, c);
        PaintMore(geometry, old(fb[..]), l, n, c);
        AtEnd(l, n);
        if x == x1 && y == y1 {
          assert ps[..n + 1] == ps;
          break;
        }
        LoopStep(l, n);
        var e2 := 2 * err;
        if e2 > -dy {
          err := err - dy;
          x := x + sx;
        }
        if e2 < dx {
          err := err + dx;
          y := y + sy;
        }
        n := n + 1;
      }
    }
  }

  lemma PaintNone(g: Geometry, fb: seq<byte>, ps: seq<Point>, c: Color)
    requires g.Valid() && |fb| == g.Size()
    ensures ps[..0] == [] && Paint(g, fb, ps[..0], c) == fb
  {
  }

  lemma PaintMore(g: Geometry, fb: seq<byte>, l: Segment, n: nat, c: Color)
    requires g.Valid() && |fb| == g.Size() && n <= Major(l)
    ensures Pixels(l)[..n + 1] == Pixels(l)[..n] + [Pixel(l, n)]
    ensures Paint(g, fb, Pixels(l)[..n + 1], c) == Put(g, Paint(g, fb, Pixels(l)[..n], c), Pixel(l, n), c)
  {
    hide Pixel, Put;
    var ps := Pixels(l)[..n + 1];
    assert ps[..|ps| - 1] == Pixels(l)[..n];
  }

  /** One turn of the loop moves to the next pixel and its error term. */
  lemma LoopStep(l: Segment, n: nat)
    requires n < Major(l)
    ensures var err := ErrAt(l, StepsX(l, n), StepsY(l, n));
      var right, down := 2 * err + Dy(l) > 0, 2 * err < Dx(l);
      && Pixel(l, n + 1) == Point(
           Pixel(l, n).x + (if !right then 0 else if l.x1 > l.x0 then 1 else -1),
           Pixel(l, n).y + (if !down then 0 else if l.y1 > l.y0 then 1 else -1))
      && ErrAt(l, StepsX(l, n + 1), StepsY(l, n + 1)) ==
         err - (if right then Dy(l) else 0) + (if down then Dx(l) else 0)
  {
    hide StepsX, StepsY, ErrAt, Dx, Dy;
    TestsAreSteps(l, n);
    MoveErr(l, StepsX(l, n), StepsY(l, n));
  }

  lemma StartOf(l: Segment)
    ensures Pixel(l, 0) == Point(l.x0, l.y0) && ErrAt(l, StepsX(l, 0), StepsY(l, 0)) == Dx(l) - Dy(l)
  {
    PixelEnds(l);
    assert Pixels(l)[0] == Pixel(l, 0);
  }

  lemma MoveErr(l: Segment, i: int, j: int)
    ensures ErrAt(l, i + 1, j) == ErrAt(l, i, j) - Dy(l)
    ensures ErrAt(l, i, j + 1) == ErrAt(l, i, j) + Dx(l)
    ensures ErrAt(l, i + 1, j + 1) == ErrAt(l, i, j) - Dy(l) + Dx(l)
  {
  }
}
