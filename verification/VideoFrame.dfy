// Packed I420 frames and the box filter that shrinks them.
module VideoFrame {
  import opened Arithmetic
  import opened Wrappers

  datatype VideoFrame = VideoFrame(
    width: u32, height: u32, data: seq<u8>, rtpTimestamp: u32, elapsed: nat)

  function Half(n: nat): nat {
    (n + 1) / 2
  }

  function LumaLen(width: nat, height: nat): nat {
    width * height
  }

  function ChromaLen(width: nat, height: nat): nat {
    Half(width) * Half(height)
  }

  function I420Len(width: nat, height: nat): nat {
    LumaLen(width, height) + 2 * ChromaLen(width, height)
  }

  // ---- Arithmetic ------------------------------------------------------------------------------

  // The floor of a / n is the largest number whose multiple is at most a.
  lemma DivBounds(a: nat, n: nat, q: nat)
    requires n > 0
    ensures q * n <= a <==> q <= a / n
  {
    var p := a / n;
    assert a == p * n + a % n;
    if q <= p {
      MulOrder(q, p, n);
    } else {
      MulOrder(p + 1, q, n);
      Distribute(p, 1, n);
    }
  }

  lemma IndexFits(y: nat, x: nat, width: nat, height: nat)
    requires x < width && y < height
    ensures 0 <= y * width + x < width * height
  {
    MulOrder(y + 1, height, width);
    Distribute(y, 1, width);
  }

  // ---- The source interval of one destination index ---------------------------------------------

  // `(i * src).div(dst)` and the end `ceil((i + 1) * src / dst)`, kept inside the source
  // and after the start.
  function Lo(i: nat, src: nat, dst: nat): nat
    requires dst > 0
  {
    i * src / dst
  }

  function Hi(i: nat, src: nat, dst: nat): nat
    requires dst > 0
  {
    Max(Min(CeilDiv((i + 1) * src, dst), src), Lo(i, src, dst) + 1)
  }

  lemma CeilBounds(a: nat, b: nat, q: nat)
    requires b > 0
    ensures q < CeilDiv(a, b) <==> q * b < a
  {
    DivBounds(a + b - 1, b, q + 1);
    Distribute(q, 1, b);
  }

  // The interval is not empty, and inside the source exactly when that is not empty.
  lemma IntervalIsInsideIff(i: nat, src: nat, dst: nat)
    requires i < dst
    ensures Lo(i, src, dst) < Hi(i, src, dst)
    ensures Hi(i, src, dst) <= src <==> src > 0
  {
    if src > 0 {
      DivBounds(i * src, dst, src);
      assert src * dst > i * src by {
        MulOrder(i + 1, dst, src);
        Distribute(i, 1, src);
      }
    }
  }

  // It starts at the floor and ends at the ceiling of the exact interval.
  lemma IntervalIs(i: nat, src: nat, dst: nat)
    requires i < dst && src > 0
    ensures var lo, hi := Lo(i, src, dst), Hi(i, src, dst);
      && lo * dst <= i * src < (lo + 1) * dst
      && (hi - 1) * dst < (i + 1) * src <= hi * dst
  {
    var lo, ceil := Lo(i, src, dst), CeilDiv((i + 1) * src, dst);
    DivBounds(i * src, dst, lo);
    DivBounds(i * src, dst, lo + 1);
    CeilBounds((i + 1) * src, dst, ceil - 1);
    CeilBounds((i + 1) * src, dst, ceil);
    CeilBounds((i + 1) * src, dst, src);
    MulOrder(i + 1, dst, src);
    CeilBounds((i + 1) * src, dst, lo);
    Distribute(i, 1, src);
    assert Hi(i, src, dst) == ceil;
  }

  // The intervals leave no source index uncovered.
  lemma IntervalsCover(x: nat, src: nat, dst: nat) returns (i: nat)
    requires x < src && dst > 0
    ensures i < dst && Lo(i, src, dst) <= x < Hi(i, src, dst)
  {
    i := x * dst / src;
    DivBounds(x * dst, src, i);
    DivBounds(x * dst, src, i + 1);
    DivBounds(x * dst, src, dst);
    MulOrder(x + 1, src, dst);
    Distribute(x, 1, dst);
    CoversAt(x, i, src, dst);
  }

  lemma CoversAt(x: nat, i: nat, src: nat, dst: nat)
    requires x < src && dst > 0 && i * src <= x * dst < (i + 1) * src
    ensures Lo(i, src, dst) <= x < Hi(i, src, dst)
  {
    CeilBounds((i + 1) * src, dst, x);
    DivBounds(i * src, dst, x + 1);
    Distribute(x, 1, dst);
    MulOrder(x, x + 1, dst);
  }

  // Neighbours share at most one index, and none is skipped between them.
  lemma IntervalsMeet(i: nat, src: nat, dst: nat)
    requires i + 1 < dst && src > 0
    ensures Lo(i + 1, src, dst) <= Hi(i, src, dst) <= Max(Lo(i + 1, src, dst), Lo(i, src, dst)) + 1
  {
    IntervalIsInsideIff(i + 1, src, dst);
    var a := (i + 1) * src;
    DivBounds(a, dst, Lo(i + 1, src, dst));
    CeilBounds(a, dst, Lo(i + 1, src, dst) - 1 + 1);
    CeilIsNextOrSame(a, dst);
  }

  lemma CeilIsNextOrSame(a: nat, b: nat)
    requires b > 0
    ensures a / b <= CeilDiv(a, b) <= a / b + 1
  {
    DivBounds(a, b, a / b);
    DivBounds(a, b, a / b + 1);
    DivBounds(a + b - 1, b, a / b);
    DivBounds(a + b - 1, b, a / b + 2);
    Distribute(a / b + 1, 1, b);
  }

  // ---- The mean of a rectangle ---------------------------------------------------------------------

  datatype Plane = Plane(pixels: seq<u8>, width: nat, height: nat)

  ghost predicate ValidPlane(p: Plane) {
    p.width > 0 && p.height > 0 && |p.pixels| == p.width * p.height
  }

  datatype Rect = Rect(x0: nat, x1: nat, y0: nat, y1: nat)

  ghost predicate Inside(r: Rect, p: Plane) {
    r.x0 < r.x1 <= p.width && r.y0 < r.y1 <= p.height
  }

  function PixelAt(p: Plane, x: nat, y: nat): u8
    requires ValidPlane(p) && x < p.width && y < p.height
  {
    IndexFits(y, x, p.width, p.height);
    p.pixels[y * p.width + x]
  }

  ghost function RowSum(p: Plane, y: nat, x0: nat, x1: nat): nat
    requires ValidPlane(p) && x0 <= x1 <= p.width && y < p.height
    decreases x1
  {
    if x0 == x1 then 0 else RowSum(p, y, x0, x1 - 1) + PixelAt(p, x1 - 1, y)
  }

  ghost function BoxSum(p: Plane, x0: nat, x1: nat, y0: nat, y1: nat): nat
    requires ValidPlane(p) && x0 <= x1 <= p.width && y0 <= y1 <= p.height
    decreases y1
  {
    if y0 == y1 then 0 else BoxSum(p, x0, x1, y0, y1 - 1) + RowSum(p, y1 - 1, x0, x1)
  }

  function Area(r: Rect): nat
    requires r.x0 <= r.x1 && r.y0 <= r.y1
  {
    (r.y1 - r.y0) * (r.x1 - r.x0)
  }

  // The running sum and count are 32 bits wide, and the quotient is cut to 8.
  ghost function Average(p: Plane, r: Rect): u8
    requires ValidPlane(p) && Inside(r, p)
  {
    BoxSum(p, r.x0, r.x1, r.y0, r.y1) % TWO_TO_32 / Max(Area(r) % TWO_TO_32, 1) % 0x100
  }

  lemma WrapAdd(a: nat, b: nat, m: nat)
    requires m > 0
    ensures (a % m + b) % m == (a + b) % m
  {
    var q := a / m;
    var c := a % m + b;
    assert a == q * m + a % m;
    Distribute(q, c / m, m);
    DivIs(a + b, m, q + c / m, c % m);
  }

  method AverageBox(p: Plane, r: Rect) returns (mean: u8)
    requires ValidPlane(p) && Inside(r, p)
    ensures mean == Average(p, r)
  {
    var sum: u32, count: u32 := 0, 0;
    ghost var area: nat := 0;
    for y := r.y0 to r.y1
      invariant sum == BoxSum(p, r.x0, r.x1, r.y0, y) % TWO_TO_32
      invariant area == (y - r.y0) * (r.x1 - r.x0) && count == area % TWO_TO_32
    {
      Distribute(y - r.y0, 1, r.x1 - r.x0);
      sum, count := AddRow(p, y, r.x0, r.x1, sum, count, BoxSum(p, r.x0, r.x1, r.y0, y), area);
      area := area + (r.x1 - r.x0);
    }
    mean := sum / Max(count, 1) % 0x100;
  }

  // The inner loop over one row; `above` and `area` are the sum and the count before it.
  method AddRow(p: Plane, y: nat, x0: nat, x1: nat, sum0: u32, count0: u32, ghost above: nat, ghost area: nat)
    returns (sum: u32, count: u32)
    requires ValidPlane(p) && x0 <= x1 <= p.width && y < p.height
    requires sum0 == above % TWO_TO_32 && count0 == area % TWO_TO_32
    ensures sum == (above + RowSum(p, y, x0, x1)) % TWO_TO_32
    ensures count == (area + (x1 - x0)) % TWO_TO_32
  {
    sum, count := sum0, count0;
    for x := x0 to x1
      invariant sum == (above + RowSum(p, y, x0, x)) % TWO_TO_32
      invariant count == (area + (x - x0)) % TWO_TO_32
    {
      IndexFits(y, x, p.width, p.height);
      WrapAdd(above + RowSum(p, y, x0, x), PixelAt(p, x, y), TWO_TO_32);
      WrapAdd(area + (x - x0), 1, TWO_TO_32);
      sum := (sum + p.pixels[y * p.width + x]) % TWO_TO_32;
      count := (count + 1) % TWO_TO_32;
    }
  }

  // ---- The plane ----------------------------------------------------------------------------------------

  function SourceRect(p: Plane, dx: nat, dy: nat, dw: nat, dh: nat): Rect
    requires dw > 0 && dh > 0
  {
    Rect(Lo(dx, p.width, dw), Hi(dx, p.width, dw), Lo(dy, p.height, dh), Hi(dy, p.height, dh))
  }

  lemma SourceRectIsInside(p: Plane, dx: nat, dy: nat, dw: nat, dh: nat)
    requires ValidPlane(p) && dx < dw && dy < dh
    ensures Inside(SourceRect(p, dx, dy, dw, dh), p)
  {
    IntervalIsInsideIff(dx, p.width, dw);
    IntervalIsInsideIff(dy, p.height, dh);
  }

  ghost function Shrunk(p: Plane, dx: nat, dy: nat, dw: nat, dh: nat): u8
    requires ValidPlane(p) && dx < dw && dy < dh
  {
    SourceRectIsInside(p, dx, dy, dw, dh);
    Average(p, SourceRect(p, dx, dy, dw, dh))
  }

  ghost function ShrunkPlane(p: Plane, dw: nat, dh: nat): (r: seq<u8>)
    requires ValidPlane(p) && dw > 0 && dh > 0
    ensures |r| == dw * dh
  {
    seq(dw * dh, k requires 0 <= k < dw * dh =>
      RowOf(k, dw, dh);
      Shrunk(p, k % dw, k / dw, dw, dh))
  }

  lemma RowOf(k: nat, width: nat, height: nat)
    requires k < width * height
    ensures width > 0 && k % width < width && k / width < height
  {
    DivBounds(k, width, height);
  }

  lemma ShrunkAt(p: Plane, dx: nat, dy: nat, dw: nat, dh: nat)
    requires ValidPlane(p) && dx < dw && dy < dh
    ensures 0 <= dy * dw + dx < dw * dh
    ensures ShrunkPlane(p, dw, dh)[dy * dw + dx] == Shrunk(p, dx, dy, dw, dh)
  {
    IndexFits(dy, dx, dw, dh);
    DivIs(dy * dw + dx, dw, dy, dx);
    hide Shrunk;
  }

  method ShrinkPixel(p: Plane, dx: nat, dy: nat, dw: nat, dh: nat, y0: nat, y1: nat) returns (mean: u8)
    requires ValidPlane(p) && dx < dw && dy < dh
    requires y0 == Lo(dy, p.height, dh) && y1 == Hi(dy, p.height, dh)
    ensures mean == Shrunk(p, dx, dy, dw, dh)
  {
    var x0 := dx * p.width / dw;
    var x1 := Max(Min(CeilDiv((dx + 1) * p.width, dw), p.width), x0 + 1);
    SourceRectIsInside(p, dx, dy, dw, dh);
    mean := AverageBox(p, Rect(x0, x1, y0, y1));
  }

  method BoxDownscale(p: Plane, dw: nat, dh: nat) returns (out: array<u8>)
    requires ValidPlane(p) && dw > 0 && dh > 0
    ensures fresh(out) && out[..] == ShrunkPlane(p, dw, dh)
  {
    hide Shrunk, ShrunkPlane, AgreeBelow;
    out := new u8[dw * dh](_ => 0);
    AgreeFromZero(out, ShrunkPlane(p, dw, dh), dw);
    for dy := 0 to dh
      invariant AgreeBelow(out, ShrunkPlane(p, dw, dh), dy * dw)
    {
      var y0 := dy * p.height / dh;
      var y1 := Max(Min(CeilDiv((dy + 1) * p.height, dh), p.height), y0 + 1);
      Distribute(dy, 1, dw);
      ShrinkRow(p, dy, dw, dh, y0, y1, out);
    }
    AgreeToTheEnd(out, ShrunkPlane(p, dw, dh), dw, dh);
  }

  ghost predicate AgreeBelow(out: array<u8>, want: seq<u8>, n: int)
    reads out
  {
    out.Length == |want| && forall k :: 0 <= k < n && k < |want| ==> out[k] == want[k]
  }

  lemma AgreeFromZero(out: array<u8>, want: seq<u8>, dw: nat)
    requires out.Length == |want|
    ensures AgreeBelow(out, want, 0 * dw)
  {
  }

  lemma AgreeToTheEnd(out: array<u8>, want: seq<u8>, dw: nat, dh: nat)
    requires |want| == dw * dh && AgreeBelow(out, want, dh * dw)
    ensures out[..] == want
  {
  }

  // The inner loop over one destination row.
  method ShrinkRow(p: Plane, dy: nat, dw: nat, dh: nat, y0: nat, y1: nat, out: array<u8>)
    requires ValidPlane(p) && dy < dh && dw > 0
    requires y0 == Lo(dy, p.height, dh) && y1 == Hi(dy, p.height, dh)
    requires AgreeBelow(out, ShrunkPlane(p, dw, dh), dy * dw)
    modifies out
    ensures AgreeBelow(out, ShrunkPlane(p, dw, dh), dy * dw + dw)
  {
    hide Shrunk, ShrunkPlane, Lo, Hi;
    ghost var want := ShrunkPlane(p, dw, dh);
    for dx := 0 to dw
      invariant AgreeBelow(out, want, dy * dw + dx)
    {
      ShrunkAt(p, dx, dy, dw, dh);
      var mean := ShrinkPixel(p, dx, dy, dw, dh, y0, y1);
      out[dy * dw + dx] := mean;
    }
  }

  // ---- What a shrunk pixel is --------------------------------------------------------------------------

  ghost predicate Between(p: Plane, r: Rect, lo: nat, hi: nat)
    requires ValidPlane(p) && r.x1 <= p.width && r.y1 <= p.height
  {
    forall x, y :: r.x0 <= x < r.x1 && r.y0 <= y < r.y1 ==> lo <= PixelAt(p, x, y) <= hi
  }

  lemma BetweenPart(p: Plane, r: Rect, part: Rect, lo: nat, hi: nat)
    requires ValidPlane(p) && r.x1 <= p.width && r.y1 <= p.height && Between(p, r, lo, hi)
    requires r.x0 <= part.x0 && part.x1 <= r.x1 && r.y0 <= part.y0 && part.y1 <= r.y1
    ensures Between(p, part, lo, hi)
  {
    hide PixelAt, ValidPlane;
  }

  lemma {:induction false} RowBounds(p: Plane, y: nat, x0: nat, x1: nat, lo: nat, hi: nat)
    requires ValidPlane(p) && x0 <= x1 <= p.width && y < p.height
    requires Between(p, Rect(x0, x1, y, y + 1), lo, hi)
    ensures (x1 - x0) * lo <= RowSum(p, y, x0, x1) <= (x1 - x0) * hi
    decreases x1
  {
    if x0 < x1 {
      var row := Rect(x0, x1, y, y + 1);
      assert lo <= PixelAt(p, x1 - 1, y) <= hi;
      hide PixelAt, Between;
      BetweenPart(p, row, Rect(x0, x1 - 1, y, y + 1), lo, hi);
      RowBounds(p, y, x0, x1 - 1, lo, hi);
      Distribute(x1 - 1 - x0, 1, lo);
      Distribute(x1 - 1 - x0, 1, hi);
    }
  }

  lemma {:induction false} BoxBounds(p: Plane, r: Rect, lo: nat, hi: nat)
    requires ValidPlane(p) && r.x0 <= r.x1 <= p.width && r.y0 <= r.y1 <= p.height
    requires Between(p, r, lo, hi)
    ensures Area(r) * lo <= BoxSum(p, r.x0, r.x1, r.y0, r.y1) <= Area(r) * hi
    decreases r.y1
  {
    hide Between, RowSum, ValidPlane;
    if r.y0 < r.y1 {
      var above, row := r.(y1 := r.y1 - 1), r.(y0 := r.y1 - 1);
      BetweenPart(p, r, above, lo, hi);
      BetweenPart(p, r, row, lo, hi);
      BoxBounds(p, above, lo, hi);
      RowBounds(p, r.y1 - 1, r.x0, r.x1, lo, hi);
      Distribute(r.y1 - 1 - r.y0, 1, r.x1 - r.x0);
      Distribute(Area(above), r.x1 - r.x0, lo);
      Distribute(Area(above), r.x1 - r.x0, hi);
    } else {
      assert Area(r) == 0;
    }
  }

  const MAX_AREA := 16_843_009

  // The 32-bit sum of white pixels wraps exactly when there are more than MAX_AREA.
  lemma WhiteWrapsIff(p: Plane, r: Rect)
    requires ValidPlane(p) && Inside(r, p) && Between(p, r, 0xFF, 0xFF)
    ensures BoxSum(p, r.x0, r.x1, r.y0, r.y1) >= TWO_TO_32 <==> Area(r) > MAX_AREA
  {
    BoxBounds(p, r, 0xFF, 0xFF);
  }

  // Up to that, the average is the floor of the mean, and between the darkest and
  // the brightest pixel.
  lemma AverageIsMean(p: Plane, r: Rect, lo: nat, hi: nat)
    requires ValidPlane(p) && Inside(r, p) && Area(r) <= MAX_AREA
    requires Between(p, r, lo, hi)
    ensures Area(r) > 0 && Average(p, r) == BoxSum(p, r.x0, r.x1, r.y0, r.y1) / Area(r)
    ensures lo <= Average(p, r) <= hi
  {
    var sum := BoxSum(p, r.x0, r.x1, r.y0, r.y1);
    assert Between(p, r, 0, 0xFF);
    AreaIsPositive(r);
    hide BoxSum, Between, ValidPlane, Area;
    BoxBounds(p, r, 0, 0xFF);
    BoxBounds(p, r, lo, hi);
    NothingWraps(sum, Area(r));
    MeanBetween(sum, Area(r), lo, hi);
  }

  // For an area that fits 32 bits, it is that exactly if the sum fits them too.
  lemma AverageIsMeanIff(p: Plane, r: Rect)
    requires ValidPlane(p) && Inside(r, p) && Area(r) < TWO_TO_32
    ensures Area(r) > 0
    ensures Average(p, r) == BoxSum(p, r.x0, r.x1, r.y0, r.y1) / Area(r)
       <==> BoxSum(p, r.x0, r.x1, r.y0, r.y1) < TWO_TO_32
  {
    AreaIsPositive(r);
    assert Between(p, r, 0, 0xFF);
    BoxBounds(p, r, 0, 0xFF);
    var sum, n := BoxSum(p, r.x0, r.x1, r.y0, r.y1), Area(r);
    hide BoxSum, Between, ValidPlane, Area;
    MeanBetween(sum, n, 0, 0xFF);
    WrappedMeanIff(sum, n);
  }

  lemma WrappedMeanIff(sum: nat, n: nat)
    requires 0 < n < TWO_TO_32 && sum <= n * 0xFF
    ensures sum % TWO_TO_32 / Max(n % TWO_TO_32, 1) % 0x100 == sum / n <==> sum < TWO_TO_32
  {
    Remainder(sum);
    Remainder(n);
    LowQuotient(sum % TWO_TO_32, n, sum);
  }

  // The quotient of less by n is smaller, and a byte like the whole one.
  lemma LowQuotient(rest: nat, n: nat, sum: nat)
    requires n > 0 && sum <= n * 0xFF && (rest == sum || rest + n <= sum)
    ensures rest / Max(n, 1) % 0x100 == sum / n <==> rest == sum
  {
    MeanBetween(sum, n, 0, 0xFF);
    if rest != sum {
      SmallerQuotient(rest, n, sum);
    }
    assert Max(n, 1) == n;
    SmallIsByte(rest / n, sum / n);
  }

  lemma Remainder(x: nat)
    ensures x < TWO_TO_32 ==> x % TWO_TO_32 == x
    ensures x >= TWO_TO_32 ==> x % TWO_TO_32 + TWO_TO_32 <= x
  {
  }

  lemma SmallIsByte(a: int, b: int)
    requires 0 <= a <= b <= 0xFF
    ensures a % 0x100 == a
  {
  }

  lemma SmallerQuotient(rest: nat, n: nat, sum: nat)
    requires n > 0 && rest + n <= sum
    ensures rest / n + 1 <= sum / n
  {
    Distribute(rest / n, 1, n);
    DivBounds(rest, n, rest / n);
    DivBounds(sum, n, rest / n + 1);
  }

  lemma AreaIsPositive(r: Rect)
    requires r.x0 < r.x1 && r.y0 < r.y1
    ensures Area(r) > 0
  {
    MulOrder(1, r.y1 - r.y0, r.x1 - r.x0);
  }

  lemma NothingWraps(sum: nat, n: nat)
    requires 0 < n <= MAX_AREA && sum <= n * 0xFF
    ensures sum % TWO_TO_32 / Max(n % TWO_TO_32, 1) % 0x100 == sum / n
  {
    assert sum < TWO_TO_32 && n < TWO_TO_32;
    MeanBetween(sum, n, 0, 0xFF);
  }

  lemma MeanBetween(sum: nat, n: nat, lo: nat, hi: nat)
    requires n > 0 && n * lo <= sum <= n * hi
    ensures lo <= sum / n <= hi
  {
    DivBounds(sum, n, lo);
    DivBounds(sum, n, hi + 1);
    Distribute(hi, 1, n);
  }

  // Nothing wraps in a plane of up to 4096 x 4096.
  lemma CommonPlanesAreExact(p: Plane, dx: nat, dy: nat, dw: nat, dh: nat)
    requires ValidPlane(p) && p.width <= 4096 && p.height <= 4096 && dx < dw && dy < dh
    ensures var r := SourceRect(p, dx, dy, dw, dh);
      && Inside(r, p) && 0 < Area(r) <= MAX_AREA
      && Shrunk(p, dx, dy, dw, dh) == BoxSum(p, r.x0, r.x1, r.y0, r.y1) / Area(r)
  {
    var r := SourceRect(p, dx, dy, dw, dh);
    SourceRectIsInside(p, dx, dy, dw, dh);
    MulOrder(r.y1 - r.y0, 4096, r.x1 - r.x0);
    MulOrder(r.x1 - r.x0, 4096, 4096);
    assert Between(p, r, 0, 0xFF);
    hide Between;
    AverageIsMean(p, r, 0, 0xFF);
  }

  lemma SameIndex(i: nat, n: nat)
    requires i < n
    ensures Lo(i, n, n) == i && Hi(i, n, n) == i + 1
  {
    DivIs(i * n, n, i, 0);
    DivIs((i + 1) * n + n - 1, n, i + 1, n - 1);
  }

  lemma SamePixel(p: Plane, x: nat, y: nat)
    requires ValidPlane(p) && x < p.width && y < p.height
    ensures Shrunk(p, x, y, p.width, p.height) == PixelAt(p, x, y)
  {
    SameIndex(x, p.width);
    SameIndex(y, p.height);
    hide Lo, Hi, Average, BoxSum, PixelAt;
    assert SourceRect(p, x, y, p.width, p.height) == Rect(x, x + 1, y, y + 1);
    AverageOfOne(p, x, y);
  }

  lemma AverageOfOne(p: Plane, x: nat, y: nat)
    requires ValidPlane(p) && x < p.width && y < p.height
    ensures Average(p, Rect(x, x + 1, y, y + 1)) == PixelAt(p, x, y)
  {
    OnePixel(p, x, y);
    assert Area(Rect(x, x + 1, y, y + 1)) == 1;
    hide BoxSum, PixelAt, Area, ValidPlane;
  }

  lemma OnePixel(p: Plane, x: nat, y: nat)
    requires ValidPlane(p) && x < p.width && y < p.height
    ensures BoxSum(p, x, x + 1, y, y + 1) == PixelAt(p, x, y)
  {
    hide PixelAt;
    assert BoxSum(p, x, x + 1, y, y) == 0;
    assert RowSum(p, y, x, x) == 0;
  }

  lemma SamePixelAt(p: Plane, k: nat)
    requires ValidPlane(p) && k < |p.pixels|
    ensures k < |ShrunkPlane(p, p.width, p.height)|
    ensures ShrunkPlane(p, p.width, p.height)[k] == p.pixels[k]
  {
    hide ShrunkPlane, Shrunk;
    RowOf(k, p.width, p.height);
    var x, y := k % p.width, k / p.width;
    assert k == y * p.width + x;
    ShrunkAt(p, x, y, p.width, p.height);
    SamePixel(p, x, y);
  }

  // Scaling to the same size changes nothing.
  lemma SameSizeIsIdentity(p: Plane)
    requires ValidPlane(p)
    ensures ShrunkPlane(p, p.width, p.height) == p.pixels
  {
    assert |p.pixels| == p.width * p.height;
    hide *;
    forall k | 0 <= k < |p.pixels|
      ensures ShrunkPlane(p, p.width, p.height)[k] == p.pixels[k]
    {
      SamePixelAt(p, k);
    }
  }

  // ---- Whole frames --------------------------------------------------------------------------------------

  // The Y, U and V planes of a frame whose data is long enough; the split panics
  // on a shorter one.
  function Planes(f: VideoFrame): (Plane, Plane, Plane)
    requires I420Len(f.width, f.height) <= |f.data|
  {
    var luma, chroma := LumaLen(f.width, f.height), ChromaLen(f.width, f.height);
    (Plane(f.data[..luma], f.width, f.height),
     Plane(f.data[luma..luma + chroma], Half(f.width), Half(f.height)),
     Plane(f.data[luma + chroma..luma + 2 * chroma], Half(f.width), Half(f.height)))
  }

  // A chroma side is half a luma side, rounded up, and the two chroma planes follow the
  // luma plane.
  lemma PackedLengths(width: nat, height: nat)
    ensures width <= 2 * Half(width) <= width + 1
    ensures I420Len(width, height) == width * height + 2 * (Half(width) * Half(height))
  {
  }

  // They are the packed data, each of its own size.
  lemma PlanesAreTheData(f: VideoFrame)
    requires I420Len(f.width, f.height) <= |f.data|
    ensures var (y, u, v) := Planes(f);
      && y.pixels + u.pixels + v.pixels == f.data[..I420Len(f.width, f.height)]
      && |y.pixels| == f.width * f.height && |u.pixels| == |v.pixels| == Half(f.width) * Half(f.height)
      && (f.width > 0 && f.height > 0 ==> ValidPlane(y) && ValidPlane(u) && ValidPlane(v))
  {
    CutInThree(f.data, LumaLen(f.width, f.height), ChromaLen(f.width, f.height));
  }

  lemma CutInThree<T>(data: seq<T>, first: nat, rest: nat)
    requires first + 2 * rest <= |data|
    ensures data[..first] + data[first..first + rest] + data[first + rest..first + 2 * rest]
         == data[..first + 2 * rest]
  {
  }

  // `.min(have).max(2) & !1`
  function EvenSide(want: u32, have: u32): u32 {
    Max(Min(want, have), 2) / 2 * 2
  }

  // A side grows only if it had fewer than two pixels.
  lemma SideShrinksIff(want: u32, have: u32)
    ensures EvenSide(want, have) % 2 == 0 && EvenSide(want, have) >= 2
    ensures EvenSide(want, have) <= have <==> have >= 2
    ensures EvenSide(want, have) <= Max(want, 2)
    ensures want >= 2 && have >= 2 ==> Min(want, have) - 1 <= EvenSide(want, have)
    ensures have < 2 ==> EvenSide(want, have) == 2
  {
  }

  ghost predicate CanDownscale(f: VideoFrame, dw: nat, dh: nat) {
    (dw == f.width && dh == f.height) ||
    (f.width > 0 && f.height > 0 && I420Len(f.width, f.height) <= |f.data|)
  }

  method Downscale(f: VideoFrame, width: u32, height: u32) returns (r: VideoFrame)
    requires CanDownscale(f, EvenSide(width, f.width), EvenSide(height, f.height))
    ensures r.width == EvenSide(width, f.width) && r.height == EvenSide(height, f.height)
    ensures r.rtpTimestamp == f.rtpTimestamp && r.elapsed == f.elapsed
    ensures r.width == f.width && r.height == f.height ==> r == f
    ensures r.width != f.width || r.height != f.height ==>
      && |r.data| == I420Len(r.width, r.height)
      && ValidPlane(Planes(f).0) && ValidPlane(Planes(f).1) && ValidPlane(Planes(f).2)
      && Planes(r).0.pixels == ShrunkPlane(Planes(f).0, r.width, r.height)
      && Planes(r).1.pixels == ShrunkPlane(Planes(f).1, Half(r.width), Half(r.height))
      && Planes(r).2.pixels == ShrunkPlane(Planes(f).2, Half(r.width), Half(r.height))
  {
    var dw, dh := EvenSide(width, f.width), EvenSide(height, f.height);
    if dw == f.width && dh == f.height {
      return f;
    }
    PlanesAreTheData(f);
    hide ShrunkPlane, ValidPlane;
    var (y, u, v) := Planes(f);
    var luma := BoxDownscale(y, dw, dh);
    var blue := BoxDownscale(u, Half(dw), Half(dh));
    var red := BoxDownscale(v, Half(dw), Half(dh));
    r := VideoFrame(dw, dh, luma[..] + blue[..] + red[..], f.rtpTimestamp, f.elapsed);
  }
}
