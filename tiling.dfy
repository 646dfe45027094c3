/**
 * Block-based change detection shared by the video codec, the streaming
 * compressor and the advanced screen capture: the frame is cut into
 * square blocks (16 or 64 pixels), clipped at the right and bottom edges
 * and visited row by row; within a block, pixels are compared one by one
 * and the block is reported when enough of them changed.
 *
 * The three sources differ only in the block size, the per-pixel rule and
 * the share of changed pixels that makes a block count; those are the
 * parameters here.
 */
module Tiling {
  import opened Text
  import opened Image

  /** A block: its top-left corner and its clipped size. */
  datatype Region = Region(x: nat, y: nat, width: nat, height: nat)

  function Min(a: nat, b: nat): nat { if a <= b then a else b }

  /** The block at (x, y): bs×bs, clipped to the w×h frame. */
  function TileAt(w: nat, h: nat, bs: nat, x: nat, y: nat): Region
    requires x <= w && y <= h
  { Region(x, y, Min(bs, w - x), Min(bs, h - y)) }

  /** The blocks of row y from column x on, stepping by bs. */
  function RowFrom(w: nat, h: nat, bs: nat, y: nat, x: nat): seq<Region>
    requires bs > 0 && y < h
    decreases w - x
  {
    if x >= w then [] else [TileAt(w, h, bs, x, y)] + RowFrom(w, h, bs, y, x + bs)
  }

  /** The block rows from row y on, stepping by bs. */
  function RowsFrom(w: nat, h: nat, bs: nat, y: nat): seq<Region>
    requires bs > 0
    decreases h - y
  {
    if y >= h then [] else RowFrom(w, h, bs, y, 0) + RowsFrom(w, h, bs, y + bs)
  }

  /** The two nested `step_by(bs)` loops: every block of the frame in row-major order. */
  function Tiles(w: nat, h: nat, bs: nat): seq<Region>
    requires bs > 0
  { RowsFrom(w, h, bs, 0) }

  function CeilDiv(n: nat, d: nat): nat
    requires d > 0
  { (n + d - 1) / d }

  predicate Contains(t: Region, px: nat, py: nat)
  { t.x <= px < t.x + t.width && t.y <= py < t.y + t.height }

  /** How many blocks of s contain the pixel. */
  function CountContaining(s: seq<Region>, px: nat, py: nat): nat
  {
    if s == [] then 0 else (if Contains(s[0], px, py) then 1 else 0) + CountContaining(s[1..], px, py)
  }

  lemma {:induction false} CountContainingAppend(a: seq<Region>, b: seq<Region>, px: nat, py: nat)
    ensures CountContaining(a + b, px, py) == CountContaining(a, px, py) + CountContaining(b, px, py)
  {
    if a == [] {
      assert a + b == b;
    } else {
      assert (a + b)[1..] == a[1..] + b;
      CountContainingAppend(a[1..], b, px, py);
    }
  }

  /** a comes before b in row-major order. */
  predicate Before(a: Region, b: Region)
  { a.y < b.y || (a.y == b.y && a.x < b.x) }

  predicate RowMajor(s: seq<Region>)
  { forall i, j :: 0 <= i < j < |s| ==> Before(s[i], s[j]) }

  /** A block lies inside the frame and holds at least one pixel. */
  predicate Inside(t: Region, w: nat, h: nat)
  { 1 <= t.width && t.x + t.width <= w && 1 <= t.height && t.y + t.height <= h }

  // ----------------------------------------------------------- facts about one row

  lemma {:induction false} RowFacts(w: nat, h: nat, bs: nat, y: nat, x: nat)
    requires bs > 0 && y < h
    ensures forall t :: t in RowFrom(w, h, bs, y, x) ==> t.y == y && t.x >= x && Inside(t, w, h)
    ensures RowMajor(RowFrom(w, h, bs, y, x))
    decreases w - x
  {
    if x < w {
      RowFacts(w, h, bs, y, x + bs);
      var s := RowFrom(w, h, bs, y, x);
      assert s == [TileAt(w, h, bs, x, y)] + RowFrom(w, h, bs, y, x + bs);
      forall i, j | 0 <= i < j < |s| ensures Before(s[i], s[j]) {
        if i > 0 {
          assert s[i] == RowFrom(w, h, bs, y, x + bs)[i - 1];
          assert s[j] == RowFrom(w, h, bs, y, x + bs)[j - 1];
        } else {
          assert s[j] in RowFrom(w, h, bs, y, x + bs);
        }
      }
    }
  }

  lemma {:induction false} RowLength(w: nat, h: nat, bs: nat, y: nat, x: nat)
    requires bs > 0 && y < h
    ensures |RowFrom(w, h, bs, y, x)| == if x >= w then 0 else CeilDiv(w - x, bs)
    decreases w - x
  {
    if x < w {
      RowLength(w, h, bs, y, x + bs);
      var n := w - x;
      if x + bs < w {
        assert (n - bs + bs - 1) / bs + 1 == (n + bs - 1) / bs by {
          DivShift(n - bs + bs - 1, bs);
        }
      } else {
        assert (n + bs - 1) / bs == 1 by {
          DivOne(n + bs - 1, bs);
        }
      }
    }
  }

  lemma DivShift(m: nat, d: nat)
    requires d > 0
    ensures (m + d) / d == m / d + 1
  {
    var q, r := m / d, m % d;
    assert m + d == (q + 1) * d + r;
    DivUnique(m + d, d, q + 1, r);
  }

  lemma DivOne(m: nat, d: nat)
    requires d > 0 && d <= m < 2 * d
    ensures m / d == 1
  {
    DivUnique(m, d, 1, m - d);
  }

  /** Euclidean division has one quotient. */
  lemma DivUnique(n: nat, d: nat, q: nat, r: nat)
    requires d > 0 && r < d && n == q * d + r
    ensures n / d == q
  {
    var q', r' := n / d, n % d;
    assert n == q' * d + r';
    if q' > q {
      MulLe(q + 1, q', d);
    } else if q' < q {
      MulLe(q' + 1, q, d);
    }
  }

  lemma MulLe(a: nat, b: nat, d: nat)
    requires a <= b
    ensures a * d <= b * d
  {
  }

  /** Within row y, a pixel of that band at column px ≥ x lies in exactly one block. */
  lemma {:induction false} RowCover(w: nat, h: nat, bs: nat, y: nat, x: nat, px: nat, py: nat)
    requires bs > 0 && y < h && y <= py < y + bs && py < h && px < w
    ensures CountContaining(RowFrom(w, h, bs, y, x), px, py) == if px >= x then 1 else 0
    decreases w - x
  {
    if x < w {
      RowCover(w, h, bs, y, x + bs, px, py);
    }
  }

  /** A pixel outside the band of row y lies in no block of that row. */
  lemma {:induction false} RowMisses(w: nat, h: nat, bs: nat, y: nat, x: nat, px: nat, py: nat)
    requires bs > 0 && y < h && (py < y || py >= y + bs)
    ensures CountContaining(RowFrom(w, h, bs, y, x), px, py) == 0
    decreases w - x
  {
    if x < w {
      RowMisses(w, h, bs, y, x + bs, px, py);
    }
  }

  // ----------------------------------------------------------- facts about all rows

  lemma {:induction false} RowsFacts(w: nat, h: nat, bs: nat, y: nat)
    requires bs > 0
    ensures forall t :: t in RowsFrom(w, h, bs, y) ==> t.y >= y && Inside(t, w, h)
    ensures RowMajor(RowsFrom(w, h, bs, y))
    decreases h - y
  {
    if y < h {
      RowFacts(w, h, bs, y, 0);
      RowsFacts(w, h, bs, y + bs);
      var a := RowFrom(w, h, bs, y, 0);
      var b := RowsFrom(w, h, bs, y + bs);
      var s := a + b;
      forall i, j | 0 <= i < j < |s| ensures Before(s[i], s[j]) {
        if j < |a| {
        } else if i >= |a| {
          assert s[i] == b[i - |a|] && s[j] == b[j - |a|];
        } else {
          assert s[i] in a && s[j] == b[j - |a|] && s[j] in b;
        }
      }
    }
  }

  lemma {:induction false} RowsLength(w: nat, h: nat, bs: nat, y: nat)
    requires bs > 0
    ensures |RowsFrom(w, h, bs, y)| == (if y >= h then 0 else CeilDiv(h - y, bs)) * CeilDiv(w, bs)
    decreases h - y
  {
    if y < h {
      RowLength(w, h, bs, y, 0);
      RowsLength(w, h, bs, y + bs);
      var n := h - y;
      var k := if y + bs >= h then 0 else CeilDiv(h - y - bs, bs);
      if y + bs < h {
        DivShift(n - bs + bs - 1, bs);
      } else {
        DivOne(n + bs - 1, bs);
      }
      assert CeilDiv(n, bs) == k + 1;
      var cw := CeilDiv(w, bs);
      assert |RowsFrom(w, h, bs, y)| == cw + k * cw;
      MulSuccLeft(k, cw);
    }
  }

  lemma MulSuccLeft(k: nat, c: nat)
    ensures (k + 1) * c == k * c + c
  {
  }

  lemma {:induction false} RowsCover(w: nat, h: nat, bs: nat, y: nat, px: nat, py: nat)
    requires bs > 0 && px < w && py < h
    ensures CountContaining(RowsFrom(w, h, bs, y), px, py) == if py >= y then 1 else 0
    decreases h - y
  {
    if y < h {
      RowsCover(w, h, bs, y + bs, px, py);
      CountContainingAppend(RowFrom(w, h, bs, y, 0), RowsFrom(w, h, bs, y + bs), px, py);
      if y <= py < y + bs {
        RowCover(w, h, bs, y, 0, px, py);
      } else {
        RowMisses(w, h, bs, y, 0, px, py);
      }
    }
  }

  /** There are ⌈w/bs⌉·⌈h/bs⌉ blocks. */
  lemma TileCount(w: nat, h: nat, bs: nat)
    requires bs > 0
    ensures |Tiles(w, h, bs)| == CeilDiv(w, bs) * CeilDiv(h, bs)
  {
    RowsLength(w, h, bs, 0);
    if h == 0 {
      assert CeilDiv(h, bs) == 0;
    }
  }

  /** The blocks come in row-major order, each inside the frame and non-empty. */
  lemma TilesInOrder(w: nat, h: nat, bs: nat)
    requires bs > 0
    ensures RowMajor(Tiles(w, h, bs))
    ensures forall t :: t in Tiles(w, h, bs) ==> Inside(t, w, h)
  {
    RowsFacts(w, h, bs, 0);
  }

  /** Every pixel of the frame lies in exactly one block. */
  lemma TilesCoverOnce(w: nat, h: nat, bs: nat, px: nat, py: nat)
    requires bs > 0 && px < w && py < h
    ensures CountContaining(Tiles(w, h, bs), px, py) == 1
  {
    RowsCover(w, h, bs, 0, px, py);
  }

  // ----------------------------------------------------------- pixel rules

  function AbsDiff(a: Byte, b: Byte): nat
  { if a >= b then a - b else b - a }

  /** |ΔR| + |ΔG| + |ΔB|, alpha ignored; at most 765. */
  function ChannelSum(p: Pixel, q: Pixel): (d: nat)
    ensures d <= 765
  { AbsDiff(p.r, q.r) + AbsDiff(p.g, q.g) + AbsDiff(p.b, q.b) }

  /**
   * How a pixel counts as changed:
   * - SumAbove(t): the channel sum exceeds t;
   * - WrappedSumAbove(t): the channel sum cast to u8 (taken mod 256) exceeds t;
   * - AnyChannelAbove(t): some colour channel differs by more than t.
   */
  datatype PixelRule = SumAbove(threshold: nat) | WrappedSumAbove(threshold: nat) | AnyChannelAbove(threshold: nat)

  predicate PixelChanged(rule: PixelRule, p: Pixel, q: Pixel)
  {
    match rule
    case SumAbove(t) => ChannelSum(p, q) > t
    case WrappedSumAbove(t) => ChannelSum(p, q) % 256 > t
    case AnyChannelAbove(t) => AbsDiff(p.r, q.r) > t || AbsDiff(p.g, q.g) > t || AbsDiff(p.b, q.b) > t
  }

  /** The wrapped and the plain sum agree while the sum stays below 256. */
  lemma WrappedSumAgrees(t: nat, p: Pixel, q: Pixel)
    requires ChannelSum(p, q) < 256
    ensures PixelChanged(WrappedSumAbove(t), p, q) <==> PixelChanged(SumAbove(t), p, q)
  {
  }

  /** With the plain sum, a pixel whose channels all move at least as far is still changed. */
  lemma SumRuleMonotone(t: nat, p: Pixel, q: Pixel, q': Pixel)
    requires AbsDiff(p.r, q.r) <= AbsDiff(p.r, q'.r) && AbsDiff(p.g, q.g) <= AbsDiff(p.g, q'.g)
    requires AbsDiff(p.b, q.b) <= AbsDiff(p.b, q'.b)
    requires PixelChanged(SumAbove(t), p, q)
    ensures PixelChanged(SumAbove(t), p, q')
  {
  }

  /** Black to (255, 1, 0): a change of 256 that the u8 cast turns into 0. */
  lemma WrappedSumHidesChange()
    ensures ChannelSum(Pixel(0, 0, 0, 255), Pixel(255, 1, 0, 255)) == 256
    ensures !PixelChanged(WrappedSumAbove(30), Pixel(0, 0, 0, 255), Pixel(255, 1, 0, 255))
    ensures PixelChanged(SumAbove(30), Pixel(0, 0, 0, 255), Pixel(255, 1, 0, 255))
    ensures PixelChanged(WrappedSumAbove(30), Pixel(0, 0, 0, 255), Pixel(200, 0, 0, 255))
  {
  }

  // ----------------------------------------------------------- counting inside a block

  /** Pixel (x, y) counts: it is inside the first frame and changed between the two. */
  function Hit(a: RgbaImage, b: RgbaImage, rule: PixelRule, x: nat, y: nat): nat
    requires WellFormed(a) && WellFormed(b) && SameDimensions(a, b)
  {
    if x < a.width && y < a.height && PixelChanged(rule, a.rows[y][x], b.rows[y][x]) then 1 else 0
  }

  /** Hits among the first n pixels of row dy of the block. */
  function RowHits(a: RgbaImage, b: RgbaImage, rule: PixelRule, t: Region, dy: nat, n: nat): (c: nat)
    requires WellFormed(a) && WellFormed(b) && SameDimensions(a, b)
    ensures c <= n
  {
    if n == 0 then 0 else RowHits(a, b, rule, t, dy, n - 1) + Hit(a, b, rule, t.x + n - 1, t.y + dy)
  }

  /** Hits among the first m rows of the block. */
  function BlockHits(a: RgbaImage, b: RgbaImage, rule: PixelRule, t: Region, m: nat): (c: nat)
    requires WellFormed(a) && WellFormed(b) && SameDimensions(a, b)
    ensures c <= m * t.width
  {
    if m == 0 then 0
    else
      assert m * t.width == (m - 1) * t.width + t.width;
      BlockHits(a, b, rule, t, m - 1) + RowHits(a, b, rule, t, m - 1, t.width)
  }

  /** The changed pixels of the block: at most its area. */
  function ChangedPixels(a: RgbaImage, b: RgbaImage, rule: PixelRule, t: Region): (c: nat)
    requires WellFormed(a) && WellFormed(b) && SameDimensions(a, b)
    ensures c <= t.height * t.width
  { BlockHits(a, b, rule, t, t.height) }

  /** The nested dy/dx loops of block_differs / block_changed: count the changed pixels. */
  method CountChangedPixels(a: RgbaImage, b: RgbaImage, rule: PixelRule, t: Region) returns (n: nat)
    requires WellFormed(a) && WellFormed(b) && SameDimensions(a, b)
    ensures n == ChangedPixels(a, b, rule, t)
  {
    n := 0;
    var dy := 0;
    while dy < t.height
      invariant dy <= t.height
      invariant n == BlockHits(a, b, rule, t, dy)
    {
      var dx := 0;
      var row := 0;
      while dx < t.width
        invariant dx <= t.width
        invariant row == RowHits(a, b, rule, t, dy, dx)
      {
        var px := t.x + dx;
        var py := t.y + dy;
        if px < a.width && py < a.height && PixelChanged(rule, a.rows[py][px], b.rows[py][px]) {
          row := row + 1;
        }
        dx := dx + 1;
      }
      n := n + row;
      dy := dy + 1;
    }
  }

  // ----------------------------------------------------------- block decision

  /**
   * When enough of a block changed:
   * - PercentAbove(p): changed·100 / area, in integers, exceeds p;
   * - FractionAbove(num, den): changed / area exceeds num/den exactly.
   */
  datatype BlockRule = PercentAbove(percent: nat) | FractionAbove(num: nat, den: nat)

  datatype Detector = Detector(pixel: PixelRule, block: BlockRule)

  /** The block counts as changed. An empty block never does (the sources never form one). */
  predicate BlockChanged(a: RgbaImage, b: RgbaImage, d: Detector, t: Region)
    requires WellFormed(a) && WellFormed(b) && SameDimensions(a, b)
  {
    var total := t.width * t.height;
    var changed := ChangedPixels(a, b, d.pixel, t);
    total > 0 &&
    match d.block
    case PercentAbove(p) => changed * 100 / total > p
    case FractionAbove(num, den) => changed * den > num * total
  }

  /** block_differs / block_changed. */
  method BlockChangedMethod(a: RgbaImage, b: RgbaImage, d: Detector, t: Region) returns (changed: bool)
    requires WellFormed(a) && WellFormed(b) && SameDimensions(a, b)
    ensures changed == BlockChanged(a, b, d, t)
  {
    var total := t.width * t.height;
    var n := CountChangedPixels(a, b, d.pixel, t);
    if total == 0 {
      return false;
    }
    match d.block {
      case PercentAbove(p) => changed := n * 100 / total > p;
      case FractionAbove(num, den) => changed := n * den > num * total;
    }
  }

  /** The blocks of s that changed, in their order. */
  function ChangedIn(a: RgbaImage, b: RgbaImage, d: Detector, s: seq<Region>): (r: seq<Region>)
    requires WellFormed(a) && WellFormed(b) && SameDimensions(a, b)
    ensures |r| <= |s|
  {
    if s == [] then []
    else (if BlockChanged(a, b, d, s[0]) then [s[0]] else []) + ChangedIn(a, b, d, s[1..])
  }

  /** A block is selected iff it is one of s and the detector flags it. */
  lemma {:induction false} ChangedInMembers(a: RgbaImage, b: RgbaImage, d: Detector, s: seq<Region>)
    requires WellFormed(a) && WellFormed(b) && SameDimensions(a, b)
    ensures forall t :: t in ChangedIn(a, b, d, s) <==> t in s && BlockChanged(a, b, d, t)
  {
    if s != [] {
      ChangedInMembers(a, b, d, s[1..]);
      assert forall t :: t in s <==> t == s[0] || t in s[1..];
    }
  }

  /** Nothing is selected when the detector flags no block of s. */
  lemma {:induction false} NoneChanged(a: RgbaImage, b: RgbaImage, d: Detector, s: seq<Region>)
    requires WellFormed(a) && WellFormed(b) && SameDimensions(a, b)
    requires forall i :: 0 <= i < |s| ==> !BlockChanged(a, b, d, s[i])
    ensures ChangedIn(a, b, d, s) == []
  {
    if s != [] {
      NoneChanged(a, b, d, s[1..]);
    }
  }

  lemma {:induction false} ChangedInAppend(a: RgbaImage, b: RgbaImage, d: Detector, s: seq<Region>, s': seq<Region>)
    requires WellFormed(a) && WellFormed(b) && SameDimensions(a, b)
    ensures ChangedIn(a, b, d, s + s') == ChangedIn(a, b, d, s) + ChangedIn(a, b, d, s')
  {
    if s == [] {
      assert s + s' == s';
    } else {
      assert (s + s')[1..] == s[1..] + s';
      ChangedInAppend(a, b, d, s[1..], s');
    }
  }

  /** Selecting blocks keeps row-major order. */
  lemma {:induction false} ChangedInOrder(a: RgbaImage, b: RgbaImage, d: Detector, s: seq<Region>)
    requires WellFormed(a) && WellFormed(b) && SameDimensions(a, b)
    requires RowMajor(s)
    ensures RowMajor(ChangedIn(a, b, d, s))
  {
    if s != [] {
      assert RowMajor(s[1..]) by {
        forall i, j | 0 <= i < j < |s[1..]| ensures Before(s[1..][i], s[1..][j]) {
          assert s[1..][i] == s[i + 1] && s[1..][j] == s[j + 1];
        }
      }
      ChangedInOrder(a, b, d, s[1..]);
      ChangedInMembers(a, b, d, s[1..]);
      var rest := ChangedIn(a, b, d, s[1..]);
      if BlockChanged(a, b, d, s[0]) {
        var r := [s[0]] + rest;
        forall i, j | 0 <= i < j < |r| ensures Before(r[i], r[j]) {
          if i > 0 {
            assert r[i] == rest[i - 1] && r[j] == rest[j - 1];
          } else {
            assert r[j] == rest[j - 1] && r[j] in s[1..];
            var k :| 0 <= k < |s[1..]| && s[1..][k] == r[j];
            assert s[k + 1] == r[j];
          }
        }
      }
    }
  }

  /** The changed blocks of the frame: row-major, and exactly the blocks the detector flags. */
  lemma ChangedTilesFacts(a: RgbaImage, b: RgbaImage, d: Detector, bs: nat)
    requires WellFormed(a) && WellFormed(b) && SameDimensions(a, b) && bs > 0
    ensures RowMajor(ChangedIn(a, b, d, Tiles(a.width, a.height, bs)))
    ensures forall t :: t in ChangedIn(a, b, d, Tiles(a.width, a.height, bs)) <==>
      t in Tiles(a.width, a.height, bs) && BlockChanged(a, b, d, t)
    ensures forall t :: t in ChangedIn(a, b, d, Tiles(a.width, a.height, bs)) ==> Inside(t, a.width, a.height)
  {
    ChangedInMembers(a, b, d, Tiles(a.width, a.height, bs));
    TilesInOrder(a.width, a.height, bs);
    ChangedInOrder(a, b, d, Tiles(a.width, a.height, bs));
  }

  /** Choosing from a row: the first block, then the rest of the row. */
  lemma RowStep(a: RgbaImage, b: RgbaImage, d: Detector, bs: nat, y: nat, x: nat)
    requires WellFormed(a) && WellFormed(b) && SameDimensions(a, b) && bs > 0 && y < a.height && x < a.width
    ensures ChangedIn(a, b, d, RowFrom(a.width, a.height, bs, y, x)) ==
      (if BlockChanged(a, b, d, TileAt(a.width, a.height, bs, x, y)) then [TileAt(a.width, a.height, bs, x, y)] else [])
      + ChangedIn(a, b, d, RowFrom(a.width, a.height, bs, y, x + bs))
  {
    var s := RowFrom(a.width, a.height, bs, y, x);
    assert s[0] == TileAt(a.width, a.height, bs, x, y);
    assert s[1..] == RowFrom(a.width, a.height, bs, y, x + bs);
  }

  /** Choosing from the rows: the first row, then the rows below. */
  lemma RowsStep(a: RgbaImage, b: RgbaImage, d: Detector, bs: nat, y: nat)
    requires WellFormed(a) && WellFormed(b) && SameDimensions(a, b) && bs > 0 && y < a.height
    ensures ChangedIn(a, b, d, RowsFrom(a.width, a.height, bs, y)) ==
      ChangedIn(a, b, d, RowFrom(a.width, a.height, bs, y, 0)) + ChangedIn(a, b, d, RowsFrom(a.width, a.height, bs, y + bs))
  {
    ChangedInAppend(a, b, d, RowFrom(a.width, a.height, bs, y, 0), RowsFrom(a.width, a.height, bs, y + bs));
  }

  /** The inner `(0..width).step_by(bs)` loop over the blocks of row y. */
  method ChangedInRow(a: RgbaImage, b: RgbaImage, d: Detector, bs: nat, y: nat) returns (regions: seq<Region>)
    requires WellFormed(a) && WellFormed(b) && SameDimensions(a, b) && bs > 0 && y < a.height
    ensures regions == ChangedIn(a, b, d, RowFrom(a.width, a.height, bs, y, 0))
  {
    var w, h := a.width, a.height;
    ghost var all := ChangedIn(a, b, d, RowFrom(w, h, bs, y, 0));
    regions := [];
    var x := 0;
    while x < w
      invariant regions + ChangedIn(a, b, d, RowFrom(w, h, bs, y, x)) == all
      decreases w - x
    {
      var t := TileAt(w, h, bs, x, y);
      ghost var next := ChangedIn(a, b, d, RowFrom(w, h, bs, y, x + bs));
      RowStep(a, b, d, bs, y, x);
      var changed := BlockChangedMethod(a, b, d, t);
      if changed {
        ConcatAssoc(regions, [t], next);
        regions := regions + [t];
      } else {
        assert [] + next == next;
      }
      x := x + bs;
    }
    assert regions + [] == regions;
  }

  /**
   * The nested `(0..height).step_by(bs)` / `(0..width).step_by(bs)` loops:
   * visit every clipped block and collect those the detector flags.
   */
  method ChangedTiles(a: RgbaImage, b: RgbaImage, d: Detector, bs: nat) returns (regions: seq<Region>)
    requires WellFormed(a) && WellFormed(b) && SameDimensions(a, b) && bs > 0
    ensures regions == ChangedIn(a, b, d, Tiles(a.width, a.height, bs))
  {
    var w, h := a.width, a.height;
    ghost var all := ChangedIn(a, b, d, Tiles(w, h, bs));
    regions := [];
    var y := 0;
    while y < h
      invariant regions + ChangedIn(a, b, d, RowsFrom(w, h, bs, y)) == all
      decreases h - y
    {
      RowsStep(a, b, d, bs, y);
      var row := ChangedInRow(a, b, d, bs, y);
      ConcatAssoc(regions, row, ChangedIn(a, b, d, RowsFrom(w, h, bs, y + bs)));
      regions := regions + row;
      y := y + bs;
    }
    assert regions + [] == regions;
  }
}
