/**
 * The tiled display shared by the threaded and the serial multi-camera
 * runners: the grid shape chosen for n cameras, the tile of each camera
 * position, and the in-place write of a frame into its tile of the
 * viewport array.
 */
module Tiling {
  import opened Common

  lemma SquareStep(s: nat)
    ensures (s + 2) * (s + 2) == (s + 1) * (s + 1) + 2 * s + 3
  {
  }

  /** floor(sqrt(n)), on integers. */
  function ISqrt(n: nat): (r: nat)
    ensures r * r <= n < (r + 1) * (r + 1)
  {
    if n == 0 then 0
    else
      var s := ISqrt(n - 1);
      SquareStep(s);
      if (s + 1) * (s + 1) <= n then s + 1 else s
  }

  /** ceil(a / b) for b > 0. */
  function CeilDiv(a: nat, b: nat): (r: nat)
    requires b > 0
    ensures b * r >= a && b * (r - 1) < a
  {
    var q := (a + b - 1) / b;
    assert a + b - 1 == b * q + (a + b - 1) % b;
    q
  }

  datatype Grid = Grid(rows: nat, cols: nat)

  /** nRows = floor(sqrt(n)), nCols = ceil(n / nRows). */
  function GridShape(n: nat): (g: Grid)
    requires n >= 1
    ensures g.rows >= 1 && g.cols >= 1
  {
    var rows := ISqrt(n);
    Grid(rows, CeilDiv(n, rows))
  }

  /**
   * The grid has room for every camera, no column of it is left wholly
   * empty, and the rows are the integer square root of n.
   */
  lemma GridCovers(n: nat)
    requires n >= 1
    ensures var g := GridShape(n);
            g.rows * g.cols >= n && g.rows * (g.cols - 1) < n &&
            g.rows * g.rows <= n < (g.rows + 1) * (g.rows + 1)
  {
  }

  /** The grid is never narrower than it is tall, nor more than two columns wider. */
  lemma GridNotTooWide(n: nat)
    requires n >= 1
    ensures GridShape(n).rows <= GridShape(n).cols <= GridShape(n).rows + 2
  {
    var g := GridShape(n);
    GridCovers(n);
    ColsAtLeastRows(g.rows, g.cols, n);
    ColsAtMostRowsPlusTwo(g.rows, g.cols, n);
  }

  lemma ColsAtLeastRows(r: nat, c: nat, n: nat)
    requires r * r <= n && r * (c - 1) < n && r * c >= n
    ensures r <= c
  {
    if c < r {
      MulLess(r, c, r - 1);
    }
  }

  lemma ColsAtMostRowsPlusTwo(r: nat, c: nat, n: nat)
    requires n < (r + 1) * (r + 1) && r * (c - 1) < n
    ensures c <= r + 2
  {
    if c > r + 2 {
      MulLess(r, r + 2, c - 1);
      NearSquare(r);
    }
  }

  lemma MulLess(x: nat, y: int, z: int)
    requires 0 <= y <= z
    ensures x * y <= x * z
  {
  }

  lemma NearSquare(r: nat)
    ensures r * (r + 2) + 1 == (r + 1) * (r + 1)
  {
  }

  /** np.unravel_index(k, (nRows, nCols)): row-major position of tile k. */
  function Tile(k: nat, cols: nat): (t: (nat, nat))
    requires cols >= 1
    ensures t.1 < cols && t.0 * cols + t.1 == k
  {
    (k / cols, k % cols)
  }

  /** Every camera position has a tile inside the grid. */
  lemma TileInGrid(n: nat, k: nat)
    requires n >= 1 && k < n
    ensures Tile(k, GridShape(n).cols).0 < GridShape(n).rows
  {
    var g := GridShape(n);
    GridCovers(n);
    var i := Tile(k, g.cols).0;
    if i >= g.rows {
      MulMono(g.rows, i, g.cols);
      assert false;
    }
  }

  lemma MulMono(a: nat, b: nat, c: nat)
    requires a <= b
    ensures a * c <= b * c
  {
  }

  /** Distinct positions have distinct tiles. */
  lemma TilesDistinct(k1: nat, k2: nat, cols: nat)
    requires cols >= 1 && Tile(k1, cols) == Tile(k2, cols)
    ensures k1 == k2
  {
  }

  /** Pixel (r, c) lies in tile (i, j) of tiles h high and w wide. */
  predicate InTile(r: int, c: int, i: nat, j: nat, h: nat, w: nat)
  {
    i * h <= r < i * h + h && j * w <= c < j * w + w
  }

  lemma DivOfRange(x: int, q: nat, h: nat)
    requires h > 0 && q * h <= x < q * h + h
    ensures x / h == q
  {
    var d := x / h;
    assert x == d * h + x % h;
    if d < q {
      MulMono(d + 1, q, h);
      assert false;
    }
    if d > q {
      MulMono(q + 1, d, h);
      assert false;
    }
  }

  /** The tile a pixel lies in is determined by the pixel. */
  lemma TileOfPixel(r: int, c: int, i: nat, j: nat, h: nat, w: nat)
    requires InTile(r, c, i, j, h, w)
    ensures h > 0 && w > 0 && i == r / h && j == c / w
  {
    DivOfRange(r, i, h);
    DivOfRange(c, j, w);
  }

  /** The tiles of two distinct positions share no pixel. */
  lemma TilesDisjoint(k1: nat, k2: nat, cols: nat, h: nat, w: nat, r: int, c: int)
    requires cols >= 1 && k1 != k2
    requires InTile(r, c, Tile(k1, cols).0, Tile(k1, cols).1, h, w)
    ensures !InTile(r, c, Tile(k2, cols).0, Tile(k2, cols).1, h, w)
  {
    TileOfPixel(r, c, Tile(k1, cols).0, Tile(k1, cols).1, h, w);
    if InTile(r, c, Tile(k2, cols).0, Tile(k2, cols).1, h, w) {
      TileOfPixel(r, c, Tile(k2, cols).0, Tile(k2, cols).1, h, w);
      TilesDistinct(k1, k2, cols);
    }
  }

  /** A frame that fills one tile exactly: h rows of w pixels. */
  predicate Fits<T>(frame: seq<seq<T>>, h: nat, w: nat)
  {
    |frame| == h && forall y :: 0 <= y < h ==> |frame[y]| == w
  }

  /**
   * The viewport of the grid for n cameras of h-by-w frames, every pixel
   * the zero pixel (whose depth stands for the display pixel format).
   */
  method NewViewport<T>(n: nat, h: nat, w: nat, zero: T) returns (a: array2<T>, g: Grid)
    requires n >= 1
    ensures g == GridShape(n)
    ensures fresh(a) && a.Length0 == h * g.rows && a.Length1 == w * g.cols
    ensures forall r, c :: 0 <= r < a.Length0 && 0 <= c < a.Length1 ==> a[r, c] == zero
  {
    g := GridShape(n);
    a := new T[h * g.rows, w * g.cols]((r, c) => zero);
  }

  /**
   * viewport[i*h:(i+1)*h, j*w:(j+1)*w] = frame: the pixels of tile (i, j)
   * take the frame's pixels and every other pixel keeps its value.
   */
  method WriteTile<T>(a: array2<T>, frame: seq<seq<T>>, i: nat, j: nat, h: nat, w: nat)
    requires Fits(frame, h, w)
    requires i * h + h <= a.Length0 && j * w + w <= a.Length1
    modifies a
    ensures forall r, c :: 0 <= r < a.Length0 && 0 <= c < a.Length1 ==>
              a[r, c] == (if InTile(r, c, i, j, h, w) then frame[r - i * h][c - j * w] else old(a[r, c]))
  {
    var r0, c0 := i * h, j * w;
    var y := 0;
    while y < h
      invariant 0 <= y <= h
      invariant forall r, c :: 0 <= r < a.Length0 && 0 <= c < a.Length1 ==>
                  a[r, c] == (if r0 <= r < r0 + y && c0 <= c < c0 + w then frame[r - r0][c - c0] else old(a[r, c]))
    {
      WriteRow(a, frame[y], r0 + y, c0);
      y := y + 1;
    }
  }

  /** Copies `row` into row r of `a`, from column c0 on. */
  method WriteRow<T>(a: array2<T>, row: seq<T>, r: nat, c0: nat)
    requires r < a.Length0 && c0 + |row| <= a.Length1
    modifies a
    ensures forall y, c :: 0 <= y < a.Length0 && 0 <= c < a.Length1 ==>
              a[y, c] == (if y == r && c0 <= c < c0 + |row| then row[c - c0] else old(a[y, c]))
  {
    var x := 0;
    while x < |row|
      invariant 0 <= x <= |row|
      invariant forall y, c :: 0 <= y < a.Length0 && 0 <= c < a.Length1 ==>
                  a[y, c] == (if y == r && c0 <= c < c0 + x then row[c - c0] else old(a[y, c]))
    {
      a[r, c0 + x] := row[x];
      x := x + 1;
    }
  }

  /** A non-negative pixel lies in the tile its coordinates divide into, and that tile is position (r/h)*cols + c/w's. */
  lemma OwnTile(r: int, c: int, cols: nat, h: nat, w: nat)
    requires 0 <= r && 0 <= c && h > 0 && w > 0 && cols >= 1 && c / w < cols
    ensures InTile(r, c, r / h, c / w, h, w)
    ensures Tile((r / h) * cols + c / w, cols) == (r / h, c / w)
  {
    var k := (r / h) * cols + c / w;
    DivOfRange(k, r / h, cols);
  }

  /**
   * The pixel shown at (r, c) once positions 0 .. upto-1 have been drawn:
   * the matching pixel of the frame of the position whose tile holds
   * (r, c), when that position is among them and brought a frame, and v
   * otherwise.
   */
  ghost function Shown<T>(v: T, r: int, c: int, frames: seq<Option<seq<seq<T>>>>, upto: nat,
                          cols: nat, h: nat, w: nat): T
    requires cols >= 1 && upto <= |frames|
    requires forall k :: 0 <= k < upto && frames[k].Some? ==> Fits(frames[k].value, h, w)
  {
    if 0 <= r && 0 <= c && h > 0 && w > 0 && c / w < cols && (r / h) * cols + c / w < upto &&
       frames[(r / h) * cols + c / w].Some?
    then
      var f := frames[(r / h) * cols + c / w].value;
      assert Fits(f, h, w);
      assert |f[r % h]| == w;
      f[r % h][c % w]
    else v
  }

  /** Drawing position k changes exactly the pixels of its tile, and only when it brought a frame. */
  lemma ShownStep<T>(v: T, r: int, c: int, frames: seq<Option<seq<seq<T>>>>, k: nat, cols: nat, h: nat, w: nat)
    requires cols >= 1 && k < |frames|
    requires forall p :: 0 <= p <= k && frames[p].Some? ==> Fits(frames[p].value, h, w)
    ensures Shown(v, r, c, frames, k + 1, cols, h, w) ==
            if frames[k].Some? && InTile(r, c, Tile(k, cols).0, Tile(k, cols).1, h, w)
            then frames[k].value[r - Tile(k, cols).0 * h][c - Tile(k, cols).1 * w]
            else Shown(v, r, c, frames, k, cols, h, w)
  {
    var t := Tile(k, cols);
    if InTile(r, c, t.0, t.1, h, w) {
      TileOfPixel(r, c, t.0, t.1, h, w);
      assert r == (r / h) * h + r % h;
      assert c == (c / w) * w + c % w;
    }
    if 0 <= r && 0 <= c && h > 0 && w > 0 && c / w < cols {
      OwnTile(r, c, cols, h, w);
    }
  }

  /**
   * Where a tick over positions stops: the first position whose worker is
   * dead or whose frame does not fit its tile, or the number of positions.
   */
  function StopAt<T>(alive: seq<bool>, frames: seq<Option<seq<seq<T>>>>, h: nat, w: nat): (s: nat)
    requires |alive| == |frames|
    ensures s <= |alive|
    ensures forall k :: 0 <= k < s ==> alive[k] && (frames[k].Some? ==> Fits(frames[k].value, h, w))
    ensures s < |alive| ==> !alive[s] || (frames[s].Some? && !Fits(frames[s].value, h, w))
  {
    if |alive| == 0 then 0
    else if !alive[0] || (frames[0].Some? && !Fits(frames[0].value, h, w)) then 0
    else 1 + StopAt(alive[1..], frames[1..], h, w)
  }

  /** Tile k of a grid with room for more than k positions lies inside the viewport. */
  lemma TileInside(k: nat, g: Grid, h: nat, w: nat)
    requires g.cols >= 1 && k < g.rows * g.cols
    ensures Tile(k, g.cols).0 * h + h <= h * g.rows && Tile(k, g.cols).1 * w + w <= w * g.cols
  {
    var t := Tile(k, g.cols);
    if t.0 >= g.rows {
      MulMono(g.rows, t.0, g.cols);
    }
    MulMono(t.0 + 1, g.rows, h);
    MulMono(t.1 + 1, g.cols, w);
  }

  /** The viewport's pixels as rows of values. */
  ghost function Pixels<T>(a: array2<T>): (p: seq<seq<T>>)
    reads a
    ensures |p| == a.Length0 && forall r :: 0 <= r < a.Length0 ==> |p[r]| == a.Length1
    ensures forall r, c :: 0 <= r < a.Length0 && 0 <= c < a.Length1 ==> p[r][c] == a[r, c]
  {
    seq(a.Length0, r requires 0 <= r < a.Length0 reads a => seq(a.Length1, c requires 0 <= c < a.Length1 reads a => a[r, c]))
  }

  /** Every pixel shows what positions 0 .. k-1 drew over the original pixels `orig`. */
  ghost predicate DrawnUpTo<T>(a: array2<T>, orig: seq<seq<T>>, frames: seq<Option<seq<seq<T>>>>, k: nat,
                               cols: nat, h: nat, w: nat)
    requires cols >= 1 && k <= |frames|
    requires forall p :: 0 <= p < k && frames[p].Some? ==> Fits(frames[p].value, h, w)
    requires |orig| == a.Length0 && forall r :: 0 <= r < a.Length0 ==> |orig[r]| == a.Length1
    reads a
  {
    forall r, c :: 0 <= r < a.Length0 && 0 <= c < a.Length1 ==>
      a[r, c] == Shown(orig[r][c], r, c, frames, k, cols, h, w)
  }

  /** Before any position is drawn, the viewport shows what it held. */
  lemma DrawnNothing<T>(a: array2<T>, frames: seq<Option<seq<seq<T>>>>, cols: nat, h: nat, w: nat)
    requires cols >= 1
    ensures DrawnUpTo(a, Pixels(a), frames, 0, cols, h, w)
  {
    forall r, c | 0 <= r < a.Length0 && 0 <= c < a.Length1
      ensures a[r, c] == Shown(Pixels(a)[r][c], r, c, frames, 0, cols, h, w)
    {
      if h > 0 && w > 0 {
        MulMono(0, r / h, cols);
      }
    }
  }

  /** Draw position k: write its frame, if it brought one, into its tile. */
  method DrawStep<T>(a: array2<T>, ghost orig: seq<seq<T>>, ghost frames: seq<Option<seq<seq<T>>>>, k: nat,
                     frame: Option<seq<seq<T>>>, g: Grid, h: nat, w: nat)
    requires g.cols >= 1 && k < |frames| && k < g.rows * g.cols && frames[k] == frame
    requires forall p :: 0 <= p <= k && frames[p].Some? ==> Fits(frames[p].value, h, w)
    requires a.Length0 == h * g.rows && a.Length1 == w * g.cols
    requires |orig| == a.Length0 && forall r :: 0 <= r < a.Length0 ==> |orig[r]| == a.Length1
    requires DrawnUpTo(a, orig, frames, k, g.cols, h, w)
    modifies a
    ensures DrawnUpTo(a, orig, frames, k + 1, g.cols, h, w)
  {
    if frame.Some? {
      var (i, j) := Tile(k, g.cols);
      TileInside(k, g, h, w);
      WriteTile(a, frame.value, i, j, h, w);
    }
    forall r, c | 0 <= r < a.Length0 && 0 <= c < a.Length1
      ensures a[r, c] == Shown(orig[r][c], r, c, frames, k + 1, g.cols, h, w)
    {
      ShownStep(orig[r][c], r, c, frames, k, g.cols, h, w);
    }
  }
}
