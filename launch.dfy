/**
 * Kernel launch geometry (cuda/util.go): how many blocks of how many threads a
 * kernel over N elements, or over an Nx x Ny x Nz grid, is launched with.
 */
module Launch {
  import opened Types

  /** cu.Dim3: a block or grid shape. */
  datatype Dim3 = Dim3(x: int, y: int, z: int)

  /** A launch configuration: the grid of blocks and the shape of one block. */
  datatype Config = Config(grid: Dim3, block: Dim3)

  /**
   * The package's tuning variables BlockSize, TileX, TileY and MaxGridSize.
   * They are mutable in the source, so every operation takes them as a value.
   */
  datatype Tuning = Tuning(blockSize: int, tileX: int, tileY: int, maxGridSize: int) {
    predicate Valid() {
      blockSize >= 1 && tileX >= 1 && tileY >= 1 && maxGridSize >= 1
    }
  }

  /** The values the package variables start with. */
  const Default: Tuning := Tuning(512, 32, 32, 65535)

  function Abs(a: int): (r: nat) {
    if a < 0 then -a else a
  }

  /**
   * Go's integer division `a / b`, which truncates toward zero. The contract is
   * the Go language definition: `a == q*b + r` with `|r| < |b|` and `r` of the
   * sign of `a`.
   */
  function GoDiv(a: int, b: int): (q: int)
    requires b != 0
    ensures Abs(a - q * b) < Abs(b)
    ensures a >= 0 ==> a - q * b >= 0
    ensures a <= 0 ==> a - q * b <= 0
  {
    if b > 0 then
      if a >= 0 then
        EuclidNonNeg(a, b);
        a / b
      else
        EuclidNonNeg(-a, b);
        NegMul((-a) / b, b);
        -((-a) / b)
    else
      if a >= 0 then
        EuclidNonNeg(a, -b);
        NegMulBoth(a / (-b), b);
        -(a / (-b))
      else
        EuclidNonNeg(-a, -b);
        NegMul((-a) / (-b), -b);
        (-a) / (-b)
  }

  /** Dafny's division on non-negative operands leaves a remainder in [0, b). */
  lemma EuclidNonNeg(a: int, b: int)
    requires a >= 0 && b > 0
    ensures 0 <= a - (a / b) * b < b
  {
    assert a == (a / b) * b + a % b;
  }

  lemma NegMul(m: int, b: int)
    ensures (-m) * b == -(m * b)
  {
  }

  lemma NegMulBoth(m: int, b: int)
    ensures (-m) * b == m * (-b)
  {
  }

  /** divUp: integer division rounded up, written `((x - 1) / y) + 1` with Go's division. */
  function DivUp(x: int, y: int): (r: int)
    requires y != 0
    ensures x >= 1 && y >= 1 ==> r >= 1 && r * y >= x && (r - 1) * y < x
  {
    var q := GoDiv(x - 1, y);
    assert x >= 1 && y >= 1 ==> q * y >= 0 && q >= 0 by {
      if x >= 1 && y >= 1 {
        assert q * y > -y;
        if q < 0 {
          MulLeNeg(q, y);
        }
      }
    }
    q + 1
  }

  /** iMin: the smaller of two integers. */
  function IMin(a: int, b: int): (r: int)
    ensures r <= a && r <= b
    ensures r == a || r == b
  {
    if a < b then a else b
  }

  /**
   * make1DConf: blocks of BlockSize threads; if more blocks are needed than fit
   * along one grid axis, they are spread over two.
   */
  function Make1DConf(t: Tuning, n: int): (c: Config)
    requires t.Valid() && Make1DDefined(t, n)
  {
    var n2 := DivUp(n, t.blockSize);
    var nx := DivUp(n2, t.maxGridSize);
    var ny := DivUp(n2, nx);
    Config(Dim3(nx, ny, 1), Dim3(t.blockSize, 1, 1))
  }

  /**
   * The third divUp of make1DConf divides by the column count; Go panics when
   * that count is zero. Make1DUndefinedExactly says when that happens.
   */
  predicate Make1DDefined(t: Tuning, n: int)
    requires t.Valid()
  {
    DivUp(DivUp(n, t.blockSize), t.maxGridSize) != 0
  }

  /** make3DConf: TileX x TileY tiles in x and y, one block layer per z slice. */
  function Make3DConf(t: Tuning, n: Int3): (c: Config)
    requires t.Valid()
  {
    var nx := DivUp(n.x, t.tileX);
    var ny := DivUp(n.y, t.tileY);
    Config(Dim3(nx, ny, n.z), Dim3(t.tileX, t.tileY, 1))
  }

  // ---------------------------------------------------------------------------
  // Arithmetic helpers

  lemma MulLeNeg(q: int, y: int)
    requires q < 0 && y >= 1
    ensures q * y <= -y
    decreases -q
  {
    assert q * y == (q + 1) * y - y;
    if q + 1 < 0 {
      MulLeNeg(q + 1, y);
    } else {
      assert (q + 1) * y == 0;
    }
  }

  lemma MulMonotone(a: int, b: int, c: int)
    requires a >= b && c >= 0
    ensures a * c >= b * c
  {
    assert a * c - b * c == (a - b) * c;
    MulNonNeg(a - b, c);
  }

  lemma MulNonNeg(a: int, c: int)
    requires a >= 0 && c >= 0
    ensures a * c >= 0
  {
  }

  /** From `a*c < b*c` with `c > 0` conclude `a < b`. */
  lemma MulCancelLt(a: int, b: int, c: int)
    requires c >= 1 && a * c < b * c
    ensures a < b
  {
    if a >= b {
      MulMonotone(a, b, c);
    }
  }

  // ---------------------------------------------------------------------------
  // divUp

  /** divUp is ceiling division: for x, y >= 1 it is the one q with (q-1)*y < x <= q*y. */
  lemma {:induction false} DivUpIsCeiling(x: int, y: int, q: int)
    requires x >= 1 && y >= 1
    ensures q == DivUp(x, y) <==> (q - 1) * y < x <= q * y
  {
    var r := DivUp(x, y);
    if (q - 1) * y < x <= q * y {
      if q < r {
        MulMonotone(r - 1, q, y);
      } else if q > r {
        MulMonotone(q - 1, r, y);
      }
    }
  }

  /** With Go's truncating division, divUp(0, y) is 1 for y >= 2 and 0 for y == 1. */
  lemma DivUpOfZero(y: int)
    requires y >= 1
    ensures DivUp(0, y) == if y == 1 then 0 else 1
  {
    if y > 1 {
      assert Abs(-1) / Abs(y) == 0;
    }
  }

  // ---------------------------------------------------------------------------
  // make1DConf

  /** The 1D block is (BlockSize, 1, 1) and the grid has a single z layer. */
  lemma Make1DShape(t: Tuning, n: int)
    requires t.Valid() && Make1DDefined(t, n)
    ensures Make1DConf(t, n).block == Dim3(t.blockSize, 1, 1)
    ensures Make1DConf(t, n).grid.z == 1
  {
  }

  /**
   * make1DConf panics exactly when divUp(N, BlockSize) lies between
   * 2 - 2*MaxGridSize and 1 - MaxGridSize, which needs N <= 0.
   */
  lemma Make1DUndefinedExactly(t: Tuning, n: int)
    requires t.Valid()
    ensures var n2 := DivUp(n, t.blockSize);
      !Make1DDefined(t, n) <==> 2 - 2 * t.maxGridSize <= n2 <= 1 - t.maxGridSize
    ensures !Make1DDefined(t, n) ==> n <= 0
  {
    var n2 := DivUp(n, t.blockSize);
    GoDivMinusOne(n2 - 1, t.maxGridSize);
  }

  /** The panic is not confined to MaxGridSize == 1: it also hits the default tuning. */
  lemma Make1DUndefinedExamples()
    ensures !Make1DDefined(Tuning(1, 1, 1, 2), -1)
    ensures !Make1DDefined(Default, -65535 * 512 + 1)
  {
    Make1DUndefinedExactly(Tuning(1, 1, 1, 2), -1);
    Make1DUndefinedExactly(Default, -65535 * 512 + 1);
    assert DivUp(-1, 1) == -1;
    assert DivUp(-65535 * 512 + 1, 512) == -65534;
  }

  /** Go's a / b is -1 exactly when -2b < a <= -b. */
  lemma GoDivMinusOne(a: int, b: int)
    requires b >= 1
    ensures GoDiv(a, b) == -1 <==> -2 * b < a <= -b
  {
    var q := GoDiv(a, b);
    if -2 * b < a <= -b {
      // -b < a - q*b <= 0 gives q*b < a + b <= 0 and q*b >= a > -2b
      assert q * b < 0 * b;
      MulCancelLt(q, 0, b);
      assert (-2) * b < q * b;
      MulCancelLt(-2, q, b);
    }
  }

  /**
   * With Go's division, N = 0 is launched as a single block when BlockSize and
   * MaxGridSize are both at least 2, as with the default tuning.
   */
  lemma Make1DEmpty(t: Tuning)
    requires t.Valid() && t.blockSize >= 2 && t.maxGridSize >= 2
    ensures Make1DDefined(t, 0) && Make1DConf(t, 0).grid == Dim3(1, 1, 1)
  {
    DivUpOfZero(t.blockSize);
    assert DivUp(1, t.maxGridSize) == 1 by {
      DivUpIsCeiling(1, t.maxGridSize, 1);
    }
    assert DivUp(1, 1) == 1 by {
      DivUpIsCeiling(1, 1, 1);
    }
  }

  /**
   * The grid covers all N threads, holds at least divUp(N, BlockSize) blocks,
   * and leaves less than one grid row of surplus blocks.
   */
  lemma {:induction false} Make1DCovers(t: Tuning, n: int)
    requires t.Valid() && n >= 1
    ensures Make1DDefined(t, n)
    ensures var c := Make1DConf(t, n);
      c.grid.x >= 1 && c.grid.y >= 1 &&
      c.grid.x * c.grid.y * c.block.x >= n &&
      c.grid.x * c.grid.y >= DivUp(n, t.blockSize) &&
      c.grid.x * (c.grid.y - 1) < DivUp(n, t.blockSize)
  {
    var n2 := DivUp(n, t.blockSize);
    var nx := DivUp(n2, t.maxGridSize);
    var ny := DivUp(n2, nx);
    assert nx * ny == ny * nx;
    MulMonotone(nx * ny, n2, t.blockSize);
    assert nx * (ny - 1) == (ny - 1) * nx;
  }

  /**
   * Grid.Y never exceeds MaxGridSize; Grid.X does not either exactly when at
   * most MaxGridSize^2 blocks are needed; and a problem that fits in one grid row is
   * launched as a single column of divUp(N, BlockSize) blocks.
   */
  lemma {:induction false} Make1DBounds(t: Tuning, n: int)
    requires t.Valid() && n >= 1
    ensures Make1DDefined(t, n)
    ensures var c := Make1DConf(t, n);
      c.grid.y <= t.maxGridSize &&
      (DivUp(n, t.blockSize) <= t.maxGridSize * t.maxGridSize <==> c.grid.x <= t.maxGridSize) &&
      (n <= t.blockSize * t.maxGridSize ==> c.grid.x == 1 && c.grid.y == DivUp(n, t.blockSize))
  {
    var g := t.maxGridSize;
    var n2 := DivUp(n, t.blockSize);
    var nx := DivUp(n2, g);
    var ny := DivUp(n2, nx);
    // (ny - 1) * nx < n2 <= nx * g, so ny - 1 < g
    assert nx * g == g * nx;
    MulCancelLt(ny - 1, g, nx);
    if n2 <= g * g {
      MulCancelLt(nx - 1, g, g);
    } else {
      // g * g < n2 <= nx * g, so nx > g
      MulCancelLt(g, nx, g);
    }
    if n <= t.blockSize * g {
      assert t.blockSize * g == g * t.blockSize;
      MulCancelLt(n2 - 1, g, t.blockSize);
      assert (nx - 1) * g < g == 1 * g;
      MulCancelLt(nx - 1, 1, g);
      assert nx == 1;
    }
  }

  /**
   * Grid.X can exceed MaxGridSize: with the default tuning, N = 512 * (65535^2 + 1)
   * needs 65535^2 + 1 blocks, which make1DConf spreads as 65536 x 65535.
   */
  lemma Make1DGridXCanExceedMax()
    ensures Make1DDefined(Default, 512 * (65535 * 65535 + 1))
    ensures Make1DConf(Default, 512 * (65535 * 65535 + 1)).grid == Dim3(65536, 65535, 1)
  {
    var n := 512 * (65535 * 65535 + 1);
    var n2 := 65535 * 65535 + 1;
    assert DivUp(n, 512) == n2 by {
      DivUpIsCeiling(n, 512, n2);
    }
    assert DivUp(n2, 65535) == 65536 by {
      DivUpIsCeiling(n2, 65535, 65536);
    }
    assert DivUp(n2, 65536) == 65535 by {
      DivUpIsCeiling(n2, 65536, 65535);
    }
  }

  // ---------------------------------------------------------------------------
  // make3DConf

  /** The 3D block is (TileX, TileY, 1) and there is one block layer per z slice. */
  lemma Make3DShape(t: Tuning, n: Int3)
    requires t.Valid()
    ensures Make3DConf(t, n).block == Dim3(t.tileX, t.tileY, 1)
    ensures Make3DConf(t, n).grid.z == n.z
  {
  }

  /** The tiles cover Nx and Ny, and both tile counts are the least that do. */
  lemma Make3DCoversMinimally(t: Tuning, n: Int3)
    requires t.Valid() && n.x >= 1 && n.y >= 1
    ensures var c := Make3DConf(t, n);
      c.grid.x * t.tileX >= n.x && (c.grid.x - 1) * t.tileX < n.x &&
      c.grid.y * t.tileY >= n.y && (c.grid.y - 1) * t.tileY < n.y
  {
  }
}
