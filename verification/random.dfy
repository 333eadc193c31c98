/** The bounded random helpers of the server (`server/src/utils.ts`).
    `Math.random()` is not modelled as a generator: each call site receives the
    value it would have drawn, a `Draw` in [0, 1). */
module Random {

  /** One value of `Math.random()`. */
  type Draw = r: real | 0.0 <= r < 1.0

  /** `Math.floor(r * n)`: an index into a collection of `n` elements. */
  function ScaledIndex(r: Draw, n: int): (k: int)
    ensures n >= 1 ==> 0 <= k < n
    ensures n <= 0 ==> n <= k <= 0
  {
    ScaledIndexBounds(r, n);
    (r * n as real).Floor
  }

  lemma ScaledIndexBounds(r: Draw, n: int)
    ensures n >= 1 ==> 0 <= (r * n as real).Floor < n
    ensures n <= 0 ==> n <= (r * n as real).Floor <= 0
  {
    var N := n as real;
    if n >= 1 {
      assert 0.0 <= r * N;
      assert r * N < N by {
        assert (1.0 - r) * N > 0.0;
      }
    } else {
      assert r * N <= 0.0;
      assert N <= r * N by {
        assert (1.0 - r) * (-N) >= 0.0;
      }
    }
  }

  /** `getRandomInt(min, max)`: `Math.floor(Math.random() * (max - min + 1)) + min`. */
  function GetRandomInt(min: int, max: int, r: Draw): (v: int)
    ensures min <= max ==> min <= v <= max
  {
    ScaledIndex(r, max - min + 1) + min
  }

  /** Every value of [min, max] is produced by some draw, the two ends included. */
  lemma GetRandomIntReaches(min: int, max: int, k: int)
    requires min <= max && 0 <= k <= max - min
    ensures exists r: Draw :: GetRandomInt(min, max, r) == min + k
  {
    var N := (max - min + 1) as real;
    var r: Draw := k as real / N;
    assert r * N == k as real;
    assert GetRandomInt(min, max, r) == min + k;
  }

  lemma GetRandomIntEndpoints(min: int, max: int)
    requires min <= max
    ensures GetRandomInt(min, max, 0.0) == min
    ensures exists r: Draw :: GetRandomInt(min, max, r) == max
  {
    GetRandomIntReaches(min, max, max - min);
  }

  /** An integer point, as `getRandomPositions` returns it. */
  datatype Point = Point(x: int, y: int)

  /** `getRandomPositions(xMin, xMax, yMin, yMax)`; `rx` is drawn first, then `ry`. */
  function GetRandomPositions(xMin: int, xMax: int, yMin: int, yMax: int, rx: Draw, ry: Draw): (p: Point)
    ensures xMin <= xMax ==> xMin <= p.x <= xMax
    ensures yMin <= yMax ==> yMin <= p.y <= yMax
  {
    Point(GetRandomInt(xMin, xMax, rx), GetRandomInt(yMin, yMax, ry))
  }

  const DefaultXMax := 1280
  const DefaultYMax := 720

  /** The two draws of one `getRandomPositions()` call. */
  datatype PointDraw = PointDraw(rx: Draw, ry: Draw)

  /** `getRandomPositions()` with its default bounds, as both servers call it. */
  function DefaultPosition(d: PointDraw): (p: Point)
    ensures 0 <= p.x <= 1280 && 0 <= p.y <= 720
  {
    GetRandomPositions(0, DefaultXMax, 0, DefaultYMax, d.rx, d.ry)
  }

  /** The x coordinate depends on the x draw only, and the y coordinate on the y draw only. */
  lemma PositionAxesIndependent(xMin: int, xMax: int, yMin: int, yMax: int, rx: Draw, ry: Draw, rx': Draw, ry': Draw)
    ensures GetRandomPositions(xMin, xMax, yMin, yMax, rx, ry).x == GetRandomPositions(xMin, xMax, yMin, yMax, rx, ry').x
    ensures GetRandomPositions(xMin, xMax, yMin, yMax, rx, ry).y == GetRandomPositions(xMin, xMax, yMin, yMax, rx', ry).y
  {
  }
}
