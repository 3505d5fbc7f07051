/**
 * The two `calculateDistance` methods of the source: the shared room's squared Euclidean
 * distance (src/game/maps/common.ts) and the tail-tag room's override
 * (src/game/maps/tail-tag.ts), which reads positions by the numeric keys 0 and 2.
 *
 * A `{x, y, z}` object has no such keys, so the override computes on `undefined`; the
 * JavaScript numbers below carry NaN far enough to say what its comparisons give.
 */
module Distance {
  import opened Player

  lemma Square(x: real)
    ensures x * x >= 0.0
    ensures x == 0.0 ==> x * x == 0.0
  {
    if x > 0.0 {
      assert x * x > 0.0 * x;
    } else if x < 0.0 {
      var y := -x;
      assert y * y > 0.0 * y;
      assert x * x == y * y;
    } else {
      assert x * x == 0.0 * x;
    }
  }

  /** The shared `calculateDistance`: the squared Euclidean distance. */
  function DistanceSquared(p: Position, q: Position): (d: real)
    ensures d >= 0.0
    ensures p == q ==> d == 0.0
  {
    Square(q.x - p.x);
    Square(q.y - p.y);
    Square(q.z - p.z);
    (q.x - p.x) * (q.x - p.x) + (q.y - p.y) * (q.y - p.y) + (q.z - p.z) * (q.z - p.z)
  }

  lemma DistanceSymmetric(p: Position, q: Position)
    ensures DistanceSquared(p, q) == DistanceSquared(q, p)
  {
  }

  // ---------------------------------------------------------------------------
  // The tail-tag override, as written
  // ---------------------------------------------------------------------------

  /** A JavaScript number, as far as the distance code needs one. */
  datatype JsNumber = Num(value: real) | NaN

  /** `pos[0]` and `pos[2]` on a `{x, y, z}` object: no such key, so `undefined`, which is NaN in arithmetic. */
  function NumericKey(p: Position, key: nat): JsNumber {
    NaN
  }

  function JsSub(a: JsNumber, b: JsNumber): JsNumber {
    if a.Num? && b.Num? then Num(a.value - b.value) else NaN
  }

  function JsMul(a: JsNumber, b: JsNumber): JsNumber {
    if a.Num? && b.Num? then Num(a.value * b.value) else NaN
  }

  function JsAdd(a: JsNumber, b: JsNumber): JsNumber {
    if a.Num? && b.Num? then Num(a.value + b.value) else NaN
  }

  /**
   * `Math.sqrt(v) <= limit`: false for NaN and for the root of a negative number (NaN too),
   * and for a negative limit, since a root is never negative.
   */
  predicate SqrtAtMost(v: JsNumber, limit: real) {
    v.Num? && v.value >= 0.0 && limit >= 0.0 && v.value <= limit * limit
  }

  /** The number under the square root in the tail-tag `calculateDistance`, indexing positions by 0 and 2. */
  function StealDistanceSquaredAsWritten(p: Position, q: Position): (d: JsNumber)
    ensures d == NaN
  {
    var dx := JsSub(NumericKey(p, 0), NumericKey(q, 0));
    var dz := JsSub(NumericKey(p, 2), NumericKey(q, 2));
    JsAdd(JsMul(dx, dx), JsMul(dz, dz))
  }

  /** Whatever the bound, the tail-tag `calculateDistance` as written never compares at or below it. */
  lemma AsWrittenNeverAtMost(p: Position, q: Position, limit: real)
    ensures !SqrtAtMost(StealDistanceSquaredAsWritten(p, q), limit)
  {
  }
}
