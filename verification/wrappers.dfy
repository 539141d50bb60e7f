/** Optional values, for the source's `null` and `undefined`. */
module Wrappers {
  datatype Option<+T> = None | Some(value: T) {
    function GetOr(default: T): T {
      match this
      case Some(v) => v
      case None => default
    }
  }

  function Max(a: int, b: int): int {
    if a < b then b else a
  }

  function Min(a: int, b: int): int {
    if a < b then a else b
  }

  /** The index chosen by a uniform draw: a draw below one, scaled to a count and rounded down, is below the count. */
  function DrawnIndex(draw: real, count: nat): (i: nat)
    requires 0.0 <= draw < 1.0 && count > 0
    ensures i < count
  {
    var scaled := draw * count as real;
    ScaledBelow(draw, count as real, scaled);
    FloorBelow(scaled, count);
    scaled.Floor
  }

  lemma FloorBelow(x: real, count: nat)
    requires 0.0 <= x < count as real
    ensures 0 <= x.Floor < count
  {
    assert x.Floor as real <= x;
  }

  lemma ScaledBelow(draw: real, count: real, scaled: real)
    requires 0.0 <= draw < 1.0 && count > 0.0 && scaled == draw * count
    ensures 0.0 <= scaled < count
  {
    var rest := (1.0 - draw) * count;
    ProductIsPositive(1.0 - draw, count);
    assert rest > 0.0 && scaled + rest == count;
    if draw > 0.0 {
      ProductIsPositive(draw, count);
    }
  }

  lemma ProductIsPositive(a: real, b: real)
    requires a > 0.0 && b > 0.0
    ensures a * b > 0.0
  {
  }
}
