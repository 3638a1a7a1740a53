/** Value types shared by every component, and the clock arithmetic of Go's time package. */
module Base {

  datatype Option<+T> = None | Some(value: T)

  datatype Result<+T, +E> = Ok(value: T) | Err(error: E)

  /** Instants and durations are integer nanoseconds. */
  const SECOND: int := 1_000_000_000

  /** time.Time.Truncate: the start of the aligned period of length `d` that holds `t`. */
  function Truncate(t: int, d: int): (start: int)
    requires d > 0
    ensures start <= t < start + d
    ensures start == d * (t / d)
  {
    t - t % d
  }

  /** A non-positive window means one second. */
  function DefaultWindow(window: int): (w: int)
    ensures w > 0 && (window > 0 ==> w == window) && (window <= 0 ==> w == SECOND)
  {
    if window <= 0 then SECOND else window
  }

  function Max(a: int, b: int): int {
    if a >= b then a else b
  }

  /** Go's integer division, which truncates toward zero. */
  function GoDiv(a: int, b: int): int
    requires b > 0
  {
    if a >= 0 then a / b else -((-a) / b)
  }

  lemma DivMonotone(a: int, b: int, d: int)
    requires d > 0 && a <= b
    ensures a / d <= b / d
  {
    var qa, qb := a / d, b / d;
    if qa > qb {
      assert d * qa >= d * (qb + 1) by {
        MulMonotone(d, qb + 1, qa);
      }
    }
  }

  lemma MulMonotone(d: int, x: int, y: int)
    requires d > 0 && x <= y
    ensures d * x <= d * y
  {
    assert d * (y - x) >= 0;
  }

  lemma GoDivMonotone(a: int, b: int, d: int)
    requires d > 0 && a <= b
    ensures GoDiv(a, d) <= GoDiv(b, d)
  {
    if a >= 0 {
      DivMonotone(a, b, d);
    } else if b < 0 {
      DivMonotone(-b, -a, d);
    } else {
      DivMonotone(0, -a, d);
      DivMonotone(0, b, d);
    }
  }

  lemma TruncateMonotone(t: int, u: int, d: int)
    requires d > 0 && t <= u
    ensures Truncate(t, d) <= Truncate(u, d)
  {
    DivMonotone(t, u, d);
    MulMonotone(d, t / d, u / d);
  }
}
