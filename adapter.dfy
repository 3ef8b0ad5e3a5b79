/**
 * The adapter-neutral helpers: JavaScript's truncating remainder and the
 * array rotation used to reorder weekday labels.
 */
module Adapter {

  /**
   * JavaScript's `%` on integers: the remainder takes the sign of the
   * dividend (it truncates toward zero), unlike Dafny's Euclidean `%`.
   */
  function JsRem(a: int, b: int): (r: int)
    requires b > 0
    ensures -b < r < b
    ensures a >= 0 ==> r == a % b
    ensures a < 0 ==> r <= 0
  {
    if a >= 0 then a % b else -((-a) % b)
  }

  /** A remainder is determined by any quotient-remainder decomposition. */
  lemma ModUnique(x: int, b: int, q: int, r: int)
    requires b > 0 && 0 <= r < b && x == q * b + r
    ensures x % b == r
  {
    var q0, r0 := x / b, x % b;
    var d := q - q0;
    assert d * b == q * b - q0 * b;
    assert d * b == r0 - r;
    if d >= 1 {
      MulAtLeast(d, b);
    } else if d <= -1 {
      assert (-d) * b == -(d * b);
      MulAtLeast(-d, b);
    }
  }

  lemma {:induction false} MulAtLeast(d: int, b: int)
    requires d >= 1 && b > 0
    ensures d * b >= b
    decreases d
  {
    if d > 1 {
      MulAtLeast(d - 1, b);
      assert d * b == (d - 1) * b + b;
    }
  }

  /** Adding a JavaScript remainder and the divisor, then reducing, gives the Euclidean remainder. */
  lemma JsRemNormalizes(a: int, b: int)
    requires b > 0
    ensures JsRem(JsRem(a, b) + b, b) == a % b
  {
    if a >= 0 {
      ModUnique(a % b + b, b, 1, a % b);
    } else {
      var q, r := (-a) / b, (-a) % b;
      assert -a == q * b + r;
      if r == 0 {
        ModUnique(a, b, -q, 0);
        ModUnique(b, b, 1, 0);
      } else {
        ModUnique(a, b, -q - 1, b - r);
      }
    }
  }

  /** A JavaScript remainder and its dividend agree modulo the divisor. */
  lemma JsRemMod(a: int, b: int)
    requires b > 0
    ensures JsRem(a, b) % b == a % b
  {
    if a < 0 {
      var q, r := (-a) / b, (-a) % b;
      assert -a == q * b + r;
      ModUnique(a, b, if r == 0 then -q else -q - 1, if r == 0 then 0 else b - r);
      ModUnique(-r, b, if r == 0 then 0 else -1, if r == 0 then 0 else b - r);
    }
  }

  /**
   * Rotate left by `step` places; a negative `step` rotates right. The offset is
   * normalised exactly as the source does, with JavaScript remainders; an
   * empty array gives an empty array.
   */
  function Rotate<T>(arr: seq<T>, step: int): (r: seq<T>)
    ensures |r| == |arr|
  {
    if |arr| == 0 then []
    else
      var n := JsRem(JsRem(step, |arr|) + |arr|, |arr|);
      arr[n..] + arr[..n]
  }

  /** Element i of the rotation is element (i + step) mod |arr| of the input. */
  lemma RotateAt<T>(arr: seq<T>, step: int, i: int)
    requires 0 <= i < |arr|
    ensures Rotate(arr, step)[i] == arr[(i + step) % |arr|]
  {
    var len := |arr|;
    JsRemNormalizes(step, len);
    var n := step % len;
    assert Rotate(arr, step) == arr[n..] + arr[..n];
    ModUnique(step, len, step / len, n);
    if i < len - n {
      ModUnique(i + step, len, step / len, i + n);
    } else {
      ModUnique(i + step, len, step / len + 1, i + n - len);
    }
  }

  /** Rotating by any multiple of the length, 0 included, is the identity. */
  lemma RotateMultiple<T>(arr: seq<T>, k: int)
    ensures Rotate(arr, k * |arr|) == arr
  {
    forall i | 0 <= i < |arr|
      ensures Rotate(arr, k * |arr|)[i] == arr[i]
    {
      RotateAt(arr, k * |arr|, i);
      ModUnique(i + k * |arr|, |arr|, k, i);
    }
  }

  /** A right rotation by k undoes a left rotation by k. */
  lemma RotateInverse<T>(arr: seq<T>, k: int)
    ensures Rotate(Rotate(arr, k), -k) == arr
  {
    var len := |arr|;
    var once := Rotate(arr, k);
    forall i | 0 <= i < len
      ensures Rotate(once, -k)[i] == arr[i]
    {
      RotateAt(once, -k, i);
      RotateAt(arr, k, (i - k) % len);
      ModShiftBack(i, k, len);
    }
  }

  /** Stepping back by k and then forward by k, modulo len, returns to i. */
  lemma ModShiftBack(i: int, k: int, len: int)
    requires 0 <= i < len
    ensures ((i - k) % len + k) % len == i
  {
    var q, j := (i - k) / len, (i - k) % len;
    assert i - k == q * len + j;
    assert (-q) * len == -(q * len);
    ModUnique(j + k, len, -q, i);
  }

  /** Rotation only reorders: the multiset of elements is unchanged. */
  lemma RotatePermutes<T>(arr: seq<T>, step: int)
    ensures multiset(Rotate(arr, step)) == multiset(arr)
  {
    if |arr| > 0 {
      var n := JsRem(JsRem(step, |arr|) + |arr|, |arr|);
      assert arr == arr[..n] + arr[n..];
    }
  }

  /** Days of the week counted from Sunday = 0, as the adapters report the locale's first day. */
  type WeekStart = x: int | 0 <= x <= 6
}
