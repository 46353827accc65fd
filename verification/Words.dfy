/** Machine words, options, and two-dimensional arrays seen as sequences of rows. */
module Words {
  type byte = x: int | 0 <= x < 0x100
  type word = x: int | 0 <= x < 0x1_0000

  datatype Option<+T> = None | Some(value: T)

  function Join(hi: byte, lo: byte): (w: word) {
    hi * 0x100 + lo
  }

  function High(w: int): (b: byte) {
    w / 0x100 % 0x100
  }

  function Low(w: int): (b: byte) {
    w % 0x100
  }

  function Min(a: int, b: int): int {
    if a < b then a else b
  }

  function Max(a: int, b: int): int {
    if a < b then b else a
  }

  function Power2(n: nat): (r: nat)
    ensures r > 0
  {
    if n == 0 then 1 else 2 * Power2(n - 1)
  }

  /** A number shifted left, or right, n bits. */
  function LeftBy(a: nat, n: nat): nat
    decreases n
  {
    if n == 0 then a else LeftBy(2 * a, n - 1)
  }

  function RightBy(a: nat, n: nat): nat
    decreases n
  {
    if n == 0 then a else RightBy(a / 2, n - 1)
  }

  lemma ModUnique(a: int, n: int, q: int, r: int)
    requires n > 0 && 0 <= r < n && a == n * q + r
    ensures a % n == r
  {
    var d := q - a / n;
    assert n * d == a % n - r;
    MulBounds(n, d);
  }

  lemma {:induction false} MulBounds(n: int, d: int)
    requires n > 0
    ensures d > 0 ==> n * d >= n
    ensures d < 0 ==> n * d <= -n
    decreases if d < 0 then -d else d
  {
    if d > 0 {
      assert n * d == n * (d - 1) + n;
      MulBounds(n, d - 1);
    } else if d < 0 {
      assert n * d == n * (d + 1) - n;
      MulBounds(n, d + 1);
    }
  }

  lemma ModWraps(a: int, n: int)
    requires 0 <= a < 2 * n
    ensures a % n == if a < n then a else a - n
  {
    ModUnique(a, n, if a < n then 0 else 1, if a < n then a else a - n);
  }

  /** a moved on by d, round a circle of n. */
  function Rotate(a: nat, d: nat, n: nat): (r: nat)
    requires a < n && d < n
    ensures r == if a + d < n then a + d else a + d - n
  {
    ModWraps(a + d, n);
    (a + d) % n
  }
}

module Grids {
  /** A grid with h rows of w elements. */
  ghost predicate Shaped<T>(g: seq<seq<T>>, h: nat, w: nat) {
    |g| == h && forall i :: 0 <= i < h ==> |g[i]| == w
  }

  /** The grid with one element replaced. */
  ghost function Put<T>(g: seq<seq<T>>, i: nat, j: nat, v: T): (r: seq<seq<T>>)
    requires i < |g| && j < |g[i]|
    ensures |r| == |g|
    ensures forall k :: 0 <= k < |g| ==> |r[k]| == |g[k]|
    ensures forall k, l :: 0 <= k < |g| && 0 <= l < |g[k]| ==> r[k][l] == if k == i && l == j then v else g[k][l]
  {
    g[i := g[i][j := v]]
  }

  /** The array's contents, row by row, are g. */
  ghost predicate Holds<T>(a: array2<T>, g: seq<seq<T>>)
    reads a
  {
    && Shaped(g, a.Length0, a.Length1)
    && forall i, j :: 0 <= i < a.Length0 && 0 <= j < a.Length1 ==> a[i, j] == g[i][j]
  }

  /** Grids of one shape are equal when they agree everywhere. */
  lemma SameGrid<T>(g: seq<seq<T>>, h: seq<seq<T>>, rows: nat, cols: nat)
    requires Shaped(g, rows, cols) && Shaped(h, rows, cols)
    requires forall i, j :: 0 <= i < rows && 0 <= j < cols ==> g[i][j] == h[i][j]
    ensures g == h
  {
    forall i | 0 <= i < rows ensures g[i] == h[i] {
      assert |g[i]| == |h[i]|;
    }
  }
}
