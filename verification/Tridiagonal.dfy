/** The tridiagonal solver behind the smooth line: one forward and one backward pass over an array,
    in place.  Coordinates are reals; rounding is not modelled. */
module Tridiagonal {

  /** The diagonal of the system: 2, 4, ..., 4, 3.5. */
  function Diagonal(i: nat, n: nat): real {
    if i == 0 then 2.0 else if i < n - 1 then 4.0 else 3.5
  }

  /** d[i] * x */
  function OnDiagonal(i: nat, n: nat, x: real): real {
    if i == 0 then 2.0 * x else if i < n - 1 then 4.0 * x else 3.5 * x
  }

  /** Row i of the system: x[i-1] + d[i] * x[i] + x[i+1] = r[i], without the neighbours that are not there. */
  predicate Row(x: seq<real>, r: seq<real>, i: nat)
    requires i < |x| == |r|
  {
    (if i > 0 then x[i - 1] else 0.0) + OnDiagonal(i, |x|, x[i]) + (if i + 1 < |x| then x[i + 1] else 0.0) == r[i]
  }

  predicate Solves(x: seq<real>, r: seq<real>) {
    |x| == |r| && forall i :: 0 <= i < |x| ==> Row(x, r, i)
  }

  // ---------------------------------------------------------------- one row of the elimination

  predicate Inverse(t: real, b: real) {
    t * b == 1.0
  }

  lemma Reciprocal(b: real)
    requires b >= 2.0
    ensures 0.0 < 1.0 / b <= 0.5 && Inverse(1.0 / b, b)
  {
  }

  /** The pivot b and right-hand side y of a row, after the forward pass: b * y = r - y of the row before. */
  predicate Forward(b: real, y: real, r: real, before: real) {
    b * y == r - before
  }

  lemma DivideForward(b: real, r: real, before: real)
    requires b >= 2.0
    ensures Forward(b, (r - before) / b, r, before)
  {
  }

  /** The row after the backward pass: x = y - t * x of the row after, where t is the reciprocal of the pivot. */
  predicate Backward(x: real, y: real, t: real, next: real) {
    x == y - t * next
  }

  /** The pivot of a row is its diagonal less the reciprocal u of the pivot before.  Undoing both
      passes gives the row of the system back. */
  lemma UndoPasses(d: real, u: real, b: real, t: real, before: real, x: real, next: real, yBefore: real, y: real, r: real)
    requires b == d - u && Inverse(t, b)
    requires Forward(b, y, r, yBefore) && Backward(x, y, t, next) && Backward(before, yBefore, u, x)
    ensures before + d * x + next == r
  {
  }

  lemma UndoLastPasses(d: real, u: real, b: real, before: real, x: real, yBefore: real, r: real)
    requires b == d - u && Forward(b, x, r, yBefore) && Backward(before, yBefore, u, x)
    ensures before + d * x == r
  {
  }

  lemma UndoFirstPasses(x: real, next: real, y: real, t: real, r: real)
    requires Inverse(t, 2.0) && 2.0 * y == r && Backward(x, y, t, next)
    ensures 2.0 * x + next == r
  {
  }

  /** The first k pivots, and the reciprocals t of the pivots before them. */
  ghost predicate Pivots(pivots: seq<real>, t: seq<real>, k: nat) {
    && 1 <= k == |pivots| && k <= |t| && pivots[0] == 2.0
    && (forall i :: 0 <= i < k ==> pivots[i] >= 2.0)
    && (forall i {:trigger t[i]} :: 1 <= i < k ==> Inverse(t[i], pivots[i - 1]) && pivots[i] == Diagonal(i, |t|) - t[i])
  }

  /** The right-hand sides y of the first k rows after the forward pass. */
  ghost predicate Forwards(y: seq<real>, r: seq<real>, pivots: seq<real>, k: nat) {
    && 1 <= k == |pivots| && k <= |y| == |r| && 2.0 * y[0] == r[0]
    && (forall i {:trigger y[i]} :: 1 <= i < k ==> Forward(pivots[i], y[i], r[i], y[i - 1]))
  }

  /** The forward pass has treated the first k rows. */
  ghost predicate Reduced(y: seq<real>, r: seq<real>, pivots: seq<real>, t: seq<real>, k: nat) {
    |t| == |y| && Pivots(pivots, t, k) && Forwards(y, r, pivots, k)
  }

  /** The backward pass has treated the rows from k on. */
  ghost predicate Substituted(x: seq<real>, y: seq<real>, t: seq<real>, k: nat) {
    && k < |x| == |y| == |t|
    && (forall i :: 0 <= i < k ==> x[i] == y[i])
    && x[|x| - 1] == y[|x| - 1]
    && (forall i :: k <= i < |x| - 1 ==> Backward(x[i], y[i], t[i + 1], x[i + 1]))
  }

  lemma NextPivot(pivots: seq<real>, t: seq<real>, k: nat, b: real, u: seq<real>)
    requires Pivots(pivots, t, k) && k < |t| == |u| && u[..k] == t[..k]
    requires b >= 2.0 && Inverse(u[k], pivots[k - 1]) && b == Diagonal(k, |t|) - u[k]
    ensures Pivots(pivots + [b], u, k + 1)
  {
  }

  lemma NextForward(y: seq<real>, r: seq<real>, pivots: seq<real>, k: nat, b: real, z: seq<real>)
    requires Forwards(y, r, pivots, k) && k < |y| == |z| && z[..k] == y[..k]
    requires Forward(b, z[k], r[k], z[k - 1])
    ensures Forwards(z, r, pivots + [b], k + 1)
  {
    var more := pivots + [b];
    assert forall i :: 0 <= i < k ==> z[i] == z[..k][i] && y[i] == y[..k][i];
    forall i | 1 <= i < k + 1 ensures Forward(more[i], z[i], r[i], z[i - 1]) {
      if i < k {
        assert Forward(pivots[i], y[i], r[i], y[i - 1]);
      }
    }
  }

  lemma SubstituteRow(x: seq<real>, y: seq<real>, t: seq<real>, k: nat, z: seq<real>)
    requires 0 < k && Substituted(x, y, t, k) && |z| == |x|
    requires Backward(z[k - 1], x[k - 1], t[k], x[k]) && forall i :: 0 <= i < |x| && i != k - 1 ==> z[i] == x[i]
    ensures Substituted(z, y, t, k - 1)
  {
  }

  /** The downward pass: each row loses its lower neighbour.  Every pivot is at least 2, and tmp[0] is not written. */
  method ForwardPass(result: array<real>, rhs: array<real>, tmp: array<real>, n: nat) returns (ghost pivots: seq<real>)
    requires n >= 1 && result.Length == rhs.Length == tmp.Length == n && result != rhs && tmp != rhs && tmp != result
    modifies result, tmp
    ensures Pivots(pivots, tmp[..], n) && Forwards(result[..], rhs[..], pivots, n)
  {
    var b := 2.0;
    result[0] := rhs[0] / b;
    pivots := [b];
    for i := 1 to n
      invariant Pivots(pivots, tmp[..], i) && pivots[i - 1] == b
      invariant Forwards(result[..], rhs[..], pivots, i)
    {
      ghost var y, t := result[..], tmp[..];
      Reciprocal(b);
      tmp[i] := 1.0 / b;
      b := (if i < n - 1 then 4.0 else 3.5) - tmp[i];
      NextPivot(pivots, t, i, b, tmp[..]);
      DivideForward(b, rhs[i], result[i - 1]);
      result[i] := (rhs[i] - result[i - 1]) / b;
      NextForward(y, rhs[..], pivots, i, b, result[..]);
      pivots := pivots + [b];
    }
  }

  /** The upward pass: each unknown is settled from the one below it. */
  method BackwardPass(result: array<real>, tmp: array<real>, n: nat)
    requires n >= 1 && result.Length == tmp.Length == n && tmp != result
    modifies result
    ensures Substituted(result[..], old(result[..]), tmp[..], 0)
  {
    for i := 1 to n
      invariant Substituted(result[..], old(result[..]), tmp[..], n - i)
    {
      ghost var x := result[..];
      result[n - i - 1] := result[n - i - 1] - tmp[n - i] * result[n - i];
      SubstituteRow(x, old(result[..]), tmp[..], n - i, result[..]);
    }
  }

  /** Solves the system of the spline in place, as calculateFirstControlPoints does. */
  method CalculateFirstControlPoints(result: array<real>, rhs: array<real>, n: nat)
    requires n >= 1 && result.Length == n && rhs.Length == n && result != rhs
    modifies result
    ensures Solves(result[..], rhs[..])
  {
    var tmp := new real[n];
    ghost var pivots := ForwardPass(result, rhs, tmp, n);
    ghost var y := result[..];
    BackwardPass(result, tmp, n);
    AllRows(result[..], y, rhs[..], pivots, tmp[..]);
  }

  lemma AllRows(x: seq<real>, y: seq<real>, r: seq<real>, pivots: seq<real>, t: seq<real>)
    requires |x| == |y| && Reduced(y, r, pivots, t, |y|) && Substituted(x, y, t, 0)
    ensures Solves(x, r)
  {
    var n := |x|;
    forall i | 0 <= i < n
      ensures Row(x, r, i)
    {
      if i == 0 {
        if n > 1 {
          assert Inverse(t[1], pivots[0]);
          UndoFirstPasses(x[0], x[1], y[0], t[1], r[0]);
        }
      } else if i < n - 1 {
        UndoPasses(Diagonal(i, n), t[i], pivots[i], t[i + 1], x[i - 1], x[i], x[i + 1], y[i - 1], y[i], r[i]);
      } else {
        UndoLastPasses(Diagonal(i, n), t[i], pivots[i], x[i - 1], x[i], y[i - 1], r[i]);
      }
    }
  }

  // ---------------------------------------------------------------- the solution is bounded and unique

  function Abs(a: real): real {
    if a < 0.0 then -a else a
  }

  lemma {:induction false} Largest(x: seq<real>) returns (m: nat)
    requires |x| > 0
    ensures m < |x| && forall i :: 0 <= i < |x| ==> Abs(x[i]) <= Abs(x[m])
  {
    if |x| == 1 {
      m := 0;
    } else {
      var k := Largest(x[1..]);
      assert forall i :: 1 <= i < |x| ==> x[i] == x[1..][i - 1];
      m := if Abs(x[0]) >= Abs(x[k + 1]) then 0 else k + 1;
    }
  }

  /** The system is diagonally dominant: with every |r[i]| at most c times what the diagonal exceeds
      its neighbours by, every |x[i]| is at most c. */
  lemma DominanceBound(x: seq<real>, r: seq<real>, c: real)
    requires |x| >= 2 && Solves(x, r)
    requires forall i :: 0 <= i < |x| ==> Abs(r[i]) <= (if i == 0 then c else if i < |x| - 1 then 2.0 * c else 2.5 * c)
    ensures forall i :: 0 <= i < |x| ==> Abs(x[i]) <= c
  {
    var m := Largest(x);
    assert Row(x, r, m);
  }

  /** Two solutions of the same system differ by a solution of the homogeneous one. */
  lemma UniqueSolution(x: seq<real>, z: seq<real>, r: seq<real>)
    requires Solves(x, r) && Solves(z, r)
    ensures x == z
  {
    var n := |x|;
    var d := seq(n, i requires 0 <= i < n => x[i] - z[i]);
    var zero := seq(n, i => 0.0);
    forall i | 0 <= i < n
      ensures Row(d, zero, i)
    {
      assert Row(x, r, i) && Row(z, r, i);
    }
    if n >= 2 {
      DominanceBound(d, zero, 0.0);
      forall i | 0 <= i < n
        ensures x[i] == z[i]
      {
        assert Abs(d[i]) <= 0.0;
      }
    } else if n == 1 {
      assert Row(d, zero, 0);
    }
  }
}
