/**
 * Tensors and ordered parameter tuples.
 *
 * Every tensor is kept in its flattened, row-major form (`t.view(-1)`), so a
 * tensor is a sequence of reals and reshaping with `view(size)` is the
 * identity on it. A model exposes its trainable tensors as ordered tuples
 * (`weights()`, `alphas()`, `parameters()`); such a tuple is `Params`.
 */
module Tensors {

  type Vec = seq<real>
  type Params = seq<Vec>

  function Zeros(n: nat): Vec
  {
    seq(n, _ => 0.0)
  }

  /** Elementwise `x + c * y`. */
  function Axpy(x: Vec, c: real, y: Vec): Vec
    requires |y| == |x|
  {
    seq(|x|, k requires 0 <= k < |x| => x[k] + c * y[k])
  }

  /** Elementwise `c * x`. */
  function Scale(c: real, x: Vec): Vec
  {
    seq(|x|, k requires 0 <= k < |x| => c * x[k])
  }

  /** Two tuples hold tensors of the same sizes, position by position. */
  ghost predicate SameShape(a: Params, b: Params)
  {
    |a| == |b| && forall i :: 0 <= i < |a| ==> |a[i]| == |b[i]|
  }

  /** A zero tensor for each tensor of `ps` (`torch.zeros_like` per parameter). */
  function ZerosLike(ps: Params): (r: Params)
    ensures SameShape(r, ps)
  {
    seq(|ps|, i requires 0 <= i < |ps| => Zeros(|ps[i]|))
  }

  /**
   * `for p, v in zip(ps, ds): p += c * v`, as a value: every tensor moves by
   * `c` times the tensor of `ds` at the same position.
   */
  function AddScaled(ps: Params, c: real, ds: Params): (r: Params)
    requires SameShape(ps, ds)
    ensures SameShape(r, ps)
  {
    seq(|ps|, i requires 0 <= i < |ps| => Axpy(ps[i], c, ds[i]))
  }

  /** Two moves along the same direction add up. */
  lemma AddScaledTwice(ps: Params, ds: Params, c1: real, c2: real)
    requires SameShape(ps, ds)
    ensures AddScaled(AddScaled(ps, c1, ds), c2, ds) == AddScaled(ps, c1 + c2, ds)
  {
    var lhs, rhs := AddScaled(AddScaled(ps, c1, ds), c2, ds), AddScaled(ps, c1 + c2, ds);
    forall i | 0 <= i < |ps|
      ensures lhs[i] == rhs[i]
    {
      assert forall k :: 0 <= k < |ps[i]| ==> lhs[i][k] == rhs[i][k];
    }
  }

  /** A move by zero leaves every tensor as it was. */
  lemma AddScaledZero(ps: Params, ds: Params)
    requires SameShape(ps, ds)
    ensures AddScaled(ps, 0.0, ds) == ps
  {
    var r := AddScaled(ps, 0.0, ds);
    forall i | 0 <= i < |ps|
      ensures r[i] == ps[i]
    {
      assert forall k :: 0 <= k < |ps[i]| ==> r[i][k] == ps[i][k];
    }
  }

  /**
   * The perturbation schedule of the finite-difference step: `+eps`, then
   * `-2 eps`, then `+eps` along `ds`. After the second move the tensors sit
   * at `ps - eps ds`, and after the third they are exactly `ps` again (over
   * the reals; floating point may leave a residue).
   */
  lemma {:induction false} PerturbationRestores(ps: Params, ds: Params, eps: real)
    requires SameShape(ps, ds)
    ensures AddScaled(AddScaled(ps, eps, ds), -2.0 * eps, ds) == AddScaled(ps, -eps, ds)
    ensures AddScaled(AddScaled(AddScaled(ps, eps, ds), -2.0 * eps, ds), eps, ds) == ps
  {
    AddScaledTwice(ps, ds, eps, -2.0 * eps);
    AddScaledTwice(ps, ds, -eps, eps);
    AddScaledZero(ps, ds);
  }

  // ---- flattening: `concat` of darts/arch.py and `torch.cat([w.view(-1) ...])`

  /** The number of elements of each tensor (`numel()`), in order. */
  function Numels(ps: Params): seq<nat>
  {
    seq(|ps|, i requires 0 <= i < |ps| => |ps[i]|)
  }

  /** Two tuples have the same shape exactly when their `numel` lists agree. */
  lemma SameShapeIffNumels(a: Params, b: Params)
    ensures SameShape(a, b) <==> Numels(a) == Numels(b)
  {
    if Numels(a) == Numels(b) {
      assert |a| == |Numels(a)| == |b|;
      forall i | 0 <= i < |a|
        ensures |a[i]| == |b[i]|
      {
        assert Numels(a)[i] == Numels(b)[i];
      }
    }
  }

  function Sum(ns: seq<nat>): nat
  {
    if ns == [] then 0 else ns[0] + Sum(ns[1..])
  }

  /** Where the `i`-th tensor starts in the flattened vector. */
  function Offset(ns: seq<nat>, i: nat): nat
    requires i <= |ns|
  {
    Sum(ns[..i])
  }

  lemma {:induction false} SumAppend(a: seq<nat>, b: seq<nat>)
    ensures Sum(a + b) == Sum(a) + Sum(b)
  {
    if a == [] {
      assert a + b == b;
    } else {
      assert (a + b)[1..] == a[1..] + b;
      SumAppend(a[1..], b);
    }
  }

  /** Offsets advance by the size of the tensor just passed and never pass the total. */
  lemma OffsetStep(ns: seq<nat>, i: nat)
    requires i < |ns|
    ensures Offset(ns, i + 1) == Offset(ns, i) + ns[i]
    ensures Offset(ns, i + 1) <= Sum(ns)
  {
    assert ns[..i + 1] == ns[..i] + [ns[i]];
    SumAppend(ns[..i], [ns[i]]);
    assert ns == ns[..i + 1] + ns[i + 1..];
    SumAppend(ns[..i + 1], ns[i + 1..]);
  }

  /**
   * Flatten every tensor and concatenate them in order. The length of the
   * result is the total number of elements.
   */
  function Flatten(ps: Params): (r: Vec)
    ensures |r| == Sum(Numels(ps))
  {
    if ps == [] then []
    else
      assert Numels(ps[1..]) == Numels(ps)[1..];
      ps[0] + Flatten(ps[1..])
  }

  /**
   * Cut `theta` into consecutive pieces of the given sizes, in order: the
   * piece for position `i` is `theta[offset : offset + ns[i]]` where `offset`
   * is the sum of the earlier sizes.
   */
  function Slices(theta: Vec, ns: seq<nat>): (r: Params)
    requires Sum(ns) == |theta|
    ensures |r| == |ns|
  {
    if ns == [] then []
    else [theta[..ns[0]]] + Slices(theta[ns[0]..], ns[1..])
  }

  /** The `i`-th slice is the window at the `i`-th offset. */
  lemma {:induction false} SlicesAt(theta: Vec, ns: seq<nat>, i: nat)
    requires Sum(ns) == |theta| && i < |ns|
    ensures Offset(ns, i) + ns[i] <= |theta|
    ensures Slices(theta, ns)[i] == theta[Offset(ns, i)..Offset(ns, i) + ns[i]]
  {
    OffsetStep(ns, i);
    if i > 0 {
      var rest := ns[1..];
      SlicesAt(theta[ns[0]..], rest, i - 1);
      assert ns[..i] == [ns[0]] + rest[..i - 1];
      assert Offset(ns, i) == ns[0] + Offset(rest, i - 1);
    }
  }

  /** Cutting a flattened tuple at its own sizes gives the tuple back. */
  lemma {:induction false} SlicesOfFlatten(ps: Params)
    ensures Slices(Flatten(ps), Numels(ps)) == ps
  {
    if ps != [] {
      var flat := Flatten(ps);
      assert flat[..|ps[0]|] == ps[0];
      assert flat[|ps[0]|..] == Flatten(ps[1..]);
      assert Numels(ps)[1..] == Numels(ps[1..]);
      SlicesOfFlatten(ps[1..]);
    }
  }

  /** Concatenating the slices of a vector gives the vector back. */
  lemma {:induction false} FlattenOfSlices(theta: Vec, ns: seq<nat>)
    requires Sum(ns) == |theta|
    ensures Flatten(Slices(theta, ns)) == theta
    ensures Numels(Slices(theta, ns)) == ns
  {
    if ns != [] {
      var r := Slices(theta, ns);
      FlattenOfSlices(theta[ns[0]..], ns[1..]);
      assert r[1..] == Slices(theta[ns[0]..], ns[1..]);
      assert theta == theta[..ns[0]] + theta[ns[0]..];
      assert Numels(r) == [ns[0]] + Numels(r[1..]);
    }
  }
}
